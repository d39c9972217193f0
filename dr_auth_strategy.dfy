/** The browser's DR session: signs in through the login endpoint's
    response, keeps the token and user data under two storage keys, restores
    them on start and drops them on logout or expiry. */
module DrAuthStrategy {
  import opened Wrappers
  import opened UserDataCodec

  const TokenKey := "dr_access_token"
  const UserKey := "dr_user_data"

  /** The login endpoint's JSON body; `expiresIn` is in seconds. */
  datatype DrLoginResponse = DrLoginResponse(
    accessToken: string, tokenType: string, expiresIn: int,
    username: string, name: string, roles: seq<string>)

  /** What the login request came back with: a response that is not ok,
      with its body text, or an ok one with its decoded body. */
  datatype LoginReply = NotOk(text: string) | Ok(data: DrLoginResponse)

  /** `getItem(key)` is truthy: the key is stored with a non-empty value. */
  predicate Present(storage: map<string, string>, key: string) {
    key in storage && storage[key] != ""
  }

  datatype RestoreDecision = KeysMissing | Restored(user: DrUserData) | Discarded

  /** What `initialize` makes of the stored keys at time `now` (milliseconds):
      nothing when either key is missing, the stored session when it parses
      and has not expired, and otherwise discard it. */
  function RestoreDecisionOf(storage: map<string, string>, now: int): (d: RestoreDecision)
    ensures d == KeysMissing <==> !(Present(storage, TokenKey) && Present(storage, UserKey))
    ensures d.Restored? ==>
      Present(storage, TokenKey) && Present(storage, UserKey)
      && Parse(storage[UserKey]) == Some(d.user) && now < d.user.expiresAt
    ensures Present(storage, TokenKey) && Present(storage, UserKey)
      && Parse(storage[UserKey]).Some? && now < Parse(storage[UserKey]).value.expiresAt
      ==> d == Restored(Parse(storage[UserKey]).value)
  {
    if !(Present(storage, TokenKey) && Present(storage, UserKey)) then KeysMissing
    else match Parse(storage[UserKey])
      case Some(u) => if now < u.expiresAt then Restored(u) else Discarded
      case None => Discarded
  }

  /** Storage without the two session keys. */
  function ClearedStorage(storage: map<string, string>): (s: map<string, string>)
    ensures s.Keys == storage.Keys - {TokenKey, UserKey}
    ensures forall k :: k in storage && k != TokenKey && k != UserKey ==> k in s && s[k] == storage[k]
  {
    storage - {TokenKey, UserKey}
  }

  /** The session a successful login records at time `now`. */
  function SessionOf(data: DrLoginResponse, now: int): DrUserData {
    DrUserData(data.username, data.name, data.roles, now + data.expiresIn * 1000)
  }

  /** Storage after a successful login: the token and the stored session text. */
  function StorageAfterLogin(storage: map<string, string>, data: DrLoginResponse, now: int): map<string, string> {
    storage[TokenKey := data.accessToken][UserKey := Stringify(SessionOf(data, now))]
  }

  /** A reload after a login restores the same session until its expiry
      (exclusive), then discards it; an empty token is treated as missing. */
  lemma LoginThenReload(storage: map<string, string>, data: DrLoginResponse, loginTime: int, now: int)
    ensures RestoreDecisionOf(StorageAfterLogin(storage, data, loginTime), now) ==
      if data.accessToken == "" then KeysMissing
      else if now < loginTime + data.expiresIn * 1000 then Restored(SessionOf(data, loginTime))
      else Discarded
  {
    var u := SessionOf(data, loginTime);
    ParseStringify(u);
    StringifyNotEmpty(u);
    assert |TokenKey| != |UserKey|;
  }

  /** Clearing twice is clearing once, and a reload after clearing finds nothing. */
  lemma ClearedStorageSettles(storage: map<string, string>, now: int)
    ensures ClearedStorage(ClearedStorage(storage)) == ClearedStorage(storage)
    ensures RestoreDecisionOf(ClearedStorage(storage), now) == KeysMissing
  {
  }

  class DrAuthStrategy {
    var loading: bool
    var authenticated: bool
    var userData: Option<DrUserData>
    /** The subscribed callbacks, by identity. */
    var listeners: set<nat>
    /** The browser's local storage. */
    var storage: map<string, string>
    /** One entry per `notifyListeners` call: the listeners it called. */
    var notifications: seq<set<nat>>

    /** Signed in exactly when a session is held, and a held session is the
        one the storage records. */
    ghost predicate Valid()
      reads this
    {
      && (authenticated <==> userData.Some?)
      && (authenticated ==> TokenKey in storage && UserKey in storage && Parse(storage[UserKey]) == userData)
    }

    constructor (storage: map<string, string>)
      ensures Valid()
      ensures !loading && !authenticated && userData == None
      ensures listeners == {} && notifications == [] && this.storage == storage
    {
      loading := false;
      authenticated := false;
      userData := None;
      listeners := {};
      this.storage := storage;
      notifications := [];
    }

    /** `initialize`, with `now` the clock reading in milliseconds. */
    method Initialize(now: int)
      requires Valid()
      modifies this
      ensures Valid() && !loading
      ensures listeners == old(listeners) && notifications == old(notifications)
      ensures match RestoreDecisionOf(old(storage), now)
        case KeysMissing =>
          authenticated == old(authenticated) && userData == old(userData) && storage == old(storage)
        case Restored(u) => authenticated && userData == Some(u) && storage == old(storage)
        case Discarded => !authenticated && userData == None && storage == ClearedStorage(old(storage))
    {
      loading := true;
      var storedToken := if TokenKey in storage then storage[TokenKey] else "";
      var storedUserData := if UserKey in storage then storage[UserKey] else "";
      if storedToken != "" && storedUserData != "" {
        match Parse(storedUserData) {
          case Some(u) =>
            if now < u.expiresAt {
              authenticated := true;
              userData := Some(u);
            } else {
              ClearSession();
            }
          case None =>
            ClearSession();
        }
      }
      loading := false;
    }

    /** Signed in; in a valid state, exactly when a session is held. */
    function IsAuthenticated(): (r: bool)
      reads this
      ensures r == authenticated
      ensures Valid() ==> (r <==> userData.Some?)
    {
      authenticated
    }

    function IsLoading(): (r: bool)
      reads this
      ensures r == loading
    {
      loading
    }

    /** The display name; JavaScript's `||` turns an empty name into null. */
    function GetUser(): (name: Option<string>)
      requires Valid()
      reads this
      ensures name.Some? ==> authenticated && name.value != "" && name.value == userData.value.name
      ensures authenticated && userData.value.name != "" ==> name.Some?
    {
      if userData.Some? && userData.value.name != "" then Some(userData.value.name) else None
    }

    /** The session's roles, or none when signed out. */
    function GetRoles(): (roles: seq<string>)
      requires Valid()
      reads this
      ensures !authenticated ==> roles == []
      ensures authenticated ==> roles == userData.value.roles
    {
      if userData.Some? then userData.value.roles else []
    }

    /** `loginWithCredentials` after the request has come back. A reply that
        is not ok fails with its text, or "Login failed" when that is empty,
        and changes nothing. */
    method LoginWithCredentials(reply: LoginReply, now: int) returns (outcome: Outcome<string>)
      requires Valid()
      modifies this
      ensures Valid()
      ensures loading == old(loading) && listeners == old(listeners)
      ensures reply.NotOk? ==>
        && outcome == Fail(if reply.text != "" then reply.text else "Login failed")
        && authenticated == old(authenticated) && userData == old(userData)
        && storage == old(storage) && notifications == old(notifications)
      ensures reply.Ok? ==>
        && outcome == Pass
        && authenticated && userData == Some(SessionOf(reply.data, now))
        && userData.value.expiresAt == now + reply.data.expiresIn * 1000
        && storage == StorageAfterLogin(old(storage), reply.data, now)
        && notifications == old(notifications) + [listeners]
    {
      if reply.NotOk? {
        outcome := Fail(if reply.text != "" then reply.text else "Login failed");
        return;
      }
      var data := reply.data;
      var expiresAt := now + data.expiresIn * 1000;
      var session := DrUserData(data.username, data.name, data.roles, expiresAt);
      userData := Some(session);
      storage := storage[TokenKey := data.accessToken];
      storage := storage[UserKey := Stringify(session)];
      ParseStringify(session);
      authenticated := true;
      NotifyListeners();
      outcome := Pass;
    }

    /** `logout`: clears the session and notifies once. */
    method Logout()
      requires Valid()
      modifies this
      ensures Valid()
      ensures !authenticated && userData == None && storage == ClearedStorage(old(storage))
      ensures loading == old(loading) && listeners == old(listeners)
      ensures notifications == old(notifications) + [listeners]
    {
      ClearSession();
      NotifyListeners();
    }

    /** `getAccessToken` at time `now`: nothing when signed out; logs out and
        gives nothing once the session has expired; otherwise the stored token. */
    method GetAccessToken(now: int) returns (token: Option<string>)
      requires Valid()
      modifies this
      ensures Valid()
      ensures !old(authenticated) ==> token == None && unchanged(this)
      ensures old(authenticated) && now >= old(userData).value.expiresAt ==>
        && token == None && !authenticated && userData == None
        && storage == ClearedStorage(old(storage))
        && notifications == old(notifications) + [listeners]
        && loading == old(loading) && listeners == old(listeners)
      ensures old(authenticated) && now < old(userData).value.expiresAt ==>
        token == Some(old(storage)[TokenKey]) && unchanged(this)
    {
      if !authenticated {
        return None;
      }
      var stored := if TokenKey in storage then Some(storage[TokenKey]) else None;
      if userData.Some? && now >= userData.value.expiresAt {
        Logout();
        return None;
      }
      token := stored;
    }

    /** `onAuthStateChanged`: subscribes a listener. */
    method OnAuthStateChanged(listener: nat)
      modifies this`listeners
      ensures listeners == old(listeners) + {listener}
    {
      listeners := listeners + {listener};
    }

    /** The function `onAuthStateChanged` returns: unsubscribes the listener. */
    method Unsubscribe(listener: nat)
      modifies this`listeners
      ensures listeners == old(listeners) - {listener}
    {
      listeners := listeners - {listener};
    }

    method ClearSession()
      modifies this
      ensures !authenticated && userData == None && storage == ClearedStorage(old(storage))
      ensures loading == old(loading) && listeners == old(listeners) && notifications == old(notifications)
    {
      storage := storage - {TokenKey};
      storage := storage - {UserKey};
      authenticated := false;
      userData := None;
    }

    method NotifyListeners()
      modifies this`notifications
      ensures notifications == old(notifications) + [listeners]
    {
      notifications := notifications + [listeners];
    }
  }
}
