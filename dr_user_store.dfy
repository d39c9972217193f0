/** The in-memory DR credential store: a dictionary with a case-insensitive
    key comparer, filled once with three users and only read afterwards. */
module DrUserStore {
  import opened Wrappers
  import opened Text
  import opened Models

  /** One dictionary entry: the key it was added under and the user. */
  datatype Entry = Entry(key: string, user: DrUser)

  const Admin := DrUser("admin", "Admin123!", "DR Administrator", ["critical.operator", "weather.tuner"])
  const Operator := DrUser("operator", "Operator123!", "DR Operator", ["critical.operator"])
  const Tuner := DrUser("tuner", "Tuner123!", "DR Weather Tuner", ["weather.tuner"])

  /** The table the constructor builds, in insertion order: each stored
      user keyed by its own name. */
  function Users(): (entries: seq<Entry>)
    ensures |entries| == |UserRecords()|
    ensures forall i :: 0 <= i < |entries| ==> entries[i].key == entries[i].user.Username
    ensures forall i :: 0 <= i < |entries| ==> entries[i].user == UserRecords()[i]
  {
    [Entry("admin", Admin), Entry("operator", Operator), Entry("tuner", Tuner)]
  }

  /** `TryGetValue` under `StringComparer.OrdinalIgnoreCase`: the user whose
      key equals `username` ignoring case, if there is one. */
  function TryGetValue(entries: seq<Entry>, username: string): (r: Option<DrUser>)
    ensures r.None? <==> forall i :: 0 <= i < |entries| ==> !EqualsIgnoreCase(entries[i].key, username)
    ensures r.Some? ==> exists i :: 0 <= i < |entries| && EqualsIgnoreCase(entries[i].key, username) && entries[i].user == r.value
  {
    if entries == [] then None
    else if EqualsIgnoreCase(entries[0].key, username) then Some(entries[0].user)
    else
      var r := TryGetValue(entries[1..], username);
      assert forall i :: 1 <= i < |entries| ==> entries[i] == entries[1..][i - 1];
      r
  }

  /** `ValidateCredentials`: look the user up ignoring case, then compare the
      password exactly; both failures give None. */
  function ValidateCredentials(username: string, password: string): (r: Option<DrUser>)
    ensures r.Some? ==> r.value in UserRecords() && EqualsIgnoreCase(r.value.Username, username) && r.value.Password == password
  {
    match TryGetValue(Users(), username)
    case None => None
    case Some(user) => if user.Password != password then None else Some(user)
  }

  function UserRecords(): seq<DrUser> {
    [Admin, Operator, Tuner]
  }

  /** The three stored users carry these roles. */
  lemma TableShape()
    ensures |UserRecords()| == 3
    ensures Admin.Roles == ["critical.operator", "weather.tuner"]
    ensures Operator.Roles == ["critical.operator"]
    ensures Tuner.Roles == ["weather.tuner"]
  {
  }

  /** No two keys of the table are equal ignoring case. */
  lemma KeysUnique()
    ensures forall i, j :: 0 <= i < j < |Users()| ==> !EqualsIgnoreCase(Users()[i].key, Users()[j].key)
  {
    var keys := ["admin", "operator", "tuner"];
    assert forall i :: 0 <= i < 3 ==> Users()[i].key == keys[i];
    CharDiffers(keys[0], keys[1], 0);
    CharDiffers(keys[0], keys[2], 0);
    CharDiffers(keys[1], keys[2], 0);
  }

  /** The lookup sees only the folded form of the name. */
  lemma {:induction false} TryGetValueIgnoresCase(entries: seq<Entry>, a: string, b: string)
    requires EqualsIgnoreCase(a, b)
    ensures TryGetValue(entries, a) == TryGetValue(entries, b)
  {
    if entries != [] {
      TryGetValueIgnoresCase(entries[1..], a, b);
    }
  }

  /** "Admin", "ADMIN" and "admin" are one user: credential checks agree on
      any two spellings that differ only in case. */
  lemma ValidateCredentialsIgnoresCase(a: string, b: string, password: string)
    requires EqualsIgnoreCase(a, b)
    ensures ValidateCredentials(a, password) == ValidateCredentials(b, password)
  {
    TryGetValueIgnoresCase(Users(), a, b);
  }

  /** Success exactly when some stored user has this name, ignoring case, and
      exactly this password; the user returned is the stored record, with its
      own spelling of the name. */
  lemma ValidateCredentialsSpec(username: string, password: string, u: DrUser)
    requires u in UserRecords() && EqualsIgnoreCase(u.Username, username)
    ensures ValidateCredentials(username, password) == (if u.Password == password then Some(u) else None)
  {
    TableShape();
    KeysUnique();
    var r := TryGetValue(Users(), username);
    var j :| 0 <= j < 3 && UserRecords()[j] == u;
    assert EqualsIgnoreCase(Users()[j].key, username);
    var i :| 0 <= i < 3 && EqualsIgnoreCase(Users()[i].key, username) && Users()[i].user == r.value;
    if i != j {
      if i < j {
        assert EqualsIgnoreCase(Users()[i].key, Users()[j].key);
      } else {
        assert EqualsIgnoreCase(Users()[j].key, Users()[i].key);
      }
    }
  }

  /** A name that matches no stored user gives None, whatever the password. */
  lemma UnknownUserRejected(username: string, password: string)
    requires forall u :: u in UserRecords() ==> !EqualsIgnoreCase(u.Username, username)
    ensures ValidateCredentials(username, password) == None
  {
    TableShape();
    assert forall i :: 0 <= i < 3 ==> Users()[i].key == UserRecords()[i].Username;
  }

  /** The password is compared exactly: a known name with a password that is
      not identical, even one differing only in case, gives None, the same
      value as an unknown name. */
  lemma CredentialFailuresCoincide()
    ensures ValidateCredentials("admin", "admin123!") == None
    ensures ValidateCredentials("admin", "wrong") == ValidateCredentials("nobody", "Admin123!")
  {
    ValidateCredentialsSpec("admin", "admin123!", Admin);
    ValidateCredentialsSpec("admin", "wrong", Admin);
    assert FoldCase("nobody")[0] == 'n';
    UnknownUserRejected("nobody", "Admin123!");
  }

  /** Any casing of a stored name with the right password yields the stored
      record, whose name is the stored spelling. */
  lemma AdminInAnyCase()
    ensures ValidateCredentials("Admin", "Admin123!") == Some(Admin)
    ensures ValidateCredentials("ADMIN", "Admin123!") == Some(Admin)
    ensures ValidateCredentials("ADMIN", "Admin123!").value.Username == "admin"
  {
    assert FoldCase("Admin") == "admin";
    assert FoldCase("ADMIN") == "admin";
    ValidateCredentialsSpec("Admin", "Admin123!", Admin);
    ValidateCredentialsSpec("ADMIN", "Admin123!", Admin);
  }
}
