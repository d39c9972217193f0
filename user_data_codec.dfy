/** The text form in which the browser session stores its user data, and
    the parser that reads it back. It stands in for JSON.stringify and
    JSON.parse on the session record: an injective encoding whose parser
    recovers every record it wrote and rejects some other strings. */
module UserDataCodec {
  import opened Wrappers

  /** The session record: who is signed in and until when (milliseconds). */
  datatype DrUserData = DrUserData(username: string, name: string, roles: seq<string>, expiresAt: int)

  const Separator := ';'
  const Escape := '\\'

  /** Escapes the separator and the escape character. */
  function Escaped(s: string): (e: string)
    ensures |e| >= |s|
  {
    if s == [] then []
    else (if s[0] == Separator || s[0] == Escape then [Escape, s[0]] else [s[0]]) + Escaped(s[1..])
  }

  /** One field: its escaped text, then a separator. */
  function Field(s: string): string {
    Escaped(s) + [Separator]
  }

  /** Reads one field off the front of `t`: its text and what follows. */
  function ReadField(t: string): (r: Option<(string, string)>)
    ensures r.Some? ==> |r.value.1| < |t|
  {
    if t == [] then None
    else if t[0] == Separator then Some(([], t[1..]))
    else if t[0] == Escape then
      if |t| < 2 then None
      else match ReadField(t[2..])
        case None => None
        case Some((f, rest)) => Some(([t[1]] + f, rest))
    else match ReadField(t[1..])
      case None => None
      case Some((f, rest)) => Some(([t[0]] + f, rest))
  }

  /** Reading a written field gives back its text and leaves the rest. */
  lemma {:induction false} ReadWrittenField(s: string, rest: string)
    ensures ReadField(Field(s) + rest) == Some((s, rest))
  {
    if s == [] {
      assert Field(s) + rest == [Separator] + rest;
    } else {
      ReadWrittenField(s[1..], rest);
      var head := if s[0] == Separator || s[0] == Escape then [Escape, s[0]] else [s[0]];
      assert Field(s) + rest == head + (Field(s[1..]) + rest);
      assert [s[0]] + s[1..] == s;
    }
  }

  function DigitChar(d: nat): char
    requires d < 10
  {
    ('0' as int + d) as char
  }

  function DigitValue(c: char): Option<nat> {
    if '0' <= c <= '9' then Some(c as int - '0' as int) else None
  }

  /** Decimal digits of a natural number, most significant first. */
  function NatText(n: nat): (s: string)
    ensures |s| > 0
    ensures forall k :: 0 <= k < |s| ==> '0' <= s[k] <= '9'
  {
    if n < 10 then [DigitChar(n)] else NatText(n / 10) + [DigitChar(n % 10)]
  }

  function ParseNat(s: string): Option<nat> {
    if s == [] then None
    else
      match DigitValue(s[|s| - 1])
      case None => None
      case Some(d) =>
        if |s| == 1 then Some(d)
        else match ParseNat(s[..|s| - 1])
          case None => None
          case Some(n) => Some(10 * n + d)
  }

  lemma {:induction false} ParseNatText(n: nat)
    ensures ParseNat(NatText(n)) == Some(n)
  {
    if n >= 10 {
      ParseNatText(n / 10);
      var s := NatText(n);
      assert s[..|s| - 1] == NatText(n / 10);
    }
  }

  /** A signed integer: a minus sign before the digits of a negative number. */
  function IntText(i: int): string {
    if i < 0 then ['-'] + NatText(-i) else NatText(i)
  }

  function ParseInt(s: string): Option<int> {
    if |s| > 0 && s[0] == '-' then
      match ParseNat(s[1..])
      case None => None
      case Some(n) => Some(-(n as int))
    else match ParseNat(s)
      case None => None
      case Some(n) => Some(n)
  }

  lemma ParseIntText(i: int)
    ensures ParseInt(IntText(i)) == Some(i)
  {
    if i < 0 {
      ParseNatText(-i);
      assert IntText(i)[1..] == NatText(-i);
    } else {
      ParseNatText(i);
      assert NatText(i)[0] != '-';
    }
  }

  function Fields(items: seq<string>): string {
    if items == [] then [] else Field(items[0]) + Fields(items[1..])
  }

  /** Reads fields until the text runs out. */
  function ReadFields(t: string): Option<seq<string>>
    decreases |t|
  {
    if t == [] then Some([])
    else match ReadField(t)
      case None => None
      case Some((f, rest)) =>
        match ReadFields(rest)
        case None => None
        case Some(fs) => Some([f] + fs)
  }

  lemma {:induction false} ReadWrittenFields(items: seq<string>)
    ensures ReadFields(Fields(items)) == Some(items)
  {
    if items != [] {
      ReadWrittenField(items[0], Fields(items[1..]));
      ReadWrittenFields(items[1..]);
      assert Field(items[0]) != [];
      assert [items[0]] + items[1..] == items;
    }
  }

  /** The stored text of a session record: user name, display name, expiry, then the roles. */
  function Stringify(u: DrUserData): string {
    Field(u.username) + Field(u.name) + Field(IntText(u.expiresAt)) + Fields(u.roles)
  }

  /** Reads a stored record back, or None when the text is not one. */
  function Parse(t: string): Option<DrUserData> {
    match ReadField(t)
    case None => None
    case Some((username, t1)) =>
      match ReadField(t1)
      case None => None
      case Some((name, t2)) =>
        match ReadField(t2)
        case None => None
        case Some((expires, t3)) =>
          match ParseInt(expires)
          case None => None
          case Some(expiresAt) =>
            match ReadFields(t3)
            case None => None
            case Some(roles) => Some(DrUserData(username, name, roles, expiresAt))
  }

  /** Every record the session writes is read back unchanged. */
  lemma ParseStringify(u: DrUserData)
    ensures Parse(Stringify(u)) == Some(u)
  {
    var t3 := Fields(u.roles);
    var t2 := Field(IntText(u.expiresAt)) + t3;
    var t1 := Field(u.name) + t2;
    assert Stringify(u) == Field(u.username) + t1;
    ReadWrittenField(u.username, t1);
    ReadWrittenField(u.name, t2);
    ReadWrittenField(IntText(u.expiresAt), t3);
    ParseIntText(u.expiresAt);
    ReadWrittenFields(u.roles);
  }

  /** The stored text is never empty, so the session always finds it present. */
  lemma StringifyNotEmpty(u: DrUserData)
    ensures Stringify(u) != ""
  {
    assert |Field(u.username)| > 0;
  }

  /** Text that is not a record, such as the empty string, is rejected. */
  lemma MalformedRejected()
    ensures Parse("") == None
    ensures Parse("x") == None
  {
  }
}
