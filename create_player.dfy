/**
 * Account registration: the login is trimmed and must be 3 to 30 ASCII letters, digits
 * or underscores; the password is taken as given and must be 4 to 50 characters; a
 * login already registered (exactly equal) is a conflict. Success adds one user row.
 *
 * A missing `login` or `password` field arrives as the empty string.
 */
module CreatePlayer {
  import opened Base
  import opened Text
  import opened Schema

  const MinLogin := 3
  const MaxLogin := 30
  const MinPassword := 4
  const MaxPassword := 50

  /** `[A-Za-z0-9_]`. */
  predicate LoginChar(c: char)
  {
    ('A' <= c <= 'Z') || ('a' <= c <= 'z') || ('0' <= c <= '9') || c == '_'
  }

  /** The checks before the lookup, on the trimmed login: `None` when they all pass. */
  function FormError(login: string, password: string): (r: Option<int>)
    ensures r.Some? ==> r.value == 400
    ensures r.None? <==>
      && MinLogin <= |login| <= MaxLogin
      && (forall i :: 0 <= i < |login| ==> LoginChar(login[i]))
      && MinPassword <= |password| <= MaxPassword
  {
    if login == [] || password == [] then Some(400)
    else if |login| < MinLogin || |login| > MaxLogin then Some(400)
    else if exists i :: 0 <= i < |login| && !LoginChar(login[i]) then Some(400)
    else if |password| < MinPassword || |password| > MaxPassword then Some(400)
    else None
  }

  /** `create_player.php`: the reply carries the stored login. */
  function Register(t: Tables, rawLogin: string, password: string): (r: Step<string>)
    ensures r.reply.Ok? <==> FormError(PhpTrim(rawLogin), password).None? && PhpTrim(rawLogin) !in t.users
    ensures r.reply.Ok? ==> r.reply.body == PhpTrim(rawLogin) && r.tables == t.(users := t.users + [PhpTrim(rawLogin)])
    ensures r.reply == Err(409) <==> FormError(PhpTrim(rawLogin), password).None? && PhpTrim(rawLogin) in t.users
    ensures !r.reply.Ok? ==> r.tables == t && r.reply.Err? && r.reply.code in {400, 409}
  {
    var login := PhpTrim(rawLogin);
    match FormError(login, password)
    case Some(code) => Step(t, Err(code))
    case None =>
      if login in t.users then Step(t, Err(409))
      else Step(t.(users := t.users + [login]), Ok(login))
  }

  /** Surrounding whitespace in the login changes nothing: the stored login is trimmed. */
  lemma PaddedLoginSame(t: Tables, rawLogin: string, password: string)
    ensures Register(t, PhpTrim(rawLogin), password) == Register(t, rawLogin, password)
  {
    var login := PhpTrim(rawLogin);
    assert PhpTrim(login) == login by {
      assert login == [] || (!IsPhpSpace(login[0]) && !IsPhpSpace(login[|login| - 1]));
    }
    SameTrimSameRegister(t, login, rawLogin, password);
  }

  /** Only the trimmed login reaches the registration. */
  lemma SameTrimSameRegister(t: Tables, raw1: string, raw2: string, password: string)
    requires PhpTrim(raw1) == PhpTrim(raw2)
    ensures Register(t, raw1, password) == Register(t, raw2, password)
  {
  }

  /**
   * Registration keeps logins unique: a store whose logins are distinct keeps them
   * distinct, and a login once registered is refused with 409 afterwards.
   */
  lemma RegisterKeepsLoginsUnique(t: Tables, rawLogin: string, password: string, again: string, password2: string)
    requires forall i, j :: 0 <= i < j < |t.users| ==> t.users[i] != t.users[j]
    ensures var r := Register(t, rawLogin, password).tables;
      forall i, j :: 0 <= i < j < |r.users| ==> r.users[i] != r.users[j]
    ensures var s := Register(t, rawLogin, password);
      (s.reply.Ok? && PhpTrim(again) == s.reply.body && FormError(s.reply.body, password2).None?)
      ==> Register(s.tables, again, password2).reply == Err(409)
  {
    var s := Register(t, rawLogin, password);
    if s.reply.Ok? {
      var u := s.tables.users;
      assert u[|u| - 1] == PhpTrim(rawLogin);
      assert PhpTrim(rawLogin) in u;
    }
  }

  /** The insert into `users`. */
  method RegisterCall(s: Store, rawLogin: string, password: string) returns (reply: Reply<string>)
    modifies s
    ensures s.Snapshot() == Register(old(s.Snapshot()), rawLogin, password).tables
    ensures reply == Register(old(s.Snapshot()), rawLogin, password).reply
  {
    var login := PhpTrim(rawLogin);
    var err := FormError(login, password);
    if err.Some? {
      return Err(err.value);
    }
    if login in s.users {
      return Err(409);
    }
    s.users := s.users + [login];
    reply := Ok(login);
  }
}
