/**
 * The session gate (src/contexts/AuthContext.tsx): a hard-coded two-user table,
 * and a provider holding the signed-in `user` next to the browser's saved
 * `'user'` entry. The saved entry is an abstract slot holding a user record:
 * serialising and parsing it are taken to be exact.
 */
module AuthContext {
  import opened Wrappers

  /** A session: who is signed in, their role ('admin' or 'user') and their feature list. */
  datatype User = User(username: string, role: string, allowedFeatures: seq<string>)

  const Admin := User("csiedentop", "admin", ["all"])
  const Member := User("sdsiedentop", "user", ["chat", "calculator", "expense"])

  /** The table of known users, keyed by user name. */
  const Users: map<string, User> := map["csiedentop" := Admin, "sdsiedentop" := Member]

  /** `getUserConfig`: the table entry for a user name, or null. */
  function GetUserConfig(username: string): (r: Option<User>)
    ensures r.Some? <==> username == "csiedentop" || username == "sdsiedentop"
    ensures r.Some? ==> r.value.username == username
    ensures r.Some? ==> r.value.role == (if username == "csiedentop" then "admin" else "user")
  {
    if username in Users then Some(Users[username]) else None
  }

  /** The two entries of the table, field by field. */
  lemma UserTable()
    ensures GetUserConfig("csiedentop") == Some(User("csiedentop", "admin", ["all"]))
    ensures GetUserConfig("sdsiedentop") == Some(User("sdsiedentop", "user", ["chat", "calculator", "expense"]))
  {
  }

  /** The provider's state: the session and the saved `'user'` entry. */
  class AuthProvider {
    var user: Option<User>
    var saved: Option<User>

    /** The session and the saved entry agree. */
    predicate Synced()
      reads this
    {
      user == saved
    }

    /** First render: no session yet, whatever is saved. */
    constructor(saved: Option<User>)
      ensures user == None && this.saved == saved
    {
      user := None;
      this.saved := saved;
    }

    /** The mount effect: a saved entry becomes the session as it is, without a table lookup. */
    method Restore()
      modifies this
      ensures saved == old(saved)
      ensures user == if old(saved).Some? then old(saved) else old(user)
      ensures old(saved).Some? ==> Synced()
    {
      if saved.Some? {
        user := saved;
      }
    }

    /**
     * `login`: succeeds exactly for a user name of the table; the password is
     * never looked at. On success the entry becomes the session and is saved;
     * on failure nothing changes.
     */
    method Login(username: string, password: string) returns (ok: bool)
      modifies this
      ensures ok <==> GetUserConfig(username).Some?
      ensures ok ==> user == GetUserConfig(username) && Synced()
      ensures !ok ==> user == old(user) && saved == old(saved)
    {
      var config := GetUserConfig(username);
      if config.Some? {
        user := config;
        saved := config;
        return true;
      }
      return false;
    }

    /** `logout`: clears the session and removes the saved entry. */
    method Logout()
      modifies this
      ensures user == None && saved == None
      ensures Synced()
    {
      user := None;
      saved := None;
    }
  }

  /** Any two passwords give the same outcome and the same state. */
  method LoginIgnoresPassword(username: string, p1: string, p2: string, a: AuthProvider, b: AuthProvider)
    returns (ok1: bool, ok2: bool)
    requires a != b
    requires a.user == b.user && a.saved == b.saved
    modifies a, b
    ensures ok1 == ok2
    ensures a.user == b.user && a.saved == b.saved
  {
    ok1 := a.Login(username, p1);
    ok2 := b.Login(username, p2);
  }

  /** Logging out twice leaves the state of logging out once. */
  method LogoutIdempotent(a: AuthProvider)
    modifies a
    ensures a.user == None && a.saved == None
  {
    a.Logout();
    var afterOnce := (a.user, a.saved);
    a.Logout();
    assert (a.user, a.saved) == afterOnce;
  }

  /** A saved session is adopted on mount even when it names no user of the table. */
  method RestoreUnchecked(stranger: User) returns (a: AuthProvider)
    requires GetUserConfig(stranger.username).None?
    ensures a.user == Some(stranger) && a.Synced()
  {
    a := new AuthProvider(Some(stranger));
    a.Restore();
  }
}
