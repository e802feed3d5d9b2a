/**
 * The session manager of contexts/AuthContext.js: the signed-in user, the
 * loading flag and the two local-storage entries `token` and `user`.
 *
 * Local storage is a `map<string, string>`; `getItem` of a missing key is
 * `null`, and the source tests both entries for truthiness, so an entry
 * holding the empty string counts as missing (`Stored`).
 */
module Auth {
  import opened Wrappers
  import opened Text
  import opened Identity

  const TokenKey := "token"
  const UserKey := "user"
  /** The token every mock sign-in writes. */
  const MockToken := "mock-jwt-token"

  /** `localStorage.getItem(key)` is truthy: present and not the empty string. */
  predicate Stored(store: map<string, string>, key: string) {
    key in store && store[key] != ""
  }

  /** Role inferred from the whole email address; "teacher" wins over "admin", then "student". */
  function InferRole(email: string): (role: string)
    ensures role == "teacher" <==> Contains(email, "teacher")
    ensures role == "admin" <==> !Contains(email, "teacher") && Contains(email, "admin")
    ensures role == "student" <==> !Contains(email, "teacher") && !Contains(email, "admin")
  {
    if Contains(email, "teacher") then "teacher"
    else if Contains(email, "admin") then "admin"
    else "student"
  }

  /** The display name of the mock user, chosen by the same two tests as the role. */
  function MockName(email: string): string {
    if Contains(email, "teacher") then "John Teacher"
    else if Contains(email, "admin") then "Admin User"
    else "Jane Student"
  }

  /** The user `login` constructs: id "1", the email as given, and a name that goes with the inferred role. */
  function LoginUser(email: string): (u: User)
    ensures u.id == "1" && u.email == email && u.role == InferRole(email)
    ensures u.role in {"teacher", "admin", "student"}
    ensures u.role == "teacher" <==> u.name == "John Teacher"
    ensures u.role == "admin" <==> u.name == "Admin User"
    ensures u.role == "student" <==> u.name == "Jane Student"
  {
    User("1", MockName(email), email, InferRole(email))
  }

  /** "teacher" anywhere in the address makes a teacher, even with "admin" before it. */
  lemma TeacherExamples()
    ensures InferRole("teacher.jane@x.com") == "teacher"
    ensures InferRole("admin.teacher@x.com") == "teacher"
  {
    assert StartsWith("teacher.jane@x.com", "teacher");
    var at := "admin.teacher@x.com";
    assert OccursAt(at, "teacher", 6);
    ContainsAt(at, "teacher");
  }

  /** The role is decided by the whole address, the domain included. */
  lemma DomainDecidesRole()
    ensures InferRole("jane@teacher.org") == "teacher"
  {
    assert OccursAt("jane@teacher.org", "teacher", 5);
    ContainsAt("jane@teacher.org", "teacher");
  }

  /** An address with "admin" and no "teacher" makes an admin. */
  lemma AdminExample()
    ensures InferRole("admin@x.com") == "admin"
  {
    assert StartsWith("admin@x.com", "admin");
    MissingCharNotContained("admin@x.com", "teacher", 't');
  }

  /** An address with neither word makes a student. */
  lemma StudentExample(email: string)
    requires email == "jane@x.com"
    ensures InferRole(email) == "student"
  {
    MissingCharNotContained(email, "teacher", 't');
    MissingCharNotContained(email, "admin", 'd');
  }

  /** Storage after a successful sign-in: both entries stored, the user serialized, every other key kept. */
  function SignedIn(store: map<string, string>, u: User): (r: map<string, string>)
    ensures Stored(r, TokenKey) && r[TokenKey] == MockToken
    ensures Stored(r, UserKey) && r[UserKey] == Serialize(u)
    ensures forall k :: k != TokenKey && k != UserKey ==> (k in r <==> k in store)
    ensures forall k :: k in store && k != TokenKey && k != UserKey ==> r[k] == store[k]
  {
    store[TokenKey := MockToken][UserKey := Serialize(u)]
  }

  /** Storage after `logout`: both session entries removed, everything else kept. */
  function SignedOut(store: map<string, string>): (r: map<string, string>)
    ensures TokenKey !in r && UserKey !in r
    ensures forall k :: k != TokenKey && k != UserKey ==> (k in r <==> k in store)
    ensures forall k :: k in r ==> r[k] == store[k]
  {
    store - {TokenKey, UserKey}
  }

  /** User and storage after the start-up effect has run. */
  datatype Restored = Restored(user: Option<User>, store: map<string, string>)

  /**
   * The start-up effect: with both entries stored, a parseable user replaces
   * the current one and a corrupt one is removed together with the token;
   * otherwise nothing changes.
   */
  function RestoreFrom(store: map<string, string>, user: Option<User>): (r: Restored)
    ensures r.user != user ==>
      r.user.Some? && Stored(store, TokenKey) && Stored(store, UserKey) && store[UserKey] == Serialize(r.user.value)
    ensures r.store == store || r.store == SignedOut(store)
    ensures r.store != store ==>
      r.user == user && Stored(store, TokenKey) && Stored(store, UserKey) && Parse(store[UserKey]).None?
    ensures Stored(store, TokenKey) && Stored(store, UserKey) && Parse(store[UserKey]).Some? ==>
      r == Restored(Parse(store[UserKey]), store)
  {
    if Stored(store, TokenKey) && Stored(store, UserKey) then
      match Parse(store[UserKey])
      case Some(u) => Restored(Some(u), store)
      case None => Restored(user, SignedOut(store))
    else Restored(user, store)
  }

  /** Corrupt stored user data: both entries are removed, the user is left as it was. */
  lemma RestoreCorrupt(store: map<string, string>, user: Option<User>)
    requires Stored(store, TokenKey) && Stored(store, UserKey)
    requires Parse(store[UserKey]) == None
    ensures RestoreFrom(store, user).user == user
    ensures TokenKey !in RestoreFrom(store, user).store && UserKey !in RestoreFrom(store, user).store
    ensures forall k :: k in store && k != TokenKey && k != UserKey ==>
      k in RestoreFrom(store, user).store && RestoreFrom(store, user).store[k] == store[k]
  {
  }

  /** With only one of the two entries stored (or either empty), restoring changes nothing. */
  lemma RestorePartial(store: map<string, string>, user: Option<User>)
    requires !Stored(store, TokenKey) || !Stored(store, UserKey)
    ensures RestoreFrom(store, user) == Restored(user, store)
  {
  }

  /** Round trip: restoring from what a sign-in wrote gives back exactly the signed-in user. */
  lemma RestoreAfterSignIn(store: map<string, string>, u: User, user: Option<User>)
    ensures RestoreFrom(SignedIn(store, u), user) == Restored(Some(u), SignedIn(store, u))
  {
    ParseSerialize(u);
  }

  /** After a logout nothing is restored. */
  lemma RestoreAfterSignOut(store: map<string, string>)
    ensures RestoreFrom(SignedOut(store), None) == Restored(None, SignedOut(store))
  {
  }

  /** Running the start-up effect a second time changes nothing more. */
  lemma RestoreIdempotent(store: map<string, string>, user: Option<User>)
    ensures RestoreFrom(RestoreFrom(store, user).store, RestoreFrom(store, user).user)
         == RestoreFrom(store, user)
  {
  }

  /** Logging out twice leaves the storage as logging out once. */
  lemma SignOutIdempotent(store: map<string, string>)
    ensures SignedOut(SignedOut(store)) == SignedOut(store)
    ensures TokenKey !in SignedOut(store) && UserKey !in SignedOut(store)
  {
  }

  /** The authentication provider's state. */
  class AuthProvider {
    var user: Option<User>
    var isLoading: bool
    /** The browser's local storage. */
    var store: map<string, string>

    /** The provider as first rendered: no user, loading, over the storage found. */
    constructor (stored: map<string, string>)
      ensures user == None && isLoading && store == stored
    {
      user := None;
      isLoading := true;
      store := stored;
    }

    /** The start-up effect; loading is over on every path. */
    method Restore()
      modifies this
      ensures Restored(user, store) == RestoreFrom(old(store), old(user))
      ensures !isLoading
    {
      if Stored(store, TokenKey) && Stored(store, UserKey) {
        var parsed := Parse(store[UserKey]);
        if parsed.Some? {
          user := parsed;
        } else {
          store := store - {TokenKey};
          store := store - {UserKey};
        }
      }
      isLoading := false;
    }

    /** `login`: the mock user for the email is signed in and written to storage. */
    method Login(email: string, password: string)
      modifies this
      ensures user == Some(LoginUser(email))
      ensures store == SignedIn(old(store), LoginUser(email))
      ensures !isLoading
    {
      isLoading := true;
      var mockUser := LoginUser(email);
      user := Some(mockUser);
      store := store[TokenKey := MockToken];
      store := store[UserKey := Serialize(mockUser)];
      isLoading := false;
    }

    /** `signup`: the given name, email and role are kept verbatim; `id` is the clock reading. */
    method Signup(id: string, name: string, email: string, password: string, role: string)
      modifies this
      ensures user == Some(User(id, name, email, role))
      ensures store == SignedIn(old(store), User(id, name, email, role))
      ensures !isLoading
    {
      isLoading := true;
      var newUser := User(id, name, email, role);
      user := Some(newUser);
      store := store[TokenKey := MockToken];
      store := store[UserKey := Serialize(newUser)];
      isLoading := false;
    }

    /** `logout`: no user, and neither session entry in storage. */
    method Logout()
      modifies this
      ensures user == None
      ensures store == SignedOut(old(store))
      ensures isLoading == old(isLoading)
    {
      user := None;
      store := store - {TokenKey};
      store := store - {UserKey};
    }
  }

  /** A page reload after `login` restores the very user `login` signed in. */
  method ReloadAfterLogin(stored: map<string, string>, email: string, password: string)
    returns (before: Option<User>, after: Option<User>)
    ensures before == Some(LoginUser(email))
    ensures after == before
  {
    var session := new AuthProvider(stored);
    session.Restore();
    session.Login(email, password);
    before := session.user;
    var reloaded := new AuthProvider(session.store);
    RestoreAfterSignIn(RestoreFrom(stored, None).store, LoginUser(email), None);
    reloaded.Restore();
    after := reloaded.user;
  }

  /** A page reload after `signup` restores the user as signed up. */
  method ReloadAfterSignup(stored: map<string, string>, id: string, name: string, email: string,
                           password: string, role: string)
    returns (before: Option<User>, after: Option<User>)
    ensures before == Some(User(id, name, email, role))
    ensures after == before
  {
    var session := new AuthProvider(stored);
    session.Restore();
    session.Signup(id, name, email, password, role);
    before := session.user;
    var reloaded := new AuthProvider(session.store);
    RestoreAfterSignIn(RestoreFrom(stored, None).store, User(id, name, email, role), None);
    reloaded.Restore();
    after := reloaded.user;
  }

  /** Logging out twice ends in the same state as logging out once. */
  method LogoutTwice(stored: map<string, string>, email: string, password: string)
    returns (once: Restored, twice: Restored)
    ensures once == twice
    ensures once.user == None && TokenKey !in once.store && UserKey !in once.store
  {
    var session := new AuthProvider(stored);
    session.Restore();
    session.Login(email, password);
    session.Logout();
    once := Restored(session.user, session.store);
    session.Logout();
    twice := Restored(session.user, session.store);
    SignOutIdempotent(SignedIn(RestoreFrom(stored, None).store, LoginUser(email)));
  }
}
