/**
 * The authentication layer: the local-strategy verify callback, the login,
 * register and current-user routes, and how a session's user id is turned
 * back into a user.
 */
module Auth {
  import opened Wrappers
  import opened Schema
  import opened Http
  import opened Credentials
  import opened Storage

  const InvalidCredentials := "Invalid username or password"
  /** passport-local's answer when the username or the password is empty or missing. */
  const MissingCredentials := "Missing credentials"
  const UsernameTaken := "Username already exists"
  /** What Express's default error handler answers for `next(err)`. */
  const InternalError := "Internal Server Error"

  /** What the verify callback hands to `done`: a user, `false` with a message, or an error. */
  datatype Verdict = Authenticated(user: User) | Rejected(message: string) | Errored(error: CryptoError)

  /**
   * The `LocalStrategy` verify callback, given what `getUserByUsername`
   * returned: a stored password with a '.' is checked by `comparePasswords`,
   * one without by plain equality (the legacy, unhashed form).
   */
  function VerifyLocal(kdf: Kdf, found: Option<User>, password: string): (r: Verdict)
    ensures r.Rejected? ==> r.message == InvalidCredentials
    ensures found.None? ==> r == Rejected(InvalidCredentials)
    ensures r.Authenticated? ==> found == Some(r.user)
    ensures r.Errored? ==> found.Some? && '.' in found.value.password
  {
    match found
    case None => Rejected(InvalidCredentials)
    case Some(user) =>
      if '.' in user.password then
        match ComparePasswords(kdf, password, user.password)
        case Failure(e) => Errored(e)
        case Success(isMatch) => if isMatch then Authenticated(user) else Rejected(InvalidCredentials)
      else if user.password != password then Rejected(InvalidCredentials)
      else Authenticated(user)
  }

  /** A stored password with a '.' is accepted only through the hash comparison. */
  lemma HashedPasswordPath(kdf: Kdf, user: User, password: string)
    requires '.' in user.password
    ensures VerifyLocal(kdf, Some(user), password).Authenticated?
        <==> ComparePasswords(kdf, password, user.password) == Success(true)
    ensures VerifyLocal(kdf, Some(user), password).Rejected?
        <==> ComparePasswords(kdf, password, user.password) == Success(false)
  {
  }

  /** A stored password without a '.' is accepted exactly when it equals the supplied one. */
  lemma LegacyPasswordPath(kdf: Kdf, user: User, password: string)
    requires '.' !in user.password
    ensures VerifyLocal(kdf, Some(user), password).Authenticated? <==> user.password == password
    ensures !VerifyLocal(kdf, Some(user), password).Errored?
  {
  }

  /**
   * A stored password with a '.' whose part before it is too short to be a
   * 64-byte key in hex (a legacy plain password such as "pass.word") is
   * taken for a hash: `timingSafeEqual` throws on the length mismatch, so
   * every login of that user errors, whatever password is supplied.
   */
  lemma DottedPlainPasswordErrors(kdf: Kdf, user: User, supplied: string)
    requires HonoursKeyLength(kdf) && '.' in user.password
    requires |Split(user.password, '.')[0]| < 2 * KeyLength
    ensures VerifyLocal(kdf, Some(user), supplied) == Errored(BufferLengthMismatch)
    ensures LoginResponse(VerifyLocal(kdf, Some(user), supplied)).status == 500
  {
    var parts := Split(user.password, '.');
    assert |HexDecode(parts[0])| < KeyLength;
    assert |kdf(supplied, parts[1], KeyLength)| == KeyLength;
  }

  /**
   * A user whose stored password is `hashPassword(p)` logs in with exactly the
   * passwords that derive the same key, `p` among them, and never causes an error.
   */
  lemma RegisteredUserLogin(kdf: Kdf, user: User, p: string, supplied: string, salt: seq<byte>)
    requires HonoursKeyLength(kdf) && |salt| == SaltBytes
    requires user.password == HashPassword(kdf, p, salt)
    ensures VerifyLocal(kdf, Some(user), supplied).Authenticated?
        <==> kdf(supplied, Hex(salt), KeyLength) == kdf(p, Hex(salt), KeyLength)
    ensures !VerifyLocal(kdf, Some(user), supplied).Errored?
    ensures VerifyLocal(kdf, Some(user), p) == Authenticated(user)
  {
    HashedCheck(kdf, p, supplied, salt);
    HashRoundTrip(kdf, p, salt);
  }

  /** The `/api/login` callback: an error goes to `next`, a rejection is 401, a user is 200. */
  function LoginResponse(v: Verdict): (r: Response)
    ensures r.status == 200 <==> v.Authenticated?
    ensures v.Authenticated? ==> r.body == UserJson(v.user)
    ensures v.Rejected? && v.message != "" ==> r == Response(401, Message(v.message))
    ensures v.Errored? ==> r.status == 500
  {
    match v
    case Errored(_) => Response(500, Message(InternalError))
    case Rejected(m) => Response(401, Message(if m == "" then "Authentication failed" else m))
    case Authenticated(u) => Response(200, UserJson(u))
  }

  /**
   * An unknown username and a known one with a wrong password get the same
   * response, so a login attempt does not reveal which usernames exist.
   */
  lemma LoginIndistinguishable(kdf: Kdf, user: User, wrong: string, anyPassword: string)
    requires VerifyLocal(kdf, Some(user), wrong).Rejected?
    ensures LoginResponse(VerifyLocal(kdf, Some(user), wrong)) == LoginResponse(VerifyLocal(kdf, None, anyPassword))
    ensures LoginResponse(VerifyLocal(kdf, None, anyPassword)) == Response(401, Message(InvalidCredentials))
  {
  }

  /**
   * `POST /api/login` against the store. The local strategy refuses an
   * empty or missing username or password before the verify callback runs;
   * a missing field is modelled as the empty string.
   */
  method Login(store: MemStorage, kdf: Kdf, username: string, password: string) returns (resp: Response)
    requires store.Valid()
    ensures username == "" || password == "" ==> resp == Response(401, Message(MissingCredentials))
    ensures username != "" && password != ""
        ==> resp == LoginResponse(VerifyLocal(kdf, store.GetUserByUsername(username), password))
    ensures username != "" && password != "" && (forall k | k in store.users :: store.users[k].username != username)
        ==> resp == Response(401, Message(InvalidCredentials))
  {
    if username == "" || password == "" {
      return LoginResponse(Rejected(MissingCredentials));
    }
    var found := store.GetUserByUsername(username);
    resp := LoginResponse(VerifyLocal(kdf, found, password));
  }

  /**
   * On a freshly built store, the seeded admin logs in with "adminpassword"
   * (the legacy plain form), while a wrong password and an unknown user get
   * the same 401.
   */
  method SeededAdminLogin(kdf: Kdf, t1: Timestamp, t2: Timestamp, t3: Timestamp)
    returns (ok: Response, wrong: Response, unknown: Response)
    ensures ok == Response(200, UserJson(User(1, "admin", "adminpassword", true)))
    ensures wrong == unknown == Response(401, Message(InvalidCredentials))
  {
    var store := new MemStorage(t1, t2, t3);
    ok, wrong, unknown := LoginsAgainstAdminOnly(store, kdf);
  }

  /** The three logins above, against any store whose one user is the seeded admin. */
  method LoginsAgainstAdminOnly(store: MemStorage, kdf: Kdf) returns (ok: Response, wrong: Response, unknown: Response)
    requires store.Valid() && store.users == map[1 := User(1, "admin", "adminpassword", true)]
    ensures ok == Response(200, UserJson(User(1, "admin", "adminpassword", true)))
    ensures wrong == unknown == Response(401, Message(InvalidCredentials))
  {
    var admin := User(1, "admin", "adminpassword", true);
    assert store.users[1] == admin;
    var found := store.GetUserByUsername("admin");
    assert found == Some(admin);
    assert '.' !in admin.password;
    ok := LoginResponse(VerifyLocal(kdf, found, "adminpassword"));
    wrong := LoginResponse(VerifyLocal(kdf, found, "wrongpass"));
    unknown := Login(store, kdf, "nosuchuser", "anything");
  }

  /**
   * The `unique()` constraint of the username column. The memory store's
   * `createUser` does not enforce it; the register route does.
   */
  predicate UsernamesUnique(users: map<int, User>) {
    forall a, b | a in users && b in users && users[a].username == users[b].username :: a == b
  }

  /** While usernames are unique, looking a stored user's name up finds that very user. */
  lemma UniqueNameFindsItsUser(store: MemStorage, user: User)
    requires store.Valid() && UsernamesUnique(store.users)
    requires user.id in store.users && store.users[user.id] == user
    ensures store.GetUserByUsername(user.username) == Some(user)
  {
    var found := store.GetUserByUsername(user.username);
    assert found.Some?;
    assert found.value.id == user.id;
  }

  /**
   * `POST /api/register`: a taken username gives 400 and stores nothing;
   * otherwise the body is stored with its password replaced by the hash
   * (its `isAdmin`, when given, is kept) and the new user is answered with 201.
   */
  method Register(store: MemStorage, kdf: Kdf, body: InsertUser, salt: seq<byte>) returns (resp: Response)
    requires store.Valid() && |salt| == SaltBytes
    modifies store`users, store`userOrder, store`userId
    ensures store.Valid()
    ensures old(store.GetUserByUsername(body.username)).Some? ==>
      && resp == Response(400, Message(UsernameTaken))
      && store.users == old(store.users) && store.userOrder == old(store.userOrder) && store.userId == old(store.userId)
    ensures old(store.GetUserByUsername(body.username)).None? ==>
      && resp.status == 201 && resp.body.UserJson?
      && resp.body.user == User(old(store.userId), body.username, HashPassword(kdf, body.password, salt), body.isAdmin == Given(true))
      && store.users == old(store.users)[old(store.userId) := resp.body.user]
      && store.userOrder == old(store.userOrder) + [old(store.userId)]
      && store.GetUserByUsername(body.username) == Some(resp.body.user)
    ensures UsernamesUnique(old(store.users)) ==> UsernamesUnique(store.users)
  {
    var existing := store.GetUserByUsername(body.username);
    if existing.Some? {
      return Response(400, Message(UsernameTaken));
    }
    var hashed := HashPassword(kdf, body.password, salt);
    var user := store.CreateUser(body.(password := hashed));
    assert store.users[user.id].username == body.username;
    var again := store.GetUserByUsername(body.username);
    assert again.value.id == user.id;
    resp := Response(201, UserJson(user));
  }

  /**
   * `deserializeUser`: the session keeps a user id (`serializeUser`), and the
   * request is authenticated only while `getUser` still finds that id.
   */
  function SessionUser(store: MemStorage, sessionUserId: Option<int>): (r: Option<User>)
    reads store
    requires store.Valid()
    ensures sessionUserId.None? ==> r.None?
    ensures sessionUserId.Some? ==> (r.Some? <==> sessionUserId.value in store.users)
    ensures r.Some? ==> r.value.id == sessionUserId.value && r.value in store.Users()
  {
    match sessionUserId
    case None => None
    case Some(id) => store.GetUser(id)
  }

  /** Serialising a stored user and deserialising the id gives the same user back. */
  lemma SessionRoundTrip(store: MemStorage, user: User)
    requires store.Valid() && user.id in store.users && store.users[user.id] == user
    ensures SessionUser(store, Some(user.id)) == Some(user)
  {
  }

  /** `GET /api/user`: 401 without an authenticated user, else the user itself. */
  function CurrentUserResponse(requester: Option<User>): (r: Response)
    ensures r.status == 401 <==> requester.None?
    ensures requester.Some? ==> r == Response(200, UserJson(requester.value))
  {
    match requester
    case None => Response(401, Message("Unauthorized"))
    case Some(u) => Response(200, UserJson(u))
  }
}
