/**
 * The authentication route: `POST` registers or logs in a user over the user
 * collection, keyed by email, and `GET` logs out by clearing the session
 * cookie. Registering is the only operation that changes the collection.
 */
module AuthRoute {

  import opened Options
  import opened Cookies
  import opened Crypto

  /** A stored user; `password` holds the bcrypt hash, never the plaintext. */
  datatype User = User(id: string, email: string, password: string, agentCode: string, role: string)

  /** The JSON body of `POST`; `kind` is its `type` field. */
  datatype AuthRequest = AuthRequest(email: string, password: string, agentCode: string, role: string, kind: string)

  datatype Body = Success | SuccessMessage(message: string) | Failure(message: string)

  /** A JSON response, with the cookie it sets, if any. */
  datatype Reply = Reply(status: int, body: Body, cookie: Option<Cookie>)

  const EmailExists := "Email already exists"
  const InvalidCredentials := "Invalid credentials"
  const InvalidRequest := "Invalid request"

  /** The session cookie: an HTTP-only `token` holding a JWT over the user's id and email. */
  function SessionCookie(c: Crypto, u: User): (k: Cookie)
    ensures k.name == "token" && k.value == c.sign(Claims(u.id, u.email))
    ensures k.httpOnly && k.path == "/" && k.maxAge == None
  {
    Cookie("token", c.sign(Claims(u.id, u.email)), true, "/", None)
  }

  /** The reply of a successful register or login for user `u`. */
  function SessionReply(c: Crypto, u: User): (r: Reply)
    ensures r.status == 200 && r.body == Success && r.cookie == Some(SessionCookie(c, u))
  {
    Reply(200, Success, Some(SessionCookie(c, u)))
  }

  /** The collection is keyed by email and no two users share an id. */
  ghost predicate ValidUsers(users: map<string, User>) {
    && (forall e :: e in users ==> users[e].email == e)
    && (forall e1, e2 :: e1 in users && e2 in users && users[e1].id == users[e2].id ==> e1 == e2)
  }

  /** Some stored user has this id. */
  predicate HasId(users: map<string, User>, id: string) {
    exists e :: e in users && users[e].id == id
  }

  /** `User.findById(id)`, for an id that is known to exist. */
  function UserById(users: map<string, User>, id: string): (u: User)
    requires ValidUsers(users) && HasId(users, id)
    ensures u.id == id && u.email in users && users[u.email] == u
  {
    var e :| e in users && users[e].id == id;
    users[e]
  }

  /**
   * The `login` branch. An unknown email and a wrong password give the same
   * 401 reply; a match gives the session of the stored user.
   */
  function Login(users: map<string, User>, email: string, password: string, c: Crypto): (r: Reply)
    ensures r.status == 200 <==> email in users && c.matches(password, users[email].password)
    ensures r.status == 200 ==> r == SessionReply(c, users[email])
    ensures r.status != 200 ==> r == Reply(401, Failure(InvalidCredentials), None)
  {
    if email !in users then
      Reply(401, Failure(InvalidCredentials), None)
    else if !c.matches(password, users[email].password) then
      Reply(401, Failure(InvalidCredentials), None)
    else
      SessionReply(c, users[email])
  }

  /** `GET`: the `token` cookie is overwritten with an empty value that expires at once. */
  function Logout(): (r: Reply)
    ensures r.status == 200 && r.body == SuccessMessage("Logged out")
    ensures r.cookie.Some? && r.cookie.value.name == "token" && r.cookie.value.value == ""
    ensures r.cookie.value.maxAge == Some(0)
  {
    Reply(200, SuccessMessage("Logged out"), Some(Cookie("token", "", true, "/", Some(0))))
  }

  /** The user collection. */
  class UserStore {

    var users: map<string, User>

    ghost predicate Valid()
      reads this
    {
      ValidUsers(users)
    }

    constructor ()
      ensures Valid() && users == map[]
    {
      users := map[];
    }

    /**
     * The `register` branch, with `newId` the id the database assigns to the
     * new record. A taken email is refused and nothing changes; otherwise
     * exactly one user is added, with the hashed password.
     */
    method Register(req: AuthRequest, c: Crypto, newId: string) returns (r: Reply)
      requires Valid()
      requires !HasId(users, newId)
      modifies this
      ensures Valid()
      ensures req.email in old(users) ==>
        r == Reply(400, Failure(EmailExists), None) && users == old(users)
      ensures req.email !in old(users) ==>
        && users == old(users)[req.email := User(newId, req.email, c.hash(req.password), req.agentCode, req.role)]
        && r == SessionReply(c, users[req.email])
    {
      if req.email in users {
        return Reply(400, Failure(EmailExists), None);
      }
      var hashed := c.hash(req.password);
      var user := User(newId, req.email, hashed, req.agentCode, req.role);
      users := users[req.email := user];
      r := SessionReply(c, user);
    }

    /** `POST`: dispatch on the request's `type`. Only a successful register changes the collection. */
    method Post(req: AuthRequest, c: Crypto, newId: string) returns (r: Reply)
      requires Valid()
      requires !HasId(users, newId)
      modifies this
      ensures Valid()
      ensures req.kind == "register" && req.email !in old(users) ==>
        && users == old(users)[req.email := User(newId, req.email, c.hash(req.password), req.agentCode, req.role)]
        && r == SessionReply(c, users[req.email])
      ensures req.kind == "register" && req.email in old(users) ==>
        r == Reply(400, Failure(EmailExists), None) && users == old(users)
      ensures req.kind == "login" ==>
        r == Login(old(users), req.email, req.password, c) && users == old(users)
      ensures req.kind != "register" && req.kind != "login" ==>
        r == Reply(400, Failure(InvalidRequest), None) && users == old(users)
    {
      if req.kind == "register" {
        r := Register(req, c, newId);
      } else if req.kind == "login" {
        r := Login(users, req.email, req.password, c);
      } else {
        r := Reply(400, Failure(InvalidRequest), None);
      }
    }
  }

  /** The two failing logins cannot be told apart: same status, same message, no cookie. */
  lemma LoginFailuresIndistinguishable(
    users: map<string, User>, c: Crypto,
    unknown: string, anyPassword: string,
    known: string, wrongPassword: string)
    requires unknown !in users
    requires known in users && !c.matches(wrongPassword, users[known].password)
    ensures Login(users, unknown, anyPassword, c) == Login(users, known, wrongPassword, c)
    ensures Login(users, unknown, anyPassword, c) == Reply(401, Failure(InvalidCredentials), None)
  {
  }

  /** After a register under a fresh email, logging in with the same password opens a session for that user. */
  lemma RegisterThenLogin(users: map<string, User>, req: AuthRequest, c: Crypto, newId: string)
    requires Sound(c)
    requires req.email !in users
    ensures var after := users[req.email := User(newId, req.email, c.hash(req.password), req.agentCode, req.role)];
      Login(after, req.email, req.password, c) == SessionReply(c, after[req.email])
  {
  }

  /** The cookie of a successful login makes the next request authenticate as that user. */
  lemma LoginStartsSession(users: map<string, User>, email: string, password: string, c: Crypto, jar: Jar)
    requires Sound(c)
    requires ValidUsers(users)
    requires Login(users, email, password, c).status == 200
    ensures VerifyJWT(c, Store(jar, Login(users, email, password, c).cookie.value))
         == Some(Claims(users[email].id, email))
  {
    var token := c.sign(Claims(users[email].id, users[email].email));
    assert token != "" && c.verify(token) == Some(Claims(users[email].id, users[email].email));
  }

  /** After logout the browser holds no token, so the next request is unauthenticated. */
  lemma LogoutEndsSession(c: Crypto, jar: Jar)
    ensures VerifyJWT(c, Store(jar, Logout().cookie.value)) == None
  {
  }
}
