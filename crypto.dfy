/**
 * The password hashing (bcrypt) and session token (JWT) libraries, which the
 * routes only call. They are left uninterpreted: a `Crypto` value carries the
 * library functions, and the routes are proved for every such value.
 */
module Crypto {

  import opened Options
  import opened Cookies

  /** The claims signed into a session token: the user's id and email. */
  datatype Claims = Claims(id: string, email: string)

  /** What a verified session token yields: the claims it was signed over. */
  type Identity = Claims

  datatype Crypto = Crypto(
    hash: string -> string,             // bcrypt.hash(password, 10)
    matches: (string, string) -> bool,  // bcrypt.compare(password, hashed)
    sign: Claims -> string,             // jwt.sign(claims, secret, { expiresIn: '7d' })
    verify: string -> Option<Claims>)   // jwt.verify(token, secret), None where it throws

  /**
   * The promises taken from the libraries: a password matches its own hash,
   * and a token signed here is never empty (a JWT has three dot-separated
   * parts) and verifies to the claims it was signed over (within its
   * validity window, which is not modelled).
   */
  ghost predicate Sound(c: Crypto) {
    && (forall password :: c.matches(password, c.hash(password)))
    && (forall claims :: c.sign(claims) != "" && c.verify(c.sign(claims)) == Some(claims))
  }

  /** `verifyJWT(req)`: no `token` cookie, or an empty one, is no identity; otherwise the verified claims. */
  function VerifyJWT(c: Crypto, jar: Jar): (r: Option<Identity>)
    ensures ("token" !in jar || jar["token"] == "") ==> r == None
    ensures "token" in jar && jar["token"] != "" ==> r == c.verify(jar["token"])
  {
    if "token" !in jar || jar["token"] == "" then None else c.verify(jar["token"])
  }
}
