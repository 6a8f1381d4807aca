/**
 * The `Set-Cookie` instruction a route attaches to its response, and what a
 * browser's cookie store does with it (section 5.3 of RFC 6265): a cookie
 * whose Max-Age is zero or less expires at once and is evicted; any other
 * cookie replaces the one of the same name.
 */
module Cookies {

  import opened Options

  datatype Cookie = Cookie(name: string, value: string, httpOnly: bool, path: string, maxAge: Option<int>)

  /** The browser's cookies for this site, by name. */
  type Jar = map<string, string>

  function Store(jar: Jar, c: Cookie): (r: Jar)
    ensures c.maxAge.Some? && c.maxAge.value <= 0 ==> c.name !in r
    ensures (c.maxAge.None? || c.maxAge.value > 0) ==> c.name in r && r[c.name] == c.value
    ensures forall n :: n != c.name ==> (n in r <==> n in jar) && (n in r ==> r[n] == jar[n])
  {
    if c.maxAge.Some? && c.maxAge.value <= 0 then jar - {c.name} else jar[c.name := c.value]
  }
}
