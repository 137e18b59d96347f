/**
 * Signed cookies, abstracted. A value the server signed for cookie `name` is Signed(name, payload);
 * anything else a client sends (garbage, a value with a flipped byte, a value signed for another
 * cookie name) is Forged. Decoding succeeds only on a value signed for the name it is read under.
 */
module Cookies {
  import opened Wrappers
  import opened Support
  import opened Schema

  datatype CookieValue = Signed(name: string, payload: Id) | Forged(raw: string)

  /** A cookie jar: cookie name to value. */
  type Jar = map<string, CookieValue>

  /** A Set-Cookie entry of the response: the value and the attributes the server asked for. */
  datatype Cookie = Cookie(value: CookieValue, httpOnly: bool, secure: bool, permanent: bool)

  /** The deployment: `Session::COOKIE_KEY`, `Rails.env.development?` and `ENV["RELAX_SSL"]`. */
  datatype Config = Config(cookieKey: string, development: bool, relaxSsl: Option<string>)

  /** The cookie name AuthenticatedConstraint reads: the literal `:session_token`. */
  const GATE_KEY: string := "session_token"

  /** `cookies.signed[name] = id`: the value the signer produces. */
  function Sign(name: string, id: Id): CookieValue
  {
    Signed(name, id)
  }

  /** `cookies.signed[name]`: the id, or nil when the cookie is absent or does not verify. */
  function Decode(jar: Jar, name: string): Option<Id>
  {
    if name in jar && jar[name].Signed? && jar[name].name == name then Some(jar[name].payload) else None
  }

  /** The `secure:` attribute sign_in gives the cookie: on outside development unless RELAX_SSL is set
      to something non-blank. */
  function SecureFlag(cfg: Config): bool
  {
    !cfg.development && BlankValue(cfg.relaxSsl)
  }

  /** The jar a browser sends on its next request: what it sent before, overwritten by what the
      response set. */
  function Returned(sent: Jar, written: map<string, Cookie>): Jar
  {
    map k | k in sent.Keys + written.Keys :: if k in written then written[k].value else sent[k]
  }

  /** Round trip: a value signed for a name decodes, under that name, to what was signed. */
  lemma DecodeSign(jar: Jar, name: string, id: Id)
    ensures Decode(jar[name := Sign(name, id)], name) == Some(id)
  {
  }

  /** What the next request decodes: a cookie the response signed for `name` decodes to the signed id,
      and a name the response did not set decodes to what the browser sent before. */
  lemma ReturnedDecodes(sent: Jar, written: map<string, Cookie>, name: string, id: Id,
                        httpOnly: bool, secure: bool, permanent: bool)
    ensures Decode(Returned(sent, written[name := Cookie(Sign(name, id), httpOnly, secure, permanent)]), name) == Some(id)
    ensures name !in written ==> Decode(Returned(sent, written), name) == Decode(sent, name)
  {
  }

  /** Fails closed: an absent cookie, a tampered one, and one signed for another name decode to nil. */
  lemma DecodeFailsClosed(jar: Jar, name: string)
    ensures name !in jar ==> Decode(jar, name) == None
    ensures name in jar && jar[name].Forged? ==> Decode(jar, name) == None
    ensures forall other, id :: other != name ==> Decode(jar[name := Sign(other, id)], name) == None
  {
  }
}
