/**
 * The per-request state: `Current.session` (ActiveSupport::CurrentAttributes, reset for every
 * request), the cookie jar the controller reads and writes, and the Set-Cookie entries of the
 * response. A fresh Context is made for each request, so nothing leaks from one to the next.
 */
module Current {
  import opened Wrappers
  import opened Cookies
  import opened Sessions
  import opened Http

  class Context {
    /** The request being handled. */
    const request: Request
    /** `Current.session`. */
    var session: Option<CurrentSession>
    /** `cookies`: what the browser sent, with what this response has set so far. */
    var jar: Jar
    /** The Set-Cookie entries of the response. */
    var setCookies: map<string, Cookie>

    /** The start of a request: no current session, the jar as the browser sent it, nothing set. */
    constructor (request: Request)
      ensures this.request == request
      ensures session == None && jar == request.cookies && setCookies == map[]
    {
      this.request := request;
      session := None;
      jar := request.cookies;
      setCookies := map[];
    }
  }
}
