/**
 * What application_controller.rb and the route constraint decide, as functions of the database:
 * which session a request is authenticated as, and what signing in writes. The methods of
 * ApplicationController and AuthenticatedConstraint are proved against these.
 */
module Auth {
  import opened Wrappers
  import opened Schema
  import opened Cookies
  import opened Sessions
  import opened Integrity
  import UserModel

  /** `user_authenticated?`: `Current.session` when it is already set, otherwise the session the
      signed cookie `name` names, if that row exists. */
  function Authenticated(t: Tables, current: Option<CurrentSession>, jar: Jar, name: string): Option<CurrentSession>
  {
    if current.Some? then current else Resolve(t, jar, name)
  }

  /** `Current.session` holds a row of the database as it was loaded. */
  predicate Live(t: Tables, current: Option<CurrentSession>)
  {
    current.Some? ==> current.value.id in t.sessions && t.sessions[current.value.id] == current.value.session
  }

  /** The page `Current.user` is about: the owner of `Current.session`. */
  function CurrentUser(current: Option<CurrentSession>): Option<Id>
  {
    if current.Some? then Some(current.value.session.userId) else None
  }

  /** The database after `sign_in(user: u)`: the new session, then `last_seen_at` set to now. */
  function SignedIn(t: Tables, u: Id, userAgent: Option<string>, ip: Option<string>, now: Time): Tables
    requires u in t.users
  {
    var t1 := Insert(t, u, userAgent, ip);
    t1.(users := t1.users[u := t1.users[u].(lastSeenAt := Some(now))])
  }

  /** The cookie `sign_in` sets: signed, HttpOnly, permanent, and Secure as the deployment says. */
  function SignInCookie(cfg: Config, s: Id): Cookie
  {
    Cookie(Sign(cfg.cookieKey, s), true, SecureFlag(cfg), true)
  }

  /** A request is authenticated exactly when Current.session is already set or its cookie names a
      session that exists; a session already set is kept, and a looked-up one is Live. */
  lemma AuthenticatedIff(t: Tables, current: Option<CurrentSession>, jar: Jar, name: string)
    ensures Authenticated(t, current, jar, name).Some? <==>
      current.Some? || exists s :: Decode(jar, name) == Some(s) && s in t.sessions
    ensures current.Some? ==> Authenticated(t, current, jar, name) == current
    ensures current.None? ==> Live(t, Authenticated(t, current, jar, name))
    ensures Live(t, current) ==> Live(t, Authenticated(t, current, jar, name))
  {
    ResolveIff(t, jar, name);
  }

  /** Fails closed: without Current.session, a missing cookie, a forged one and one signed under
      another name authenticate nobody. */
  lemma AuthenticatedFailsClosed(t: Tables, jar: Jar, name: string)
    ensures name !in jar ==> Authenticated(t, None, jar, name) == None
    ensures name in jar && jar[name].Forged? ==> Authenticated(t, None, jar, name) == None
    ensures name in jar && jar[name].Signed? && jar[name].name != name ==> Authenticated(t, None, jar, name) == None
  {
  }

  /** sign_in is `sessions.create!` followed by `update!(last_seen_at:)`, and on a consistent
      database the second never fails; the result is consistent. */
  lemma SignInIsCreateThenTouch(t: Tables, u: Id, userAgent: Option<string>, ip: Option<string>, now: Time)
    requires Consistent(t) && u in t.users
    ensures UserModel.Touch(Insert(t, u, userAgent, ip), u, now) == Ok(SignedIn(t, u, userAgent, ip, now))
    ensures Consistent(SignedIn(t, u, userAgent, ip, now))
  {
    var t1 := Insert(t, u, userAgent, ip);
    SessionInsertKeeps(t, u, userAgent, ip);
    UserModel.TouchSucceeds(t1, u, now);
    UserTouchKeeps(t1, u, now);
  }

  /** sign_in adds exactly one session, with a fresh id, owned by `u`; it changes `u`'s last_seen_at
      and nothing else of the users, posts or comments. */
  lemma SignInAddsOneSession(t: Tables, u: Id, userAgent: Option<string>, ip: Option<string>, now: Time)
    requires Consistent(t) && u in t.users
    ensures var t' := SignedIn(t, u, userAgent, ip, now); var s := NextSessionId(t);
      && s !in t.sessions
      && t'.sessions == t.sessions[s := Session(u, userAgent, ip)]
      && t'.users.Keys == t.users.Keys
      && t'.users[u] == t.users[u].(lastSeenAt := Some(now))
      && (forall v :: v in t.users && v != u ==> t'.users[v] == t.users[v])
      && t'.posts == t.posts && t'.comments == t.comments
  {
    InsertAddsOneSession(t, u, userAgent, ip);
  }

  /** The next request of a browser that received the sign-in cookie is authenticated, under the
      controller's key, as the new session. */
  lemma SignInCookieAuthenticates(t: Tables, u: Id, userAgent: Option<string>, ip: Option<string>, now: Time,
                                  cfg: Config, sent: Jar, written: map<string, Cookie>)
    requires Consistent(t) && u in t.users
    ensures var s := NextSessionId(t);
      var next := Returned(sent, written[cfg.cookieKey := SignInCookie(cfg, s)]);
      Authenticated(SignedIn(t, u, userAgent, ip, now), None, next, cfg.cookieKey)
        == Some(CurrentSession(s, Session(u, userAgent, ip)))
  {
    SignInAddsOneSession(t, u, userAgent, ip, now);
  }

  /** The key question: the cookie sign_in writes under `Session::COOKIE_KEY` lets the browser past
      the route constraint, which reads `:session_token`, exactly when the two names agree (for a
      browser holding no other `session_token` cookie). */
  lemma GateSeesSignInIff(t: Tables, u: Id, userAgent: Option<string>, ip: Option<string>, now: Time,
                          cfg: Config, sent: Jar)
    requires Consistent(t) && u in t.users && GATE_KEY !in sent
    ensures var s := NextSessionId(t);
      var next := Returned(sent, map[cfg.cookieKey := SignInCookie(cfg, s)]);
      Resolve(SignedIn(t, u, userAgent, ip, now), next, GATE_KEY).Some? <==> cfg.cookieKey == GATE_KEY
  {
    SignInAddsOneSession(t, u, userAgent, ip, now);
  }

  /** Signing out is final: once the session is destroyed, the cookie that named it authenticates
      nobody, now and after any later sign-in or sign-out. */
  lemma SignedOutStaysOut(t: Tables, s: Id, jar: Jar, name: string)
    requires Wf(t) && s in t.sessions && Decode(jar, name) == Some(s)
    ensures Authenticated(Delete(t, s), None, jar, name) == None
    ensures forall t' :: Revoked(t', s) ==> Authenticated(t', None, jar, name) == None
  {
    RevokedStaysRevoked(t, s, jar, name);
  }
}
