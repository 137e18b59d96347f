/**
 * app/controllers/application_controller.rb: signing in, and the two checks every controller
 * inherits. `ensure_user_authenticated!` runs before every action that does not skip it.
 */
module ApplicationController {
  import opened Wrappers
  import opened Schema
  import opened Cookies
  import opened Sessions
  import opened Auth
  import opened Http
  import opened Database
  import opened Current

  /** `sign_in(user:)`: a new session for the request's user agent and IP, `last_seen_at` set, the
      session made current and its id written to the signed, permanent, HttpOnly cookie. */
  method SignIn(db: Db, ctx: Context, cfg: Config, u: Id, now: Time) returns (ok: bool)
    requires db.Valid() && u in db.tables.users
    modifies db, ctx
    ensures db.Valid() && ok
    ensures db.tables == SignedIn(old(db.tables), u, ctx.request.userAgent, Some(ctx.request.ip), now)
    ensures ctx.session == Some(CurrentSession(NextSessionId(old(db.tables)),
      Session(u, ctx.request.userAgent, Some(ctx.request.ip))))
    ensures ctx.jar == old(ctx.jar)[cfg.cookieKey := Sign(cfg.cookieKey, NextSessionId(old(db.tables)))]
    ensures ctx.setCookies == old(ctx.setCookies)[cfg.cookieKey := SignInCookie(cfg, NextSessionId(old(db.tables)))]
  {
    var row := Session(u, ctx.request.userAgent, Some(ctx.request.ip));
    var s := db.CreateSession(u, row.userAgent, row.ipAddress);
    db.TouchLastSeen(u, now);
    ctx.session := Some(CurrentSession(s, row));
    ctx.jar := ctx.jar[cfg.cookieKey := Sign(cfg.cookieKey, s)];
    ctx.setCookies := ctx.setCookies[cfg.cookieKey := SignInCookie(cfg, s)];
    ok := true;
  }

  /** `user_authenticated?`: true when Current.session is set or the cookie names an existing
      session, which then becomes current. */
  method UserAuthenticated(db: Db, ctx: Context, cfg: Config) returns (r: bool)
    modifies ctx
    ensures ctx.session == Authenticated(db.tables, old(ctx.session), ctx.jar, cfg.cookieKey)
    ensures r <==> ctx.session.Some?
    ensures ctx.jar == old(ctx.jar) && ctx.setCookies == old(ctx.setCookies)
  {
    if ctx.session.Some? {
      return true;
    }
    var found := db.FindSession(Decode(ctx.jar, cfg.cookieKey));
    if found.Some? {
      ctx.session := found;
      return true;
    }
    return false;
  }

  /** `ensure_user_authenticated!`: the action goes ahead when the request is authenticated;
      otherwise the before_action redirects to the root page, which halts the chain. */
  method EnsureUserAuthenticated(db: Db, ctx: Context, cfg: Config) returns (halt: Option<Response>)
    modifies ctx
    ensures ctx.session == Authenticated(db.tables, old(ctx.session), ctx.jar, cfg.cookieKey)
    ensures halt.None? <==> ctx.session.Some?
    ensures halt.Some? ==> halt.value == Redirect(Root, FOUND)
    ensures ctx.jar == old(ctx.jar) && ctx.setCookies == old(ctx.setCookies)
  {
    var authenticated := UserAuthenticated(db, ctx, cfg);
    if authenticated {
      return None;
    }
    return Some(Redirect(Root, FOUND));
  }
}
