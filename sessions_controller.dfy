/**
 * app/controllers/sessions_controller.rb: the sign-in page, signing in, and signing a session out.
 * `new` and `create` skip `ensure_user_authenticated!` and run `user_authenticated?` instead, whose
 * answer is not used; `destroy` keeps the guard.
 */
module SessionsController {
  import opened Wrappers
  import opened Schema
  import opened Cookies
  import opened Sessions
  import opened Auth
  import opened Http
  import opened Database
  import opened Current
  import opened ApplicationController
  import UserModel

  /** GET /sessions/new and GET /sign_in: the sign-in form. */
  method New(db: Db, ctx: Context, cfg: Config) returns (resp: Response)
    modifies ctx
    ensures resp == Render(SessionsNew, OK)
    ensures ctx.session == Authenticated(db.tables, old(ctx.session), old(ctx.jar), cfg.cookieKey)
    ensures ctx.jar == old(ctx.jar) && ctx.setCookies == old(ctx.setCookies)
  {
    var _ := UserAuthenticated(db, ctx, cfg);
    resp := Render(SessionsNew, OK);
  }

  /** POST /sessions. Without the form, 400 (or 500 when `session` is a string). With the right
      screen name and password, the user is signed in and sent to their page with 303; otherwise
      back to the sign-in page with the screen name as a hint, and nothing is written. */
  method Create(db: Db, ctx: Context, cfg: Config, now: Time) returns (resp: Response)
    requires db.Valid()
    modifies db, ctx
    ensures db.Valid()
    ensures var p := SessionParams(ctx.request.params);
      && (p.Err? ==> resp == ParamFailure(p.error) && db.tables == old(db.tables)
                      && ctx.setCookies == old(ctx.setCookies))
      && (p.Ok? && resp.Redirect? && resp.location.UserPage? ==>
            var u := resp.location.user; var s := NextSessionId(old(db.tables));
            && resp.status == SEE_OTHER
            && UserModel.Authenticates(old(db.tables), u, p.value.screenName, p.value.password)
            && db.tables == SignedIn(old(db.tables), u, ctx.request.userAgent, Some(ctx.request.ip), now)
            && ctx.session == Some(CurrentSession(s, Session(u, ctx.request.userAgent, Some(ctx.request.ip))))
            && ctx.setCookies == old(ctx.setCookies)[cfg.cookieKey := SignInCookie(cfg, s)])
      && (p.Ok? && (forall u :: !UserModel.Authenticates(old(db.tables), u, p.value.screenName, p.value.password)) ==>
            resp == Redirect(SignInPage(p.value.screenName), FOUND) && db.tables == old(db.tables)
            && ctx.setCookies == old(ctx.setCookies))
      && (p.Ok? && (exists u :: UserModel.Authenticates(old(db.tables), u, p.value.screenName, p.value.password)) ==>
            resp.Redirect? && resp.location.UserPage?)
  {
    var _ := UserAuthenticated(db, ctx, cfg);
    var p := SessionParams(ctx.request.params);
    if p.Err? {
      return ParamFailure(p.error);
    }
    var user := db.AuthenticateBy(p.value.screenName, p.value.password);
    if user.Some? {
      var _ := SignIn(db, ctx, cfg, user.value, now);
      resp := Redirect(UserPage(user.value), SEE_OTHER);
    } else {
      resp := Redirect(SignInPage(p.value.screenName), FOUND);
    }
  }

  /** DELETE /sessions/:id. After the guard, the session is looked up among the current user's own
      sessions only (`Current.user.sessions.find`): one of anybody else's is a 404, as is an id that
      does not exist. Found, it is destroyed and the user sent to their page with 303. The cookie is
      left as it is; it no longer resolves. */
  method Destroy(db: Db, ctx: Context, cfg: Config, id: string) returns (resp: Response)
    requires db.Valid()
    modifies db, ctx
    ensures db.Valid()
    ensures ctx.session == Authenticated(old(db.tables), old(ctx.session), old(ctx.jar), cfg.cookieKey)
    ensures ctx.session.None? ==> resp == Redirect(Root, FOUND) && db.tables == old(db.tables)
    ensures ctx.session.Some? ==>
      var owner := ctx.session.value.session.userId; var s := ToId(id);
      if s in old(db.tables).sessions && old(db.tables).sessions[s].userId == owner
      then resp == Redirect(UserPage(owner), SEE_OTHER) && db.tables == Delete(old(db.tables), s)
      else resp == Failure(NOT_FOUND) && db.tables == old(db.tables)
    ensures ctx.jar == old(ctx.jar) && ctx.setCookies == old(ctx.setCookies)
  {
    var halt := EnsureUserAuthenticated(db, ctx, cfg);
    if halt.Some? {
      return halt.value;
    }
    var owner := ctx.session.value.session.userId;
    var found := db.FindSessionOf(owner, ToId(id));
    if found.None? {
      return Failure(NOT_FOUND);
    }
    db.DestroySession(found.value.id);
    resp := Redirect(UserPage(owner), SEE_OTHER);
  }
}
