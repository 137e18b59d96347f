/**
 * One request from routing to response: a fresh Context, the route constraint asked when the
 * router reaches a route of the constraint block, the route recognised, the action run. The
 * actions of PostsController, rails/health and rails/pwa are not part of this model and are
 * answered as Delegated without touching the database.
 */
module RequestCycle {
  import opened Wrappers
  import opened Schema
  import opened Cookies
  import opened Sessions
  import opened Auth
  import opened Integrity
  import opened Routes
  import opened Http
  import opened Database
  import opened Current
  import AuthenticatedConstraint
  import SessionsController
  import UsersController
  import UserModel

  /** The controller action a recognised route names, with the `:id` it carried. */
  method Dispatch(db: Db, ctx: Context, cfg: Config, m: Match, now: Time) returns (resp: Response)
    requires db.Valid() && Live(db.tables, ctx.session)
    modifies db, ctx
    ensures db.Valid()
    ensures !GatedTarget(m.target) ==>
      old(db.tables).users.Keys <= db.tables.users.Keys && old(db.tables).sessions.Keys <= db.tables.sessions.Keys
    ensures || ctx.setCookies == old(ctx.setCookies)
            || (&& m.target == Target(SessionsC, Create) && resp.Redirect? && resp.location.UserPage?
                && ctx.setCookies == old(ctx.setCookies)[cfg.cookieKey := SignInCookie(cfg, NextSessionId(old(db.tables)))])
    ensures m.target.controller !in {SessionsC, UsersC} ==> resp == Delegated(m.target) && db.tables == old(db.tables)
    ensures old(ctx.session).Some? || !GatedTarget(m.target) ==> !(resp.Redirect? && resp.location.Root?)
  {
    ghost var t0 := db.tables;
    var id := if m.id.Some? then m.id.value else "";
    match m.target {
      case Target(SessionsC, New) =>
        resp := SessionsController.New(db, ctx, cfg);
      case Target(SessionsC, Create) =>
        resp := SessionsController.Create(db, ctx, cfg, now);
        if resp.Redirect? && resp.location.UserPage? {
          SignInAddsOneSession(t0, resp.location.user, ctx.request.userAgent, Some(ctx.request.ip), now);
        }
      case Target(SessionsC, Destroy) =>
        resp := SessionsController.Destroy(db, ctx, cfg, id);
      case Target(UsersC, Show) =>
        resp := UsersController.Show(db, ctx, cfg, id);
      case Target(UsersC, New) =>
        resp := UsersController.New(db, ctx, cfg);
      case Target(UsersC, Create) =>
        resp := UsersController.Create(db, ctx, cfg);
        var a := UserParams(ctx.request.params);
        if a.Ok? && UserModel.Create(t0, a.value).Ok? {
          UserModel.CreateAddsOneUser(t0, a.value);
        }
      case Target(UsersC, Edit) =>
        resp := UsersController.Edit(db, ctx, cfg);
      case Target(UsersC, Update) =>
        resp := UsersController.Update(db, ctx, cfg);
      case Target(UsersC, Destroy) =>
        resp := UsersController.Destroy(db, ctx, cfg);
      case _ =>
        // posts#*, rails/health#show, rails/pwa#*, and the actions the table never routes to
        resp := Delegated(m.target);
    }
  }

  /** A request. The constraint is asked only when the router reaches a route drawn inside the
      constraint block first; asking it at most once is enough, because its answer cannot change
      between two routes of one request and a "no" writes nothing. Returns the response and the
      Set-Cookie entries. The controllers' redirect to `root_path` is never the answer: an action
      behind `ensure_user_authenticated!` is reached only after the constraint set Current.session. */
  method Handle(db: Db, cfg: Config, req: Request, now: Time) returns (resp: Response, setCookies: map<string, Cookie>)
    requires db.Valid()
    modifies db
    ensures db.Valid()
    ensures var routed := Recognize(req.verb, req.path, Resolve(old(db.tables), req.cookies, GATE_KEY).Some?);
      && (routed.None? ==> resp == Failure(NOT_FOUND) && db.tables == old(db.tables) && setCookies == map[])
      && (routed.Some? && routed.value.target.controller !in {SessionsC, UsersC} ==>
            resp == Delegated(routed.value.target) && db.tables == old(db.tables) && setCookies == map[])
    ensures Resolve(old(db.tables), req.cookies, GATE_KEY).None? ==>
      old(db.tables).users.Keys <= db.tables.users.Keys && old(db.tables).sessions.Keys <= db.tables.sessions.Keys
    ensures || setCookies == map[]
            || (&& setCookies == map[cfg.cookieKey := SignInCookie(cfg, NextSessionId(old(db.tables)))]
                && resp.Redirect? && resp.location.UserPage?)
    ensures !(resp.Redirect? && resp.location.Root?)
  {
    var ctx := new Context(req);
    var gate := false;
    if ConsultsGate(req.verb, req.path) {
      gate := AuthenticatedConstraint.Matches(db, ctx);
    }
    GateIrrelevantUnlessConsulted(req.verb, req.path);
    GatedActionsNeedTheGate(req.verb, req.path, gate);
    AuthenticatedIff(db.tables, None, req.cookies, GATE_KEY);
    var routed := Recognize(req.verb, req.path, gate);
    if routed.None? {
      return Failure(NOT_FOUND), ctx.setCookies;
    }
    resp := Dispatch(db, ctx, cfg, routed.value, now);
    setCookies := ctx.setCookies;
  }
}
