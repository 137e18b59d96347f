/**
 * app/constraints/authenticated_constraint.rb: the routing constraint around the routes that need
 * a session.
 */
module AuthenticatedConstraint {
  import opened Wrappers
  import opened Cookies
  import opened Sessions
  import opened Database
  import opened Current

  /** `matches?(request)`: a jar built afresh from the cookies the request carries, the session its
      signed `:session_token` names, and on success that session made current. */
  method Matches(db: Db, ctx: Context) returns (r: bool)
    modifies ctx
    ensures r <==> Resolve(db.tables, ctx.request.cookies, GATE_KEY).Some?
    ensures ctx.session == if r then Resolve(db.tables, ctx.request.cookies, GATE_KEY) else old(ctx.session)
    ensures ctx.jar == old(ctx.jar) && ctx.setCookies == old(ctx.setCookies)
  {
    var cookies := ctx.request.cookies;
    var session := db.FindSession(Decode(cookies, GATE_KEY));
    if session.Some? {
      ctx.session := session;
      r := true;
    } else {
      r := false;
    }
  }
}
