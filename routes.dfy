/**
 * config/routes.rb as an ordered route table. Recognition walks the table top to bottom and takes
 * the first route whose verb and path match and, for a route drawn inside
 * `constraints(AuthenticatedConstraint.new)`, whose constraint accepts the request. The constraint's
 * answer is a parameter here; AuthenticatedConstraint.Matches computes it.
 */
module Routes {
  import opened Wrappers

  datatype Verb = GET | POST | PATCH | PUT | DELETE

  /** A path segment of a route: a literal, or the `:id` placeholder. */
  datatype Seg = Lit(text: string) | IdParam

  datatype Controller = SessionsC | UsersC | PostsC | HealthC | PwaC

  datatype Action = Index | Show | New | Create | Edit | Update | Destroy | ServiceWorker | Manifest

  datatype Target = Target(controller: Controller, action: Action)

  datatype Route = Route(verb: Verb, pattern: seq<Seg>, target: Target, gated: bool)

  /** A recognised request: the action, and the `:id` the path carried, if the route has one. */
  datatype Match = Match(target: Target, id: Option<string>)

  /** Rails' default segment pattern for `:id`, `[^/.?]+`: a path segment never holds '/', and the
      optional `(.:format)` suffix is not part of this model, so a '.' does not match either. */
  predicate IdSegment(s: string)
  {
    |s| > 0 && forall i :: 0 <= i < |s| ==> s[i] != '.' && s[i] != '?'
  }

  predicate SegMatches(p: Seg, s: string)
  {
    match p
    case Lit(t) => s == t
    case IdParam => IdSegment(s)
  }

  /** Every segment matches its placeholder. The first three positions (as many as a route of this
      table has) are written out, so that comparing a request with a route needs no induction. */
  predicate PatternMatches(pattern: seq<Seg>, path: seq<string>)
  {
    && |pattern| == |path|
    && (|path| > 0 ==> SegMatches(pattern[0], path[0]))
    && (|path| > 1 ==> SegMatches(pattern[1], path[1]))
    && (|path| > 2 ==> SegMatches(pattern[2], path[2]))
    && (forall i :: 3 <= i < |path| ==> SegMatches(pattern[i], path[i]))
  }

  /** The path segment bound to `:id`: the first position of the pattern that holds it. Written out
      for the first three positions, as many as a route of this table has. */
  function IdOf(pattern: seq<Seg>, path: seq<string>): (r: Option<string>)
    ensures r.Some? ==> exists i :: 0 <= i < |pattern| && i < |path| && pattern[i] == IdParam && path[i] == r.value
    ensures r.None? && |pattern| == |path| <= 3 ==> forall i :: 0 <= i < |path| ==> pattern[i] != IdParam
  {
    if |pattern| > 0 && |path| > 0 && pattern[0] == IdParam then Some(path[0])
    else if |pattern| > 1 && |path| > 1 && pattern[1] == IdParam then Some(path[1])
    else if |pattern| > 2 && |path| > 2 && pattern[2] == IdParam then Some(path[2])
    else None
  }

  predicate Applies(r: Route, verb: Verb, path: seq<string>)
  {
    r.verb == verb && PatternMatches(r.pattern, path)
  }

  function R(verb: Verb, pattern: seq<Seg>, c: Controller, a: Action, gated: bool): Route
  {
    Route(verb, pattern, Target(c, a), gated)
  }

  /** The number of routes config/routes.rb draws. */
  const ROUTE_COUNT: nat := 24

  /** The table in the order config/routes.rb draws it. `resources` draws create before new and new
      before the member routes, so /users/new and /posts/new are not taken for an `:id`. */
  function RouteAt(i: nat): Route
  {
    match i
    // sessions: create, new (config/routes.rb:3)
    case 0 => R(POST, [Lit("sessions")], SessionsC, Create, false)
    case 1 => R(GET, [Lit("sessions"), Lit("new")], SessionsC, New, false)
    // users: create, new, show (config/routes.rb:4)
    case 2 => R(POST, [Lit("users")], UsersC, Create, false)
    case 3 => R(GET, [Lit("users"), Lit("new")], UsersC, New, false)
    case 4 => R(GET, [Lit("users"), IdParam], UsersC, Show, false)
    // the sign-in and sign-up shortcuts (config/routes.rb:5-6)
    case 5 => R(GET, [Lit("sign_in")], SessionsC, New, false)
    case 6 => R(GET, [Lit("sign_up")], UsersC, New, false)
    // inside the constraint block: the singular user resource, edit, update, destroy (config/routes.rb:9)
    case 7 => R(GET, [Lit("user"), Lit("edit")], UsersC, Edit, true)
    case 8 => R(PATCH, [Lit("user")], UsersC, Update, true)
    case 9 => R(PUT, [Lit("user")], UsersC, Update, true)
    case 10 => R(DELETE, [Lit("user")], UsersC, Destroy, true)
    // sessions: destroy (config/routes.rb:10)
    case 11 => R(DELETE, [Lit("sessions"), IdParam], SessionsC, Destroy, true)
    // posts: create, new, edit, update, destroy (config/routes.rb:11)
    case 12 => R(POST, [Lit("posts")], PostsC, Create, true)
    case 13 => R(GET, [Lit("posts"), Lit("new")], PostsC, New, true)
    case 14 => R(GET, [Lit("posts"), IdParam, Lit("edit")], PostsC, Edit, true)
    case 15 => R(PATCH, [Lit("posts"), IdParam], PostsC, Update, true)
    case 16 => R(PUT, [Lit("posts"), IdParam], PostsC, Update, true)
    case 17 => R(DELETE, [Lit("posts"), IdParam], PostsC, Destroy, true)
    // outside the block again: posts index and show (config/routes.rb:14)
    case 18 => R(GET, [Lit("posts")], PostsC, Index, false)
    case 19 => R(GET, [Lit("posts"), IdParam], PostsC, Show, false)
    // the health check and the two PWA files (config/routes.rb:18-22)
    case 20 => R(GET, [Lit("up")], HealthC, Show, false)
    case 21 => R(GET, [Lit("service-worker")], PwaC, ServiceWorker, false)
    case 22 => R(GET, [Lit("manifest")], PwaC, Manifest, false)
    // the root path, last (config/routes.rb:25)
    case _ => R(GET, [], PostsC, Index, false)
  }

  /** The actions drawn only inside the constraint block. */
  predicate GatedTarget(t: Target)
  {
    || (t.controller == UsersC && t.action in {Edit, Update, Destroy})
    || (t.controller == SessionsC && t.action == Destroy)
    || (t.controller == PostsC && t.action in {New, Create, Edit, Update, Destroy})
  }

  /** A route takes the request: verb and path match and, inside the constraint block, the
      constraint said yes. */
  predicate Accepts(r: Route, verb: Verb, path: seq<string>, gate: bool)
  {
    Applies(r, verb, path) && (!r.gated || gate)
  }

  /** The index of the first of the routes `table(from)`, ..., `table(count - 1)` that takes the
      request; `count` if none does. FirstTakes and FirstIsExactly state what it finds. */
  function First(table: nat -> Route, count: nat, from: nat, verb: Verb, path: seq<string>, gate: bool): (k: nat)
    requires from <= count
    ensures from <= k <= count
    decreases count - from
  {
    if from == count then count
    else if Accepts(table(from), verb, path, gate) then from
    else First(table, count, from + 1, verb, path, gate)
  }

  /** First's result takes the request, and no route before it does. */
  lemma {:induction false} FirstTakes(table: nat -> Route, count: nat, from: nat, verb: Verb, path: seq<string>, gate: bool)
    requires from <= count
    ensures var k := First(table, count, from, verb, path, gate);
      && (k < count ==> Accepts(table(k), verb, path, gate))
      && (forall i :: from <= i < k ==> !Accepts(table(i), verb, path, gate))
    decreases count - from
  {
    if from < count && !Accepts(table(from), verb, path, gate) {
      FirstTakes(table, count, from + 1, verb, path, gate);
    }
  }

  /** The converse: a route that takes the request, with none before it taking it, is what First finds. */
  lemma {:induction false} FirstIsExactly(table: nat -> Route, count: nat, from: nat, k: nat, verb: Verb, path: seq<string>, gate: bool)
    requires from <= k <= count
    requires forall i :: from <= i < k ==> !Accepts(table(i), verb, path, gate)
    requires k < count ==> Accepts(table(k), verb, path, gate)
    ensures First(table, count, from, verb, path, gate) == k
    decreases k - from
  {
    if from < k {
      FirstIsExactly(table, count, from + 1, k, verb, path, gate);
    }
  }

  /** Route recognition, with `gate` the constraint's answer for this request. */
  function Recognize(verb: Verb, path: seq<string>, gate: bool): Option<Match>
  {
    var k := First(RouteAt, ROUTE_COUNT, 0, verb, path, gate);
    if k == ROUTE_COUNT then None else Some(Match(RouteAt(k).target, IdOf(RouteAt(k).pattern, path)))
  }

  /** Whether the router asks the constraint: the first route that applies, constraint aside, is drawn
      inside the constraint block. */
  predicate ConsultsGate(verb: Verb, path: seq<string>)
  {
    var k := First(RouteAt, ROUTE_COUNT, 0, verb, path, true);
    k < ROUTE_COUNT && RouteAt(k).gated
  }

  /** Pins down First: the first route of the table that takes the request is route k. */
  lemma FirstIs(k: nat, verb: Verb, path: seq<string>, gate: bool)
    requires k <= ROUTE_COUNT
    requires forall i :: 0 <= i < k ==> !Accepts(RouteAt(i), verb, path, gate)
    requires k < ROUTE_COUNT ==> Accepts(RouteAt(k), verb, path, gate)
    ensures First(RouteAt, ROUTE_COUNT, 0, verb, path, gate) == k
  {
    FirstIsExactly(RouteAt, ROUTE_COUNT, 0, k, verb, path, gate);
  }

  /** The gated flag of the table is exactly membership in the constraint block. */
  lemma TableGatesExactlyTheBlock()
    ensures forall i :: 0 <= i < ROUTE_COUNT ==> (RouteAt(i).gated <==> GatedTarget(RouteAt(i).target))
  {
  }

  /** An action of the constraint block is reached only when the constraint said yes. */
  lemma GatedActionsNeedTheGate(verb: Verb, path: seq<string>, gate: bool)
    ensures Recognize(verb, path, gate).Some? && GatedTarget(Recognize(verb, path, gate).value.target) ==> gate
  {
    TableGatesExactlyTheBlock();
    FirstTakes(RouteAt, ROUTE_COUNT, 0, verb, path, gate);
  }

  /** From `from` on, a route of the constraint block being the first to apply is the only way the
      constraint's answer can matter. */
  lemma {:induction false} FirstIgnoresGate(table: nat -> Route, count: nat, from: nat, verb: Verb, path: seq<string>)
    requires from <= count
    requires var k := First(table, count, from, verb, path, true); k == count || !table(k).gated
    ensures First(table, count, from, verb, path, false) == First(table, count, from, verb, path, true)
    decreases count - from
  {
    if from < count && !Accepts(table(from), verb, path, true) {
      FirstIgnoresGate(table, count, from + 1, verb, path);
    }
  }

  /** When the router does not ask the constraint, the constraint's answer changes nothing; so asking
      it only when ConsultsGate holds, as the router does, recognises the same route. */
  lemma GateIrrelevantUnlessConsulted(verb: Verb, path: seq<string>)
    ensures !ConsultsGate(verb, path) ==> Recognize(verb, path, true) == Recognize(verb, path, false)
  {
    if !ConsultsGate(verb, path) {
      FirstIgnoresGate(RouteAt, ROUTE_COUNT, 0, verb, path);
    }
  }

  /** A route outside the constraint block that is the first to apply: the request goes there (as
      `m`), whatever the constraint would answer, and the router does not ask it. */
  lemma PublicAt(k: nat, verb: Verb, path: seq<string>, gate: bool, m: Match)
    requires k < ROUTE_COUNT && !RouteAt(k).gated && Applies(RouteAt(k), verb, path)
    requires forall i :: 0 <= i < k ==> !Applies(RouteAt(i), verb, path)
    requires m == Match(RouteAt(k).target, IdOf(RouteAt(k).pattern, path))
    ensures Recognize(verb, path, gate) == Some(m)
    ensures !ConsultsGate(verb, path)
  {
    FirstIs(k, verb, path, gate);
    FirstIs(k, verb, path, true);
  }

  /** No route applies: nothing takes the request (404), and the constraint is not asked. */
  lemma Unrouted(verb: Verb, path: seq<string>, gate: bool)
    requires forall i :: 0 <= i < ROUTE_COUNT ==> !Applies(RouteAt(i), verb, path)
    ensures Recognize(verb, path, gate) == None
    ensures !ConsultsGate(verb, path)
  {
    FirstIs(ROUTE_COUNT, verb, path, gate);
    FirstIs(ROUTE_COUNT, verb, path, true);
  }

  /** A route of the constraint block that is the first to apply: the router asks the constraint; on
      yes the request goes there (as `yes`), on no to the first route outside the block that applies
      (`next`), or nowhere when `next` is ROUTE_COUNT (`no`). */
  lemma GatedAt(k: nat, next: nat, verb: Verb, path: seq<string>, yes: Match, no: Option<Match>)
    requires k < next <= ROUTE_COUNT && RouteAt(k).gated && Applies(RouteAt(k), verb, path)
    requires forall i :: 0 <= i < k ==> !Applies(RouteAt(i), verb, path)
    requires forall i :: k < i < next ==> !Accepts(RouteAt(i), verb, path, false)
    requires next < ROUTE_COUNT ==> Accepts(RouteAt(next), verb, path, false)
    requires yes == Match(RouteAt(k).target, IdOf(RouteAt(k).pattern, path))
    requires no == if next == ROUTE_COUNT then None else Some(Match(RouteAt(next).target, IdOf(RouteAt(next).pattern, path)))
    ensures Recognize(verb, path, true) == Some(yes)
    ensures Recognize(verb, path, false) == no
    ensures ConsultsGate(verb, path)
  {
    FirstIs(k, verb, path, true);
    FirstIs(next, verb, path, false);
  }

  /** The public sessions routes (config/routes.rb:3): POST /sessions is recognised whatever the
      constraint would say, and the router never asks it. */
  lemma SessionsCreateIsPublic(gate: bool)
    ensures Recognize(POST, ["sessions"], gate) == Some(Match(Target(SessionsC, Create), None))
    ensures !ConsultsGate(POST, ["sessions"])
  {
    PublicAt(0, POST, ["sessions"], gate, Match(Target(SessionsC, Create), None));
  }

  /** GET /sessions/new: public. */
  lemma SessionsNewIsPublic(gate: bool)
    ensures Recognize(GET, ["sessions", "new"], gate) == Some(Match(Target(SessionsC, New), None))
    ensures !ConsultsGate(GET, ["sessions", "new"])
  {
    PublicAt(1, GET, ["sessions", "new"], gate, Match(Target(SessionsC, New), None));
  }

  /** The public users routes (config/routes.rb:4): POST /users is public. */
  lemma UsersCreateIsPublic(gate: bool)
    ensures Recognize(POST, ["users"], gate) == Some(Match(Target(UsersC, Create), None))
    ensures !ConsultsGate(POST, ["users"])
  {
    PublicAt(2, POST, ["users"], gate, Match(Target(UsersC, Create), None));
  }

  /** GET /users/new is sign-up, not the user with id "new"; public. */
  lemma UsersNewIsPublic(gate: bool)
    ensures Recognize(GET, ["users", "new"], gate) == Some(Match(Target(UsersC, New), None))
    ensures !ConsultsGate(GET, ["users", "new"])
  {
    PublicAt(3, GET, ["users", "new"], gate, Match(Target(UsersC, New), None));
  }

  /** GET /users/:id: public, for every id but "new". */
  lemma UsersShowIsPublic(gate: bool, id: string)
    requires IdSegment(id) && id != "new"
    ensures Recognize(GET, ["users", id], gate) == Some(Match(Target(UsersC, Show), Some(id)))
    ensures !ConsultsGate(GET, ["users", id])
  {
    PublicAt(4, GET, ["users", id], gate, Match(Target(UsersC, Show), Some(id)));
  }

  /** The sign-in shortcut (config/routes.rb:5) is public. */
  lemma SignInIsPublic(gate: bool)
    ensures Recognize(GET, ["sign_in"], gate) == Some(Match(Target(SessionsC, New), None))
    ensures !ConsultsGate(GET, ["sign_in"])
  {
    PublicAt(5, GET, ["sign_in"], gate, Match(Target(SessionsC, New), None));
  }

  /** The sign-up shortcut (config/routes.rb:6) is public. */
  lemma SignUpIsPublic(gate: bool)
    ensures Recognize(GET, ["sign_up"], gate) == Some(Match(Target(UsersC, New), None))
    ensures !ConsultsGate(GET, ["sign_up"])
  {
    PublicAt(6, GET, ["sign_up"], gate, Match(Target(UsersC, New), None));
  }

  /** The public posts routes (config/routes.rb:14): GET /posts is public. */
  lemma PostsIndexIsPublic(gate: bool)
    ensures Recognize(GET, ["posts"], gate) == Some(Match(Target(PostsC, Index), None))
    ensures !ConsultsGate(GET, ["posts"])
  {
    PublicAt(18, GET, ["posts"], gate, Match(Target(PostsC, Index), None));
  }

  /** GET /posts/:id is public for every id but "new" (see PostsNewFallsThrough). */
  lemma PostsShowIsPublic(gate: bool, id: string)
    requires IdSegment(id) && id != "new"
    ensures Recognize(GET, ["posts", id], gate) == Some(Match(Target(PostsC, Show), Some(id)))
    ensures !ConsultsGate(GET, ["posts", id])
  {
    PublicAt(19, GET, ["posts", id], gate, Match(Target(PostsC, Show), Some(id)));
  }

  /** The health check (config/routes.rb:18) is public. */
  lemma HealthCheckIsPublic(gate: bool)
    ensures Recognize(GET, ["up"], gate) == Some(Match(Target(HealthC, Show), None))
    ensures !ConsultsGate(GET, ["up"])
  {
    PublicAt(20, GET, ["up"], gate, Match(Target(HealthC, Show), None));
  }

  /** The PWA service worker (config/routes.rb:21) is public. */
  lemma ServiceWorkerIsPublic(gate: bool)
    ensures Recognize(GET, ["service-worker"], gate) == Some(Match(Target(PwaC, ServiceWorker), None))
    ensures !ConsultsGate(GET, ["service-worker"])
  {
    PublicAt(21, GET, ["service-worker"], gate, Match(Target(PwaC, ServiceWorker), None));
  }

  /** The PWA manifest (config/routes.rb:22) is public. */
  lemma ManifestIsPublic(gate: bool)
    ensures Recognize(GET, ["manifest"], gate) == Some(Match(Target(PwaC, Manifest), None))
    ensures !ConsultsGate(GET, ["manifest"])
  {
    PublicAt(22, GET, ["manifest"], gate, Match(Target(PwaC, Manifest), None));
  }

  /** The root path (config/routes.rb:25) is public. */
  lemma RootIsPublic(gate: bool)
    ensures Recognize(GET, [], gate) == Some(Match(Target(PostsC, Index), None))
    ensures !ConsultsGate(GET, [])
  {
    PublicAt(23, GET, [], gate, Match(Target(PostsC, Index), None));
  }

  /** The singular user resource inside the constraint block (config/routes.rb:9): GET /user/edit
      is recognised only when the constraint says yes; otherwise nothing takes it (404). */
  lemma EditUserIsGated()
    ensures Recognize(GET, ["user", "edit"], true) == Some(Match(Target(UsersC, Edit), None))
    ensures Recognize(GET, ["user", "edit"], false) == None
    ensures ConsultsGate(GET, ["user", "edit"])
  {
    GatedAt(7, ROUTE_COUNT, GET, ["user", "edit"], Match(Target(UsersC, Edit), None), None);
  }

  /** PATCH /user: gated. */
  lemma PatchUserIsGated()
    ensures Recognize(PATCH, ["user"], true) == Some(Match(Target(UsersC, Update), None))
    ensures Recognize(PATCH, ["user"], false) == None
    ensures ConsultsGate(PATCH, ["user"])
  {
    GatedAt(8, ROUTE_COUNT, PATCH, ["user"], Match(Target(UsersC, Update), None), None);
  }

  /** PUT /user: gated. */
  lemma PutUserIsGated()
    ensures Recognize(PUT, ["user"], true) == Some(Match(Target(UsersC, Update), None))
    ensures Recognize(PUT, ["user"], false) == None
    ensures ConsultsGate(PUT, ["user"])
  {
    GatedAt(9, ROUTE_COUNT, PUT, ["user"], Match(Target(UsersC, Update), None), None);
  }

  /** DELETE /user: gated. */
  lemma DeleteUserIsGated()
    ensures Recognize(DELETE, ["user"], true) == Some(Match(Target(UsersC, Destroy), None))
    ensures Recognize(DELETE, ["user"], false) == None
    ensures ConsultsGate(DELETE, ["user"])
  {
    GatedAt(10, ROUTE_COUNT, DELETE, ["user"], Match(Target(UsersC, Destroy), None), None);
  }

  /** Sign-out inside the block (config/routes.rb:10): DELETE /sessions/:id is gated. */
  lemma SessionsDestroyIsGated(id: string)
    requires IdSegment(id)
    ensures Recognize(DELETE, ["sessions", id], true) == Some(Match(Target(SessionsC, Destroy), Some(id)))
    ensures Recognize(DELETE, ["sessions", id], false) == None
    ensures ConsultsGate(DELETE, ["sessions", id])
  {
    GatedAt(11, ROUTE_COUNT, DELETE, ["sessions", id], Match(Target(SessionsC, Destroy), Some(id)), None);
  }

  /** The posts routes inside the block (config/routes.rb:11): POST /posts is gated. */
  lemma PostsCreateIsGated()
    ensures Recognize(POST, ["posts"], true) == Some(Match(Target(PostsC, Create), None))
    ensures Recognize(POST, ["posts"], false) == None
    ensures ConsultsGate(POST, ["posts"])
  {
    GatedAt(12, ROUTE_COUNT, POST, ["posts"], Match(Target(PostsC, Create), None), None);
  }

  /** GET /posts/:id/edit: gated. */
  lemma PostsEditIsGated(id: string)
    requires IdSegment(id)
    ensures Recognize(GET, ["posts", id, "edit"], true) == Some(Match(Target(PostsC, Edit), Some(id)))
    ensures Recognize(GET, ["posts", id, "edit"], false) == None
    ensures ConsultsGate(GET, ["posts", id, "edit"])
  {
    GatedAt(14, ROUTE_COUNT, GET, ["posts", id, "edit"], Match(Target(PostsC, Edit), Some(id)), None);
  }

  /** PATCH /posts/:id: gated. */
  lemma PatchPostIsGated(id: string)
    requires IdSegment(id)
    ensures Recognize(PATCH, ["posts", id], true) == Some(Match(Target(PostsC, Update), Some(id)))
    ensures Recognize(PATCH, ["posts", id], false) == None
    ensures ConsultsGate(PATCH, ["posts", id])
  {
    GatedAt(15, ROUTE_COUNT, PATCH, ["posts", id], Match(Target(PostsC, Update), Some(id)), None);
  }

  /** PUT /posts/:id: gated. */
  lemma PutPostIsGated(id: string)
    requires IdSegment(id)
    ensures Recognize(PUT, ["posts", id], true) == Some(Match(Target(PostsC, Update), Some(id)))
    ensures Recognize(PUT, ["posts", id], false) == None
    ensures ConsultsGate(PUT, ["posts", id])
  {
    GatedAt(16, ROUTE_COUNT, PUT, ["posts", id], Match(Target(PostsC, Update), Some(id)), None);
  }

  /** DELETE /posts/:id: gated. */
  lemma DeletePostIsGated(id: string)
    requires IdSegment(id)
    ensures Recognize(DELETE, ["posts", id], true) == Some(Match(Target(PostsC, Destroy), Some(id)))
    ensures Recognize(DELETE, ["posts", id], false) == None
    ensures ConsultsGate(DELETE, ["posts", id])
  {
    GatedAt(17, ROUTE_COUNT, DELETE, ["posts", id], Match(Target(PostsC, Destroy), Some(id)), None);
  }

  /** GET /posts/new is drawn inside the constraint block, and the public posts routes below it
      (config/routes.rb:14) draw GET /posts/:id: without a session the request is not refused but taken by
      posts#show with id "new". */
  lemma PostsNewFallsThrough()
    ensures Recognize(GET, ["posts", "new"], true) == Some(Match(Target(PostsC, New), None))
    ensures Recognize(GET, ["posts", "new"], false) == Some(Match(Target(PostsC, Show), Some("new")))
    ensures ConsultsGate(GET, ["posts", "new"])
  {
    GatedAt(13, 19, GET, ["posts", "new"], Match(Target(PostsC, New), None), Some(Match(Target(PostsC, Show), Some("new"))));
  }

  /** No route draws GET /users (`users_url`, where UsersController#destroy redirects). */
  lemma UsersIndexIsNotRouted(gate: bool)
    ensures Recognize(GET, ["users"], gate) == None
    ensures !ConsultsGate(GET, ["users"])
  {
    Unrouted(GET, ["users"], gate);
  }
}
