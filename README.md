# Session authentication of a small Rails blog, modelled in Dafny

The application is a Rails 7.2 blog with users, posts and comments. Its core is cookie-based session authentication:

- **Signing in** (`POST /sessions`) checks a screen name and password with `User.authenticate_by`. It then creates a `sessions` row, records `last_seen_at` and writes a signed, permanent, HttpOnly cookie holding the session id.
- **Later requests** are authenticated in two places:
  - in the controllers, by `ensure_user_authenticated!` and `user_authenticated?`, which look up the session the signed cookie names;
  - in the router, by `AuthenticatedConstraint`, which does the same lookup for the routes drawn inside `constraints(AuthenticatedConstraint.new)`.
- **Signing out** (`DELETE /sessions/:id`) destroys one of the current user's own sessions. The lookup is scoped to that user, so an id belonging to someone else's session finds nothing.
- **Account management** (`UsersController`) covers sign-up, profile edit and account deletion.

The model has two layers.

- **Values.** Datatypes and functions describe:
  - the tables of `db/schema.rb` (`Schema`), including their foreign keys, unique indexes and AUTOINCREMENT primary keys;
  - the `User` and `Post` models, with their validations, `has_secure_password`, `dependent: :destroy` and `counter_cache` (`UserModel`, `PostModel`, `Integrity`);
  - signed cookies (`Cookies`), session lookup (`Sessions`) and authentication (`Auth`);
  - the request parameters (`Http`);
  - the route table (`Routes`).
- **State.** The database is a class `Database.Db` whose methods update its tables in place. The request-scoped state is a class `Current.Context`: `Current.session`, the cookie jar and the response's Set-Cookie entries. The controller actions, the constraint and a whole request cycle (`RequestCycle.Handle`) are methods over the two. Each method's `ensures` ties its new state to the value layer, where the properties are proved as lemmas.

### Main properties

- **Fail closed.** A missing, forged or wrongly named cookie authenticates nobody (`Auth.AuthenticatedFailsClosed`, `Cookies.DecodeFailsClosed`).
- **Sign-out is final.** The id of a revoked session is never issued again, so its cookie stays dead after any later history (`Sessions.RevokedStaysRevoked`, `Auth.SignedOutStaysOut`).
- **Scoped sign-out.** Destroying another user's session is a 404 that writes nothing (`SessionsController.Destroy`).
- **The constraint guards its block.** Every action drawn inside the constraint block is reached only when the constraint says yes (`Routes.GatedActionsNeedTheGate`).
- **Signed-out requests delete nothing.** When the `session_token` cookie resolves to no session, a request deletes no user and no session (`RequestCycle.Handle`). It can still add rows and, by signing in, set the user's `last_seen_at`.
- **Sign-in cookie round trip.** The cookie `sign_in` writes authenticates the browser's next request as the new session (`Auth.SignInCookieAuthenticates`).
- **The two cookie names.** The route constraint sees that cookie exactly when `Session::COOKIE_KEY` is `session_token` (`Auth.GateSeesSignInIff`).
- **The invariant holds.** Every write keeps the database invariant: the schema's constraints, the per-row validations and the posts counter cache (`Integrity`).

### Behaviour of the code worth knowing

- **Deleting a user does not cascade to posts or comments.** Only `has_many :sessions, dependent: :destroy` cascades. The foreign keys from `posts` and `comments` to `users` make `user.destroy!` raise while such a row exists. The transaction is rolled back and the request ends in a 500 (`UserModel.DestroyRemovesExactlyTheirSessions`, `UsersController.Destroy`).
- **A protected route without a valid cookie is not redirected home.** The route constraint already rejects the request, so the router goes on to the next route:
  - most such requests end in a 404 (`Routes.EditUserIsGated` and the other `…IsGated` lemmas);
  - signed-out `GET /posts/new` reaches `posts#show` with id `new` (`Routes.PostsNewFallsThrough`).

  On the routes of this table the controllers' redirect to `root_path` is never reached. The constraint sets `Current.session` when it accepts, so `ensure_user_authenticated!` passes at its first line (`RequestCycle.Handle`).
- **`users_url`, where a deleted account is redirected, has no route.** `GET /users` is not recognised (`Routes.UsersIndexIsNotRouted`).

### What is a parameter

- The deployment is a `Cookies.Config`: the value of `Session::COOKIE_KEY` (the `Session` model is not part of this model), `Rails.env.development?` and `ENV["RELAX_SSL"]`.
- The clock (`Time.current`) is a `now` parameter of the methods that read it.
- The user agent and IP come from the `Http.Request`.

## Model

| member | source | states |
|---|---|---|
| Schema.EmptyWf | db/schema.rb:13-60 | the freshly loaded schema, every table empty, satisfies all foreign keys, unique indexes and id bounds |
| Schema.NoPostsOfMissingUser | db/schema.rb:58 | under the posts→users foreign key, a user that does not exist owns no post |
| UserModel.CreateAcceptsExactly | app/models/user.rb:2-6 | sign-up succeeds iff the screen name is present and unused and a password of at least 8 characters is given which, unless it is all whitespace, is at most 72 characters and equal to its confirmation when one is given |
| UserModel.BlankPasswordSkipsConfirmation | app/models/user.rb:2 | a whitespace-only password of 8 or more characters is accepted whatever its confirmation and length, because has_secure_password's too-long and confirmation checks skip blank values |
| UserModel.CreateRejects | app/models/user.rb:5-6 | a blank or taken screen name, a missing password and one shorter than 8 characters each cause that specific error |
| UserModel.CreateAddsOneUser | app/models/user.rb:2 | a successful sign-up adds one fresh row holding the screen name, the digest of the password, `posts_count` 0 and no `last_seen_at`; other tables are unchanged |
| UserModel.CreatePreserves | app/models/user.rb:5 | sign-up keeps the schema's constraints and the per-row validations (unique screen names included) |
| UserModel.CreateWhenValid | app/models/user.rb:2-6 | with no validation error, sign-up inserts the assigned record under the next AUTOINCREMENT id |
| UserModel.UpdateChangesOnlyPermittedColumns | app/models/user.rb:2 | an update fails and writes nothing, or rewrites only that user's row, keeping `last_seen_at`, `posts_count` and (without a non-empty password) the digest |
| UserModel.UpdateRejects | app/models/user.rb:5-6 | an update to a password under 8 characters, or to a blank or taken screen name, fails |
| UserModel.UpdateWithoutPasswordSucceeds | app/models/user.rb:6 | `allow_nil: true`: an update of `about` alone succeeds on a valid database and keeps the digest |
| UserModel.SaveWhenValid | app/models/user.rb:5-6 | with no validation error, a save writes the assigned record |
| UserModel.SavePreserves | app/models/user.rb:5 | a validated save keeps the schema's constraints and the per-row validations |
| UserModel.TouchSucceeds | app/models/user.rb:5-6 | on a valid database `update!(last_seen_at:)` never raises and changes only `last_seen_at` |
| UserModel.DestroyRemovesExactlyTheirSessions | app/models/user.rb:3 | destroy fails iff a post or comment references the user; otherwise it removes the user and exactly their sessions |
| UserModel.DestroyWhenUnreferenced | app/models/user.rb:3 | with no referencing post or comment, destroy is the sessions' deletion followed by the user's |
| UserModel.DestroyPreserves | app/models/user.rb:3 | destroy keeps the schema's constraints and the per-row validations |
| UserModel.AuthenticatesAtMostOne | app/models/user.rb:2 | `authenticate_by` identifies at most one user, because screen names are unique |
| PostModel.CreateAcceptsExactly | app/models/post.rb:2-4 | creation succeeds iff the title is present, at least 5 characters and unused, and the owner exists |
| PostModel.CreateWhenValid | app/models/post.rb:2-4 | with no validation error, create inserts the row and increments the owner's counter |
| PostModel.CreateAddsOnePost | app/models/post.rb:2 | a create adds one post with the given fields and `comments_count` 0, and raises only its owner's `posts_count`, by one |
| PostModel.PostsOfInsert | app/models/post.rb:2 | inserting a post adds its id to its owner's posts and to no one else's |
| PostModel.PostsOfRemove | app/models/post.rb:2 | removing a post removes its id from its owner's posts only |
| PostModel.CreateKeepsCounters | app/models/post.rb:2 | create keeps every `posts_count` equal to the number of that user's posts |
| PostModel.CreateKeepsTitlesUnique | app/models/post.rb:4 | create keeps titles unique |
| PostModel.CreateKeepsReferences | app/models/post.rb:2 | create keeps the foreign keys and the id bounds |
| PostModel.CreatePreserves | app/models/post.rb:2-4 | create keeps the schema's constraints, the validations and the counter cache |
| PostModel.DestroyOutcome | app/models/post.rb:2 | destroy fails iff a comment references the post; otherwise the row is gone and the owner's `posts_count` is one lower |
| PostModel.DestroyWhenUnreferenced | app/models/post.rb:2 | with no referencing comment, destroy deletes the row and decrements the owner's counter |
| PostModel.DestroyKeepsCounters | app/models/post.rb:2 | destroy keeps the counter cache right |
| PostModel.DestroyKeepsReferences | db/schema.rb:56 | destroy keeps the foreign keys |
| PostModel.DestroyPreserves | app/models/post.rb:2-4 | destroy keeps the schema's constraints, the validations and the counter cache |
| Integrity.EmptyConsistent | db/schema.rb:13-60 | the empty database satisfies the invariant |
| Integrity.UserCreateKeeps | app/models/user.rb:2-6 | sign-up keeps the invariant |
| Integrity.UserSaveKeeps | app/models/user.rb:5-6 | a validated save that keeps `posts_count` keeps the invariant |
| Integrity.UserUpdateKeeps | app/models/user.rb:5-6 | a profile update keeps the invariant |
| Integrity.UserTouchKeeps | app/controllers/application_controller.rb:13 | recording `last_seen_at` keeps the invariant |
| Integrity.UserDestroyKeeps | app/models/user.rb:3 | destroying a user keeps the invariant |
| Integrity.PostCreateKeeps | app/models/post.rb:2-4 | creating a post keeps the invariant |
| Integrity.PostDestroyKeeps | app/models/post.rb:2 | destroying a post keeps the invariant |
| Integrity.SessionInsertKeeps | app/controllers/application_controller.rb:9-12 | creating a session for an existing user keeps the invariant |
| Integrity.SessionDeleteKeeps | app/controllers/sessions_controller.rb:35 | destroying a session keeps the invariant |
| Cookies.ReturnedDecodes | app/controllers/application_controller.rb:15-19 | on the browser's next request, a cookie the response signed for a name decodes to the signed id, and a name the response did not set decodes as before |
| Cookies.DecodeSign | app/controllers/application_controller.rb:15-16 | a value signed for a name decodes, under that name, to the signed id |
| Cookies.DecodeFailsClosed | app/controllers/application_controller.rb:26 | an absent cookie, a forged one and one signed for another name decode to nil |
| Sessions.FindAfterWrites | app/controllers/application_controller.rb:26 | `find_by(id:)` after `create!` finds the new row under the new id, after `destroy!` finds nothing under the destroyed id, finds unchanged rows under every other id, and finds nothing for nil |
| Sessions.ResolveIff | app/constraints/authenticated_constraint.rb:3-4 | a request resolves to a session iff its cookie decodes to the id of an existing session, and then to that session |
| Sessions.InsertAddsOneSession | app/controllers/application_controller.rb:9-12 | `sessions.create!` adds exactly one fresh session owned by the user, with the request's user agent and IP, and keeps the schema well formed |
| Sessions.DeleteRemovesOneSession | app/controllers/sessions_controller.rb:35 | `destroy!` removes exactly that session and keeps the schema well formed |
| Sessions.RevokedStaysRevoked | app/controllers/sessions_controller.rb:35 | a destroyed session's cookie resolves to nothing, and still does after any further sign-ins and sign-outs (ids are never reused) |
| Auth.AuthenticatedIff | app/controllers/application_controller.rb:23-32 | a request is authenticated iff `Current.session` is set or its cookie names an existing session; a set session is kept and a looked-up one is a live row |
| Auth.AuthenticatedFailsClosed | app/controllers/application_controller.rb:26-31 | without `Current.session`, a missing, forged or misnamed cookie authenticates nobody |
| Auth.SignInIsCreateThenTouch | app/controllers/application_controller.rb:9-13 | `sign_in` is `sessions.create!` then `update!(last_seen_at:)`, which then cannot fail, and the result keeps the invariant |
| Auth.SignInAddsOneSession | app/controllers/application_controller.rb:8-13 | sign-in adds one fresh session owned by the user and sets only their `last_seen_at`; posts and comments are untouched |
| Auth.SignInCookieAuthenticates | app/controllers/application_controller.rb:14-19 | the next request of a browser that received the sign-in cookie is authenticated as the new session |
| Auth.GateSeesSignInIff | app/constraints/authenticated_constraint.rb:4 | the route constraint, reading `:session_token`, accepts the sign-in cookie iff `Session::COOKIE_KEY` is `session_token` |
| Auth.SignedOutStaysOut | app/controllers/sessions_controller.rb:34-37 | after sign-out the old cookie authenticates nobody, now and after any later database history that keeps it revoked |
| Http.ParamsFailureStatus | app/controllers/users_controller.rb:61 | reading the user form (or the sign-in form) fails iff `user` (`session`) is absent or not a non-empty hash; then an absent or blank value is a 400 and a non-blank string a 500 |
| Http.Require | app/controllers/users_controller.rb:61 | `params.require(key)` succeeds iff the key holds a non-empty hash, and returns it; it is ParameterMissing iff the key is absent or blank |
| Http.UserParamsReadOnlyPermitted | app/controllers/users_controller.rb:60-62 | only the four permitted keys, as strings, reach the model: forms that agree on them give the same attributes |
| Http.UserParamsOfForm | app/controllers/users_controller.rb:60-62 | a filled-in user form reaches the model as exactly its four strings |
| Http.SessionParamsCases | app/controllers/sessions_controller.rb:46-48 | the sign-in form reaches the controller as its two strings; no `session` is a 400; a string `session` is a 400 if blank and a 500 otherwise |
| Http.LeadingDigits | app/controllers/users_controller.rb:10 | the longest all-digit prefix of the segment, followed by a non-digit or the end |
| Http.Decimal | app/controllers/users_controller.rb:23 | the path helper writes an id as a non-empty string of digits |
| Http.LeadingDigitsOf | app/controllers/users_controller.rb:10 | the leading digits of `digits + rest` are `digits` when `rest` starts with a non-digit |
| Http.DigitsValueOfDecimal | app/controllers/users_controller.rb:10 | the digit string a path helper writes denotes the id it was written from |
| Http.ToIdOfDecimal | app/controllers/users_controller.rb:10 | round trip: an id written into a path (and optionally followed by a non-digit) is read back by `to_i` as that id, and is a valid `:id` segment |
| Http.ToIdOfNonNumeric | app/controllers/sessions_controller.rb:42 | a segment not starting with a digit is id 0, which no row has |
| Routes.IdOf | config/routes.rb:4 | the `:id` a matched path carries is the segment at the placeholder's position; no placeholder gives none |
| Routes.First | config/routes.rb:1-26 | the ordered search over the table; FirstTakes and FirstIsExactly characterise which route it finds |
| Routes.FirstTakes | config/routes.rb:1-26 | the route found takes the request and no earlier route does (routes are tried in order) |
| Routes.FirstIsExactly | config/routes.rb:1-26 | conversely, the first route that takes the request is the one found |
| Routes.FirstIs | config/routes.rb:1-26 | the first accepting route of this table is the one found |
| Routes.TableGatesExactlyTheBlock | config/routes.rb:8-12 | a route is gated iff its action is one of those drawn inside the constraint block |
| Routes.GatedActionsNeedTheGate | config/routes.rb:8-12 | an action of the constraint block is recognised only when the constraint said yes |
| Routes.FirstIgnoresGate | config/routes.rb:8-12 | if the first route that applies is not gated, the constraint's answer does not change the search |
| Routes.GateIrrelevantUnlessConsulted | config/routes.rb:8-12 | when the router does not ask the constraint, recognition is the same either way |
| Routes.PublicAt | config/routes.rb:3-6 | a public route that is the first to apply is recognised whatever the constraint says, and the constraint is not asked |
| Routes.Unrouted | config/routes.rb:1-26 | a request no route applies to is not recognised, and the constraint is not asked |
| Routes.GatedAt | config/routes.rb:8-14 | a gated route that applies first is taken on yes; on no, the first public route that applies is taken, or none |
| Routes.SessionsCreateIsPublic | config/routes.rb:3 | `POST /sessions` reaches `sessions#create` without asking the constraint |
| Routes.SessionsNewIsPublic | config/routes.rb:3 | `GET /sessions/new` reaches `sessions#new` without asking the constraint |
| Routes.UsersCreateIsPublic | config/routes.rb:4 | `POST /users` reaches `users#create` without asking the constraint |
| Routes.UsersNewIsPublic | config/routes.rb:4 | `GET /users/new` reaches `users#new` without asking the constraint |
| Routes.UsersShowIsPublic | config/routes.rb:4 | `GET /users/:id` (any valid segment but `new`) reaches `users#show` with that id, without asking the constraint |
| Routes.SignInIsPublic | config/routes.rb:5 | `GET /sign_in` reaches `sessions#new` |
| Routes.SignUpIsPublic | config/routes.rb:6 | `GET /sign_up` reaches `users#new` |
| Routes.PostsIndexIsPublic | config/routes.rb:14 | `GET /posts` reaches `posts#index` |
| Routes.PostsShowIsPublic | config/routes.rb:14 | `GET /posts/:id` reaches `posts#show` with that id |
| Routes.HealthCheckIsPublic | config/routes.rb:18 | `GET /up` reaches `rails/health#show` |
| Routes.ServiceWorkerIsPublic | config/routes.rb:21 | `GET /service-worker` reaches `rails/pwa#service_worker` |
| Routes.ManifestIsPublic | config/routes.rb:22 | `GET /manifest` reaches `rails/pwa#manifest` |
| Routes.RootIsPublic | config/routes.rb:25 | `GET /` reaches `posts#index` |
| Routes.EditUserIsGated | config/routes.rb:9 | `GET /user/edit` asks the constraint, reaches `users#edit` on yes and nothing (404) on no |
| Routes.PatchUserIsGated | config/routes.rb:9 | `PATCH /user` asks the constraint, reaches `users#update` on yes and nothing on no |
| Routes.PutUserIsGated | config/routes.rb:9 | `PUT /user` asks the constraint, reaches `users#update` on yes and nothing on no |
| Routes.DeleteUserIsGated | config/routes.rb:9 | `DELETE /user` asks the constraint, reaches `users#destroy` on yes and nothing on no |
| Routes.SessionsDestroyIsGated | config/routes.rb:10 | `DELETE /sessions/:id` asks the constraint, reaches `sessions#destroy` with the id on yes and nothing on no |
| Routes.PostsCreateIsGated | config/routes.rb:11 | `POST /posts` asks the constraint, reaches `posts#create` on yes and nothing on no |
| Routes.PostsEditIsGated | config/routes.rb:11 | `GET /posts/:id/edit` asks the constraint, reaches `posts#edit` on yes and nothing on no |
| Routes.PatchPostIsGated | config/routes.rb:11 | `PATCH /posts/:id` asks the constraint, reaches `posts#update` on yes and nothing on no |
| Routes.PutPostIsGated | config/routes.rb:11 | `PUT /posts/:id` asks the constraint, reaches `posts#update` on yes and nothing on no |
| Routes.DeletePostIsGated | config/routes.rb:11 | `DELETE /posts/:id` asks the constraint, reaches `posts#destroy` on yes and nothing on no |
| Routes.PostsNewFallsThrough | config/routes.rb:11-14 | `GET /posts/new` reaches `posts#new` on yes, and on no falls through to `posts#show` with id `new` |
| Routes.UsersIndexIsNotRouted | config/routes.rb:4 | `GET /users`, where `users_url` points, is recognised by no route |
| Current.Context.constructor | app/controllers/application_controller.rb:24 | a request starts with no `Current.session`, the jar the browser sent and no Set-Cookie entry |
| Database.Db.constructor | db/schema.rb:13-60 | the loaded schema: every table empty, no id issued |
| Database.Db.FindSessionOf | app/controllers/sessions_controller.rb:42 | `Current.user.sessions.find(id)`: found iff the session exists and belongs to the owner |
| Database.Db.AuthenticateBy | app/controllers/sessions_controller.rb:15-18 | `authenticate_by` returns a user iff that user's screen name and password digest match a non-empty password, and none otherwise |
| Database.Db.CreateUser | app/controllers/users_controller.rb:20-22 | the new tables are exactly `UserModel.Create` of the old, and the id is the next one; on errors nothing changes |
| Database.Db.UpdateUser | app/controllers/users_controller.rb:40 | the new tables are exactly `UserModel.Update` of the old when saved; otherwise nothing changes |
| Database.Db.TouchLastSeen | app/controllers/application_controller.rb:13 | only the user's `last_seen_at` is set to now |
| Database.Db.DestroyUser | app/controllers/users_controller.rb:49 | the new tables are `UserModel.Destroy` of the old; on a foreign key error nothing changes |
| Database.Db.CreateSession | app/controllers/application_controller.rb:9-12 | the new tables are `Sessions.Insert` of the old, and the returned id is the next session id |
| Database.Db.DestroySession | app/controllers/sessions_controller.rb:35 | the new tables are `Sessions.Delete` of the old |
| Database.Db.CreatePost | app/models/post.rb:2-4 | the new tables are `PostModel.Create` of the old; on errors nothing changes |
| Database.Db.DestroyPost | app/models/post.rb:2 | the new tables are `PostModel.Destroy` of the old; on a foreign key error nothing changes |
| Database.DestroyEach | app/models/user.rb:3 | destroying the user's sessions one by one leaves exactly the sessions of other users |
| ApplicationController.SignIn | app/controllers/application_controller.rb:8-21 | the tables become `SignedIn` of the old ones; `Current.session` is the new session; the signed cookie for its id is set with HttpOnly, permanent and the configured Secure flag; returns true |
| ApplicationController.UserAuthenticated | app/controllers/application_controller.rb:23-32 | returns true iff `Current.session` ends up set, which happens exactly when it already was or the cookie names an existing session |
| ApplicationController.EnsureUserAuthenticated | app/controllers/application_controller.rb:34-38 | halts with a redirect to the root path (302) iff the request is not authenticated |
| AuthenticatedConstraint.Matches | app/constraints/authenticated_constraint.rb:2-11 | true iff the request's `session_token` cookie names an existing session; sets `Current.session` to it only then; reads the cookies the request carried and writes none |
| SessionsController.New | app/controllers/sessions_controller.rb:3-11 | renders the sign-in form (200) after the non-halting `user_authenticated?` |
| SessionsController.Create | app/controllers/sessions_controller.rb:13-26 | a bad form is a 400/500 that writes nothing; a redirect to a user page (303) means that user authenticated and was signed in with the cookie set; if no user authenticates, a 302 to the sign-in page with the screen name hint and nothing written |
| SessionsController.Destroy | app/controllers/sessions_controller.rb:29-43 | not authenticated: redirect home; otherwise the current user's own session with that id is destroyed and the user redirected (303), and any other id is a 404 that writes nothing |
| UsersController.Show | app/controllers/users_controller.rb:3-11 | renders the user's page iff the id names a user, else a 404 |
| UsersController.New | app/controllers/users_controller.rb:13-16 | renders the sign-up form |
| UsersController.Create | app/controllers/users_controller.rb:18-27 | a bad form is a 400/500; a valid sign-up saves `UserModel.Create` and redirects to the new user (302) without signing in; an invalid one re-renders the form with 422 and writes nothing |
| UsersController.Edit | app/controllers/users_controller.rb:29-36 | renders the edit form iff authenticated, otherwise redirects home |
| UsersController.Update | app/controllers/users_controller.rb:38-45 | not authenticated: redirect home; otherwise the current user is updated with the permitted params and redirected (303), or the form is re-rendered with 422 and nothing written |
| UsersController.Destroy | app/controllers/users_controller.rb:47-51 | not authenticated: redirect home; otherwise the current user and their sessions are deleted and the browser sent to `users_url` (303), or, if a post or comment references them, a 500 that writes nothing |
| RequestCycle.Dispatch | config/routes.rb:3-25 | a public action never deletes a user or session; the only cookie any action sets is the sign-in cookie on a successful `sessions#create`; actions outside the model are delegated and write nothing; with a current session or on a public route, no action redirects to the root path |
| RequestCycle.Handle | app/controllers/application_controller.rb:4 | an unrecognised request is a 404 that writes nothing; when the `session_token` cookie resolves to no session, no user or session is deleted; the response sets no cookie or exactly the sign-in cookie; the response is never the controllers' redirect to the root path |

## Left out

- BenchmarkingController, the fade Stimulus controller, the Litestream verification job, the posts migration and the test helper: outside the authentication core.
- PostsController, `rails/health#show` and `rails/pwa#*`: their sources are not part of this model. Routing to them is modelled, and the request cycle answers them as `Delegated` without changing the database. The Post model's own create and destroy are modelled.
- The `Session` and `Current` models are not part of this model. `Session::COOKIE_KEY` is a configuration parameter, and `Current.user` is taken to be the owner of `Current.session`.
- Cryptography: bcrypt is an idealised, collision-free digest of the password. Cookie signing is a tag that an attacker cannot produce. `authenticate_by`'s timing equalisation is not modelled.
- Views, flash messages (`notice:`, `alert:`) and the response bodies: a response is only its redirect target or template and its status.
- Forgery protection: `ActionController::Base` checks an authenticity token before every non-GET action, but this is not modelled; every POST, PATCH, PUT and DELETE request is taken to carry a valid token.
- `allow_browser`: the browser-version check, which answers 406 to old browsers, is not modelled; every request is taken to come from a supported browser.
- The `created_at` and `updated_at` timestamps, `published_at` and the comment columns beyond their foreign keys: no modelled behaviour reads them.
- `comments_count` is not maintained, because the Comment model is not part of this model.
- Concurrency between requests, and the database's locking: each request runs alone.
- Routing: `(.:format)` suffixes, HEAD requests, percent-decoding and trailing slashes are not modelled.
- Http.ToId: `String#to_i`'s leading whitespace, sign and underscores, and ActiveRecord's integer range check, are not modelled. An id is the value of the leading digits.
- UserModel.Errors: bcrypt's limit is 72 bytes; the model counts 72 characters, because strings are sequences of characters without an encoding.
- Http.Scalar: array parameters (`key[]=`) are not modelled; a permitted key keeps only string values.
- RequestCycle.Handle: the router calls `matches?` at most once per request here. Rails may call it for each gated route it tries, but its answer and its effect are the same each time, because only a yes writes `Current.session`.
- Request-scoped state ends with the request: `Current` is reset and only the Set-Cookie entries and the database survive.
