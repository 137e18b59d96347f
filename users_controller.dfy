/**
 * app/controllers/users_controller.rb: the public profile page and sign-up, and editing and
 * deleting one's own profile. `show`, `new` and `create` skip `ensure_user_authenticated!` and run
 * `user_authenticated?` instead; `edit`, `update` and `destroy` keep the guard and act on
 * `Current.user`, the owner of the current session, never on an id from the request.
 */
module UsersController {
  import opened Wrappers
  import opened Schema
  import opened Cookies
  import opened Sessions
  import opened Auth
  import opened Integrity
  import opened Http
  import opened Database
  import opened Current
  import opened ApplicationController
  import UserModel

  /** GET /users/:id: the user's page, or 404 when `User.find` finds nobody. */
  method Show(db: Db, ctx: Context, cfg: Config, id: string) returns (resp: Response)
    modifies ctx
    ensures resp == if ToId(id) in db.tables.users then Render(UsersShow, OK) else Failure(NOT_FOUND)
    ensures ctx.session == Authenticated(db.tables, old(ctx.session), old(ctx.jar), cfg.cookieKey)
    ensures ctx.jar == old(ctx.jar) && ctx.setCookies == old(ctx.setCookies)
  {
    var _ := UserAuthenticated(db, ctx, cfg);
    var user := db.FindUser(ToId(id));
    if user.None? {
      return Failure(NOT_FOUND);
    }
    resp := Render(UsersShow, OK);
  }

  /** GET /users/new and GET /sign_up: the sign-up form. */
  method New(db: Db, ctx: Context, cfg: Config) returns (resp: Response)
    modifies ctx
    ensures resp == Render(UsersNew, OK)
    ensures ctx.session == Authenticated(db.tables, old(ctx.session), old(ctx.jar), cfg.cookieKey)
    ensures ctx.jar == old(ctx.jar) && ctx.setCookies == old(ctx.setCookies)
  {
    var _ := UserAuthenticated(db, ctx, cfg);
    resp := Render(UsersNew, OK);
  }

  /** POST /users: sign-up. A saved user is redirected to their page (302) but not signed in: no
      session and no cookie is made. A rejected one gets the form back with 422. */
  method Create(db: Db, ctx: Context, cfg: Config) returns (resp: Response)
    requires db.Valid()
    modifies db, ctx
    ensures db.Valid()
    ensures var a := UserParams(ctx.request.params);
      && (a.Err? ==> resp == ParamFailure(a.error) && db.tables == old(db.tables))
      && (a.Ok? && UserModel.Create(old(db.tables), a.value).Ok? ==>
            resp == Redirect(UserPage(UserModel.NextUserId(old(db.tables))), FOUND)
            && db.tables == UserModel.Create(old(db.tables), a.value).value)
      && (a.Ok? && UserModel.Create(old(db.tables), a.value).Err? ==>
            resp == Render(UsersNew, UNPROCESSABLE_ENTITY) && db.tables == old(db.tables))
    ensures ctx.session == Authenticated(old(db.tables), old(ctx.session), old(ctx.jar), cfg.cookieKey)
    ensures ctx.jar == old(ctx.jar) && ctx.setCookies == old(ctx.setCookies)
  {
    var _ := UserAuthenticated(db, ctx, cfg);
    var a := UserParams(ctx.request.params);
    if a.Err? {
      return ParamFailure(a.error);
    }
    var created := db.CreateUser(a.value);
    if created.Ok? {
      resp := Redirect(UserPage(created.value), FOUND);
    } else {
      resp := Render(UsersNew, UNPROCESSABLE_ENTITY);
    }
  }

  /** GET /user/edit: the guard, then the form for Current.user. */
  method Edit(db: Db, ctx: Context, cfg: Config) returns (resp: Response)
    modifies ctx
    ensures ctx.session == Authenticated(db.tables, old(ctx.session), old(ctx.jar), cfg.cookieKey)
    ensures resp == if ctx.session.Some? then Render(UsersEdit, OK) else Redirect(Root, FOUND)
    ensures ctx.jar == old(ctx.jar) && ctx.setCookies == old(ctx.setCookies)
  {
    var halt := EnsureUserAuthenticated(db, ctx, cfg);
    if halt.Some? {
      return halt.value;
    }
    resp := Render(UsersEdit, OK);
  }

  /** PATCH and PUT /user: the guard, then `Current.user.update(user_params)`; saved it redirects to
      the user's page with 303, rejected it shows the form again with 422. */
  method Update(db: Db, ctx: Context, cfg: Config) returns (resp: Response)
    requires db.Valid() && Live(db.tables, ctx.session)
    modifies db, ctx
    ensures db.Valid()
    ensures ctx.session == Authenticated(old(db.tables), old(ctx.session), old(ctx.jar), cfg.cookieKey)
    ensures ctx.session.None? ==> resp == Redirect(Root, FOUND) && db.tables == old(db.tables)
    ensures ctx.session.Some? ==>
      var u := ctx.session.value.session.userId; var a := UserParams(ctx.request.params);
      && u in old(db.tables).users
      && (a.Err? ==> resp == ParamFailure(a.error) && db.tables == old(db.tables))
      && (a.Ok? && UserModel.Update(old(db.tables), u, a.value).Ok? ==>
            resp == Redirect(UserPage(u), SEE_OTHER) && db.tables == UserModel.Update(old(db.tables), u, a.value).value)
      && (a.Ok? && UserModel.Update(old(db.tables), u, a.value).Err? ==>
            resp == Render(UsersEdit, UNPROCESSABLE_ENTITY) && db.tables == old(db.tables))
    ensures ctx.jar == old(ctx.jar) && ctx.setCookies == old(ctx.setCookies)
  {
    AuthenticatedIff(db.tables, ctx.session, ctx.jar, cfg.cookieKey);
    var halt := EnsureUserAuthenticated(db, ctx, cfg);
    if halt.Some? {
      return halt.value;
    }
    var u := ctx.session.value.session.userId;
    var a := UserParams(ctx.request.params);
    if a.Err? {
      return ParamFailure(a.error);
    }
    var saved := db.UpdateUser(u, a.value);
    if saved {
      resp := Redirect(UserPage(u), SEE_OTHER);
    } else {
      resp := Render(UsersEdit, UNPROCESSABLE_ENTITY);
    }
  }

  /** DELETE /user: the guard, then `Current.user.destroy!`. Deleted, the browser is sent to
      `users_url` with 303; when a post or comment still refers to the user the delete raises and
      nothing is written (500). */
  method Destroy(db: Db, ctx: Context, cfg: Config) returns (resp: Response)
    requires db.Valid() && Live(db.tables, ctx.session)
    modifies db, ctx
    ensures db.Valid()
    ensures ctx.session == Authenticated(old(db.tables), old(ctx.session), old(ctx.jar), cfg.cookieKey)
    ensures ctx.session.None? ==> resp == Redirect(Root, FOUND) && db.tables == old(db.tables)
    ensures ctx.session.Some? ==>
      var u := ctx.session.value.session.userId;
      && u in old(db.tables).users
      && (UserModel.Destroy(old(db.tables), u).Ok? ==>
            resp == Redirect(UsersIndex, SEE_OTHER) && db.tables == UserModel.Destroy(old(db.tables), u).value)
      && (UserModel.Destroy(old(db.tables), u).Err? ==>
            resp == Failure(INTERNAL_SERVER_ERROR) && db.tables == old(db.tables))
    ensures ctx.jar == old(ctx.jar) && ctx.setCookies == old(ctx.setCookies)
  {
    AuthenticatedIff(db.tables, ctx.session, ctx.jar, cfg.cookieKey);
    var halt := EnsureUserAuthenticated(db, ctx, cfg);
    if halt.Some? {
      return halt.value;
    }
    var u := ctx.session.value.session.userId;
    var r := db.DestroyUser(u);
    if r.Ok? {
      resp := Redirect(UsersIndex, SEE_OTHER);
    } else {
      resp := Failure(INTERNAL_SERVER_ERROR);
    }
  }
}
