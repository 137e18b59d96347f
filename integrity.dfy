/**
 * The invariant every committed state keeps: the schema's constraints, the per-row validations of the
 * User and Post models, and the posts_count counter cache. One lemma per table operation shows it kept.
 */
module Integrity {
  import opened Wrappers
  import opened Schema
  import opened Cookies
  import opened Sessions
  import UserModel
  import PostModel

  predicate Consistent(t: Tables)
  {
    && Wf(t)
    && UserModel.UsersValid(t.users)
    && PostModel.PostsValid(t.posts)
    && PostModel.CountersAgree(t)
  }

  lemma EmptyConsistent()
    ensures Consistent(EMPTY)
  {
  }

  /** Sign-up keeps the invariant; the new user starts with `posts_count` 0 and indeed has no post. */
  lemma {:induction false} UserCreateKeeps(t: Tables, a: UserModel.UserAttrs)
    requires Consistent(t) && UserModel.Create(t, a).Ok?
    ensures Consistent(UserModel.Create(t, a).value)
  {
    var t' := UserModel.Create(t, a).value;
    var id := UserModel.NextUserId(t);
    UserModel.CreatePreserves(t, a);
    UserModel.CreateAddsOneUser(t, a);
    NoPostsOfMissingUser(t, id);
    assert PostModel.CountersAgree(t');
  }

  /** A validated save of user `u` keeps the invariant when it keeps `posts_count`. */
  lemma {:induction false} UserSaveKeeps(t: Tables, u: Id, d: UserModel.Draft)
    requires Consistent(t) && u in t.users && UserModel.Save(t, u, d).Ok?
    requires d.postsCount == t.users[u].postsCount
    ensures Consistent(UserModel.Save(t, u, d).value)
  {
    UserModel.SavePreserves(t, u, d);
  }

  lemma {:induction false} UserUpdateKeeps(t: Tables, u: Id, a: UserModel.UserAttrs)
    requires Consistent(t) && u in t.users && UserModel.Update(t, u, a).Ok?
    ensures Consistent(UserModel.Update(t, u, a).value)
  {
    UserSaveKeeps(t, u, UserModel.Assign(UserModel.Loaded(t.users[u]), a));
  }

  lemma {:induction false} UserTouchKeeps(t: Tables, u: Id, now: Time)
    requires Consistent(t) && u in t.users
    ensures UserModel.Touch(t, u, now).Ok? && Consistent(UserModel.Touch(t, u, now).value)
  {
    UserModel.TouchSucceeds(t, u, now);
    UserSaveKeeps(t, u, UserModel.Loaded(t.users[u]).(lastSeenAt := Some(now)));
  }

  lemma {:induction false} UserDestroyKeeps(t: Tables, u: Id)
    requires Consistent(t) && u in t.users && UserModel.Destroy(t, u).Ok?
    ensures Consistent(UserModel.Destroy(t, u).value)
  {
    UserModel.DestroyPreserves(t, u);
  }

  lemma {:induction false} PostCreateKeeps(t: Tables, a: PostModel.PostAttrs)
    requires Consistent(t) && PostModel.Create(t, a).Ok?
    ensures Consistent(PostModel.Create(t, a).value)
  {
    PostModel.CreatePreserves(t, a);
    PostModel.CreateAddsOnePost(t, a);
    var t' := PostModel.Create(t, a).value;
    assert forall v :: v in t'.users ==> t'.users[v].screenName == t.users[v].screenName;
  }

  lemma {:induction false} PostDestroyKeeps(t: Tables, p: Id)
    requires Consistent(t) && p in t.posts && PostModel.Destroy(t, p).Ok?
    ensures Consistent(PostModel.Destroy(t, p).value)
  {
    PostModel.DestroyPreserves(t, p);
    PostModel.DestroyOutcome(t, p);
    var t' := PostModel.Destroy(t, p).value;
    assert forall v :: v in t'.users ==> t'.users[v].screenName == t.users[v].screenName;
  }

  lemma {:induction false} SessionInsertKeeps(t: Tables, u: Id, userAgent: Option<string>, ipAddress: Option<string>)
    requires Consistent(t) && u in t.users
    ensures Consistent(Insert(t, u, userAgent, ipAddress))
  {
    InsertAddsOneSession(t, u, userAgent, ipAddress);
  }

  lemma {:induction false} SessionDeleteKeeps(t: Tables, s: Id)
    requires Consistent(t)
    ensures Consistent(Delete(t, s))
  {
    DeleteRemovesOneSession(t, s);
  }
}
