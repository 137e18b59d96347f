/**
 * The database as ActiveRecord changes it: the four tables with their AUTOINCREMENT counters as one
 * field that each write replaces. Each writing method is tied to the table operation it performs,
 * and keeps the invariant Consistent.
 */
module Database {
  import opened Wrappers
  import opened Schema
  import opened Sessions
  import opened Integrity
  import UserModel
  import PostModel

  class Db {
    /** Every table with its AUTOINCREMENT counter; each write replaces it. */
    var tables: Tables

    predicate Valid()
      reads this
    {
      Consistent(tables)
    }

    /** `db:schema:load`: every table empty. */
    constructor ()
      ensures Valid() && tables == EMPTY
    {
      tables := EMPTY;
      EmptyConsistent();
    }

    /** `Session.find_by(id:)`. */
    method FindSession(id: Option<Id>) returns (r: Option<CurrentSession>)
      ensures r == Find(tables, id)
    {
      if id.Some? && id.value in tables.sessions {
        r := Some(CurrentSession(id.value, tables.sessions[id.value]));
      } else {
        r := None;
      }
    }

    /** `user.sessions.find(id)`: the lookup is scoped to the tables.sessions `owner` owns, so a session of
        anybody else is not found. */
    method FindSessionOf(owner: Id, id: Id) returns (r: Option<CurrentSession>)
      ensures r.Some? <==> id in tables.sessions && tables.sessions[id].userId == owner
      ensures r.Some? ==> r.value == CurrentSession(id, tables.sessions[id])
    {
      var owned := SessionsOf(tables.sessions, owner);
      if id in owned {
        r := Some(CurrentSession(id, tables.sessions[id]));
      } else {
        r := None;
      }
    }

    /** `User.find(id)`. */
    method FindUser(id: Id) returns (r: Option<User>)
      ensures r.Some? <==> id in tables.users
      ensures r.Some? ==> r.value == tables.users[id]
    {
      r := if id in tables.users then Some(tables.users[id]) else None;
    }

    /** `User.authenticate_by(screen_name:, password:)`: a blank password finds nobody; otherwise the
        user with that screen name is returned if the password matches their digest. */
    method AuthenticateBy(screenName: Option<string>, password: Option<string>) returns (r: Option<Id>)
      requires Valid()
      ensures r.Some? ==> UserModel.Authenticates(tables, r.value, screenName, password)
      ensures r.None? ==> forall u :: !UserModel.Authenticates(tables, u, screenName, password)
    {
      if password.None? || password.value == "" || screenName.None? {
        return None;
      }
      var name := screenName.value;
      // find_by(screen_name:): scan the ids AUTOINCREMENT has issued
      var found: Option<Id> := None;
      var id := 1;
      while id <= tables.userSeq
        invariant 1 <= id <= tables.userSeq + 1
        invariant found.Some? ==> found.value in tables.users && tables.users[found.value].screenName == name
        invariant found.None? ==> forall v :: 0 < v < id && v in tables.users ==> tables.users[v].screenName != name
      {
        if found.None? && id in tables.users && tables.users[id].screenName == name {
          found := Some(id);
        }
        id := id + 1;
      }
      if found.Some? && tables.users[found.value].passwordDigest == BCrypt(password.value) {
        r := found;
      } else {
        r := None;
        if found.Some? {
          forall u | UserModel.Authenticates(tables, u, screenName, password)
            ensures false
          {
          }
        }
      }
    }

    /** `User.new(attrs).save`. */
    method CreateUser(a: UserModel.UserAttrs) returns (r: Result<Id, set<UserModel.UserError>>)
      requires Valid()
      modifies this
      ensures Valid()
      ensures r.Ok? <==> UserModel.Create(old(tables), a).Ok?
      ensures r.Ok? ==> r.value == old(tables.userSeq) + 1 && tables == UserModel.Create(old(tables), a).value
      ensures r.Err? ==> r.error == UserModel.Create(old(tables), a).error && tables == old(tables)
    {
      var d := UserModel.Assign(UserModel.NEW_DRAFT, a);
      var errors := UserModel.Errors(tables.users, None, d);
      if errors != {} {
        return Err(errors);
      }
      UserModel.CreateWhenValid(tables, a);
      UserCreateKeeps(tables, a);
      ghost var expected := UserModel.Create(tables, a).value;
      var id := tables.userSeq + 1;
      tables := tables.(users := tables.users[id := UserModel.ToRow(d)], userSeq := id);
      assert tables == expected;
      r := Ok(id);
    }

    /** `user.update(attrs)`: true when saved. */
    method UpdateUser(u: Id, a: UserModel.UserAttrs) returns (saved: bool)
      requires Valid() && u in tables.users
      modifies this
      ensures Valid()
      ensures saved <==> UserModel.Update(old(tables), u, a).Ok?
      ensures tables == if saved then UserModel.Update(old(tables), u, a).value else old(tables)
    {
      var d := UserModel.Assign(UserModel.Loaded(tables.users[u]), a);
      if UserModel.Errors(tables.users, Some(u), d) != {} {
        return false;
      }
      UserUpdateKeeps(tables, u, a);
      tables := tables.(users := tables.users[u := UserModel.ToRow(d)]);
      saved := true;
    }

    /** `user.update!(last_seen_at: now)`; on a valid database validation always passes. */
    method TouchLastSeen(u: Id, now: Time)
      requires Valid() && u in tables.users
      modifies this
      ensures Valid()
      ensures tables == UserModel.Touch(old(tables), u, now).value
      ensures tables.users == old(tables.users)[u := old(tables.users)[u].(lastSeenAt := Some(now))]
    {
      UserTouchKeeps(tables, u, now);
      UserModel.TouchSucceeds(tables, u, now);
      tables := tables.(users := tables.users[u := tables.users[u].(lastSeenAt := Some(now))]);
    }

    /** `user.destroy!` in its transaction: destroy each of the user's sessions, then delete the
        user; if a post or comment still references the user the delete fails and the transaction
        rolls back, writing nothing. */
    method DestroyUser(u: Id) returns (r: Result<(), UserModel.DestroyError>)
      requires Valid() && u in tables.users
      modifies this
      ensures Valid()
      ensures r.Ok? <==> UserModel.Destroy(old(tables), u).Ok?
      ensures r.Ok? ==> tables == UserModel.Destroy(old(tables), u).value
      ensures r.Err? ==> r.error == UserModel.InvalidForeignKey && tables == old(tables)
    {
      var sessions := DestroyEach(tables.sessions, u);
      if UserReferenced(tables, u) {
        return Err(UserModel.InvalidForeignKey);
      }
      UserModel.DestroyWhenUnreferenced(tables, u);
      UserDestroyKeeps(tables, u);
      tables := tables.(sessions := sessions, users := tables.users - {u});
      r := Ok(());
    }

    /** `user.sessions.create!(user_agent:, ip_address:)`; returns the new session's id. */
    method CreateSession(u: Id, userAgent: Option<string>, ipAddress: Option<string>) returns (s: Id)
      requires Valid() && u in tables.users
      modifies this
      ensures Valid()
      ensures s == old(tables.sessionSeq) + 1 && s !in old(tables.sessions)
      ensures tables == Insert(old(tables), u, userAgent, ipAddress)
    {
      SessionInsertKeeps(tables, u, userAgent, ipAddress);
      s := tables.sessionSeq + 1;
      tables := tables.(sessions := tables.sessions[s := Session(u, userAgent, ipAddress)], sessionSeq := s);
    }

    /** `session.destroy!`. */
    method DestroySession(s: Id)
      requires Valid()
      modifies this
      ensures Valid()
      ensures tables == Delete(old(tables), s)
    {
      SessionDeleteKeeps(tables, s);
      tables := tables.(sessions := tables.sessions - {s});
    }

    /** `Post.create(attrs)` with the counter cache: the owner's `posts_count` goes up by one. */
    method CreatePost(a: PostModel.PostAttrs) returns (r: Result<Id, set<PostModel.PostError>>)
      requires Valid()
      modifies this
      ensures Valid()
      ensures r.Ok? <==> PostModel.Create(old(tables), a).Ok?
      ensures r.Ok? ==> r.value == old(tables.postSeq) + 1 && tables == PostModel.Create(old(tables), a).value
      ensures r.Err? ==> r.error == PostModel.Create(old(tables), a).error && tables == old(tables)
    {
      var errors := PostModel.Errors(tables, a);
      if errors != {} {
        return Err(errors);
      }
      PostModel.CreateWhenValid(tables, a);
      PostCreateKeeps(tables, a);
      ghost var expected := PostModel.Create(tables, a).value;
      var id := tables.postSeq + 1;
      var u := a.userId.value;
      tables := tables.(posts := tables.posts[id := Post(u, a.title.value, a.description, a.publishedAt, 0)], postSeq := id);
      tables := tables.(users := tables.users[u := tables.users[u].(postsCount := tables.users[u].postsCount + 1)]);
      assert tables == expected;
      r := Ok(id);
    }

    /** `post.destroy` with the counter cache: the owner's `posts_count` goes down by one. */
    method DestroyPost(p: Id) returns (r: Result<(), PostModel.DestroyError>)
      requires Valid() && p in tables.posts
      modifies this
      ensures Valid()
      ensures r.Ok? <==> PostModel.Destroy(old(tables), p).Ok?
      ensures r.Ok? ==> tables == PostModel.Destroy(old(tables), p).value
      ensures r.Err? ==> r.error == PostModel.InvalidForeignKey && tables == old(tables)
    {
      if PostReferenced(tables, p) {
        return Err(PostModel.InvalidForeignKey);
      }
      PostModel.DestroyWhenUnreferenced(tables, p);
      PostDestroyKeeps(tables, p);
      ghost var expected := PostModel.Destroy(tables, p).value;
      var u := tables.posts[p].userId;
      // The schema's foreign key on posts.user_id guarantees the owner's row exists.
      tables := tables.(users := tables.users[u := tables.users[u].(postsCount := tables.users[u].postsCount - 1)]);
      tables := tables.(posts := tables.posts - {p});
      assert tables == expected;
      r := Ok(());
    }
  }

  /** `dependent: :destroy` on `has_many :sessions`: the sessions `u` owns are destroyed one by
      one; the others are left as they are. */
  method DestroyEach(sessions: map<Id, Session>, u: Id) returns (rest: map<Id, Session>)
    ensures rest == sessions - SessionsOf(sessions, u)
    ensures forall s :: s in rest ==> rest[s].userId != u
  {
    rest := sessions;
    var owned := SessionsOf(sessions, u);
    ghost var destroyed: set<Id> := {};
    while owned != {}
      invariant owned + destroyed == SessionsOf(sessions, u) && owned !! destroyed
      invariant rest == sessions - destroyed
      decreases owned
    {
      var s :| s in owned;
      RemoveOneMore(sessions, destroyed, s);
      rest := rest - {s};
      owned := owned - {s};
      destroyed := destroyed + {s};
    }
  }

  /** Deleting one more key from a map with keys already deleted. */
  lemma RemoveOneMore<V>(m: map<Id, V>, gone: set<Id>, s: Id)
    ensures (m - gone) - {s} == m - (gone + {s})
  {
  }
}
