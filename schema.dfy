/**
 * The four tables of db/schema.rb as values. A NOT NULL column is a plain field, a nullable one an
 * Option; the foreign keys, the unique indexes and the AUTOINCREMENT primary keys form Wf.
 */
module Schema {
  import opened Wrappers

  /** A primary key. SQLite's AUTOINCREMENT hands out 1, 2, 3, ... and never reuses one. */
  type Id = nat

  /** A `datetime` column, as a point on the clock that `Time.current` reads. */
  type Time = int

  /** What has_secure_password stores in `password_digest`: the bcrypt hash of the password,
      idealised as a collision-free tag of it. */
  datatype Digest = BCrypt(password: string)

  datatype User = User(
    screenName: string,
    passwordDigest: Digest,
    about: Option<string>,
    lastSeenAt: Option<Time>,
    postsCount: int)

  datatype Session = Session(
    userId: Id,
    userAgent: Option<string>,
    ipAddress: Option<string>)

  datatype Post = Post(
    userId: Id,
    title: string,
    description: Option<string>,
    publishedAt: Option<Time>,
    commentsCount: int)

  datatype Comment = Comment(
    postId: Id,
    userId: Id,
    body: Option<string>)

  /** The database: one map per table, and per table the largest id AUTOINCREMENT has issued. */
  datatype Tables = Tables(
    users: map<Id, User>,
    sessions: map<Id, Session>,
    posts: map<Id, Post>,
    comments: map<Id, Comment>,
    userSeq: nat,
    sessionSeq: nat,
    postSeq: nat,
    commentSeq: nat)

  /** A freshly loaded schema: every table empty, no id issued yet. */
  const EMPTY: Tables := Tables(map[], map[], map[], map[], 0, 0, 0, 0)

  /** The foreign key from sessions to users (db/schema.rb:59). */
  predicate SessionsReferenceUsers(t: Tables)
  {
    forall s :: s in t.sessions ==> t.sessions[s].userId in t.users
  }

  /** The foreign key from posts to users (db/schema.rb:58). */
  predicate PostsReferenceUsers(t: Tables)
  {
    forall p :: p in t.posts ==> t.posts[p].userId in t.users
  }

  /** The two foreign keys of comments, to posts and to users (db/schema.rb:56-57). */
  predicate CommentsReferencePostsAndUsers(t: Tables)
  {
    forall c :: c in t.comments ==> t.comments[c].postId in t.posts && t.comments[c].userId in t.users
  }

  /** The unique index on users' screen names (db/schema.rb:53). */
  predicate ScreenNamesUnique(users: map<Id, User>)
  {
    forall a, b :: a in users && b in users && users[a].screenName == users[b].screenName ==> a == b
  }

  /** The unique index on post titles (db/schema.rb:32). */
  predicate TitlesUnique(posts: map<Id, Post>)
  {
    forall a, b :: a in posts && b in posts && posts[a].title == posts[b].title ==> a == b
  }

  /** Every id in a table was issued by that table's sequence. */
  predicate IdsIssued<T>(m: map<Id, T>, seqNo: nat)
  {
    forall id :: id in m ==> 0 < id <= seqNo
  }

  predicate AllIdsIssued(t: Tables)
  {
    && IdsIssued(t.users, t.userSeq)
    && IdsIssued(t.sessions, t.sessionSeq)
    && IdsIssued(t.posts, t.postSeq)
    && IdsIssued(t.comments, t.commentSeq)
  }

  /** Everything the schema itself enforces. */
  predicate Wf(t: Tables)
  {
    && SessionsReferenceUsers(t)
    && PostsReferenceUsers(t)
    && CommentsReferencePostsAndUsers(t)
    && ScreenNamesUnique(t.users)
    && TitlesUnique(t.posts)
    && AllIdsIssued(t)
  }

  /** The ids of the sessions a user owns: `user.sessions`. */
  function SessionsOf(sessions: map<Id, Session>, u: Id): set<Id>
  {
    set s | s in sessions && sessions[s].userId == u
  }

  /** The ids of the posts a user owns: `user.posts`. */
  function PostsOf(posts: map<Id, Post>, u: Id): set<Id>
  {
    set p | p in posts && posts[p].userId == u
  }

  /** A row of posts or comments points at the user, so the foreign keys forbid deleting it. */
  predicate UserReferenced(t: Tables, u: Id)
  {
    || (exists p :: p in t.posts && t.posts[p].userId == u)
    || (exists c :: c in t.comments && t.comments[c].userId == u)
  }

  /** A comment points at the post, so the foreign key forbids deleting it. */
  predicate PostReferenced(t: Tables, p: Id)
  {
    exists c :: c in t.comments && t.comments[c].postId == p
  }

  /** The empty schema is well formed. */
  lemma EmptyWf()
    ensures Wf(EMPTY)
  {
  }

  /** The foreign keys make PostsOf of a user that does not exist empty. */
  lemma {:induction false} NoPostsOfMissingUser(t: Tables, u: Id)
    requires PostsReferenceUsers(t) && u !in t.users
    ensures PostsOf(t.posts, u) == {}
  {
  }
}
