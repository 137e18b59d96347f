/**
 * app/models/post.rb: a post belongs to a user whose `posts_count` is its counter cache, and its title
 * must be present, unique and at least five characters long.
 */
module PostModel {
  import opened Wrappers
  import opened Support
  import opened Schema

  /** `length: { minimum: 5 }` on the title. */
  const MIN_TITLE_LENGTH: nat := 5

  datatype PostError =
    | TitleBlank      // presence: true
    | TitleTaken      // uniqueness: true
    | TitleTooShort   // length: { minimum: 5 }; a nil title has length 0
    | UserMissing     // belongs_to :user is required: "must exist"

  /** The attributes `Post.new` is given. */
  datatype PostAttrs = PostAttrs(
    userId: Option<Id>,
    title: Option<string>,
    description: Option<string>,
    publishedAt: Option<Time>)

  predicate TitleTakenBy(posts: map<Id, Post>, title: string)
  {
    exists p :: p in posts && posts[p].title == title
  }

  /** The errors validation reports for a new post. */
  function Errors(t: Tables, a: PostAttrs): set<PostError>
  {
    (if !Present(a.title) then {TitleBlank} else {})
    + (if a.title.Some? && TitleTakenBy(t.posts, a.title.value) then {TitleTaken} else {})
    + (if a.title.None? || |a.title.value| < MIN_TITLE_LENGTH then {TitleTooShort} else {})
    + (if a.userId.None? || a.userId.value !in t.users then {UserMissing} else {})
  }

  /** What every saved post satisfies on its own. */
  predicate PostsValid(posts: map<Id, Post>)
  {
    forall p :: p in posts ==> !Blank(posts[p].title) && |posts[p].title| >= MIN_TITLE_LENGTH
  }

  /** The counter cache is right: each user's `posts_count` is the number of their posts. */
  predicate CountersAgree(t: Tables)
  {
    forall u :: u in t.users ==> t.users[u].postsCount == |PostsOf(t.posts, u)|
  }

  /** The id the next post gets. */
  function NextPostId(t: Tables): Id
  {
    t.postSeq + 1
  }

  /** `Post.create(attrs)`: validate, then insert the row with `comments_count` 0 and bump the
      owner's `posts_count` (counter_cache). */
  function Create(t: Tables, a: PostAttrs): Result<Tables, set<PostError>>
  {
    var errors := Errors(t, a);
    if errors != {} then Err(errors)
    else
      var u := a.userId.value;
      var row := Post(u, a.title.value, a.description, a.publishedAt, 0);
      Ok(t.(posts := t.posts[NextPostId(t) := row],
            postSeq := NextPostId(t),
            users := t.users[u := t.users[u].(postsCount := t.users[u].postsCount + 1)]))
  }

  datatype DestroyError = InvalidForeignKey

  /** `post.destroy`: the counter cache decrements the owner's `posts_count` and the row is deleted; a
      comment that still references the post makes the delete fail and the transaction roll back. */
  function Destroy(t: Tables, p: Id): Result<Tables, DestroyError>
    requires p in t.posts
  {
    if PostReferenced(t, p) then Err(InvalidForeignKey)
    else
      var u := t.posts[p].userId;
      var users := if u in t.users then t.users[u := t.users[u].(postsCount := t.users[u].postsCount - 1)]
                   else t.users;
      Ok(t.(posts := t.posts - {p}, users := users))
  }

  /** Creation succeeds exactly when the title is present, long enough and unused, and the owner
      exists. */
  lemma CreateAcceptsExactly(t: Tables, a: PostAttrs)
    ensures Create(t, a).Ok? <==>
      && Present(a.title) && |a.title.value| >= MIN_TITLE_LENGTH
      && !TitleTakenBy(t.posts, a.title.value)
      && a.userId.Some? && a.userId.value in t.users
  {
    if Create(t, a).Ok? {
      assert TitleBlank !in Errors(t, a);
      assert TitleTooShort !in Errors(t, a);
      assert TitleTaken !in Errors(t, a);
      assert UserMissing !in Errors(t, a);
    }
  }

  /** With no validation error, create inserts the row and bumps the counter of an existing owner. */
  lemma CreateWhenValid(t: Tables, a: PostAttrs)
    requires Errors(t, a) == {}
    ensures a.title.Some? && a.userId.Some? && a.userId.value in t.users
    ensures var u := a.userId.value;
      Create(t, a) == Ok(t.(posts := t.posts[NextPostId(t) := Post(u, a.title.value, a.description, a.publishedAt, 0)],
                            postSeq := NextPostId(t),
                            users := t.users[u := t.users[u].(postsCount := t.users[u].postsCount + 1)]))
  {
    assert UserMissing !in Errors(t, a) && TitleTooShort !in Errors(t, a);
  }

  /** A successful create adds exactly one post, with the given fields and `comments_count` 0, and
      raises only its owner's `posts_count`, by one. Sessions and comments are untouched. */
  lemma CreateAddsOnePost(t: Tables, a: PostAttrs)
    requires Wf(t)
    requires Create(t, a).Ok?
    ensures var t' := Create(t, a).value; var id := NextPostId(t); var u := a.userId.value;
      && id !in t.posts
      && t'.posts == t.posts[id := Post(u, a.title.value, a.description, a.publishedAt, 0)]
      && t'.users.Keys == t.users.Keys
      && t'.users[u].postsCount == t.users[u].postsCount + 1
      && (forall v :: v in t.users && v != u ==> t'.users[v] == t.users[v])
      && t'.sessions == t.sessions && t'.comments == t.comments
  {
  }

  /** Inserting a fresh post adds its id to its owner's posts and to nobody else's. */
  lemma {:induction false} PostsOfInsert(posts: map<Id, Post>, id: Id, row: Post, v: Id)
    requires id !in posts
    ensures PostsOf(posts[id := row], v) == if row.userId == v then PostsOf(posts, v) + {id} else PostsOf(posts, v)
    ensures |PostsOf(posts[id := row], v)| == |PostsOf(posts, v)| + if row.userId == v then 1 else 0
  {
    var after := PostsOf(posts[id := row], v);
    if row.userId == v {
      assert after == PostsOf(posts, v) + {id};
      assert id !in PostsOf(posts, v);
    } else {
      assert after == PostsOf(posts, v);
    }
  }

  /** Removing a post removes its id from its owner's posts and from nobody else's. */
  lemma {:induction false} PostsOfRemove(posts: map<Id, Post>, id: Id, v: Id)
    requires id in posts
    ensures PostsOf(posts - {id}, v) == if posts[id].userId == v then PostsOf(posts, v) - {id} else PostsOf(posts, v)
    ensures |PostsOf(posts - {id}, v)| == |PostsOf(posts, v)| - if posts[id].userId == v then 1 else 0
  {
    var after := PostsOf(posts - {id}, v);
    if posts[id].userId == v {
      assert after == PostsOf(posts, v) - {id};
      assert id in PostsOf(posts, v);
    } else {
      assert after == PostsOf(posts, v);
    }
  }

  /** Create keeps the counter cache right. */
  lemma {:induction false} CreateKeepsCounters(t: Tables, a: PostAttrs)
    requires Wf(t) && CountersAgree(t)
    requires Create(t, a).Ok?
    ensures CountersAgree(Create(t, a).value)
  {
    var t' := Create(t, a).value;
    var id := NextPostId(t);
    CreateAddsOnePost(t, a);
    forall v | v in t'.users
      ensures t'.users[v].postsCount == |PostsOf(t'.posts, v)|
    {
      PostsOfInsert(t.posts, id, t'.posts[id], v);
    }
  }

  /** Create keeps titles unique: the validation refused a title already in use. */
  lemma {:induction false} CreateKeepsTitlesUnique(t: Tables, a: PostAttrs)
    requires Wf(t)
    requires Create(t, a).Ok?
    ensures TitlesUnique(Create(t, a).value.posts)
  {
    var posts' := Create(t, a).value.posts;
    var id := NextPostId(t);
    CreateAcceptsExactly(t, a);
    CreateAddsOnePost(t, a);
    forall x, y | x in posts' && y in posts' && posts'[x].title == posts'[y].title
      ensures x == y
    {
    }
  }

  /** Create keeps the foreign keys and the issued-id bounds. */
  lemma {:induction false} CreateKeepsReferences(t: Tables, a: PostAttrs)
    requires Wf(t)
    requires Create(t, a).Ok?
    ensures var t' := Create(t, a).value;
      SessionsReferenceUsers(t') && PostsReferenceUsers(t') && CommentsReferencePostsAndUsers(t')
      && ScreenNamesUnique(t'.users) && AllIdsIssued(t')
  {
    CreateAcceptsExactly(t, a);
    CreateAddsOnePost(t, a);
  }

  /** Create keeps the schema's invariants, the per-row validations and the counter cache. */
  lemma {:induction false} CreatePreserves(t: Tables, a: PostAttrs)
    requires Wf(t) && PostsValid(t.posts) && CountersAgree(t)
    requires Create(t, a).Ok?
    ensures var t' := Create(t, a).value; Wf(t') && PostsValid(t'.posts) && CountersAgree(t')
  {
    CreateAcceptsExactly(t, a);
    CreateKeepsReferences(t, a);
    CreateKeepsCounters(t, a);
    CreateKeepsTitlesUnique(t, a);
  }

  /** Destroy fails exactly when a comment references the post; otherwise the row is gone and its
      owner's `posts_count` is one lower. */
  lemma DestroyOutcome(t: Tables, p: Id)
    requires Wf(t) && p in t.posts
    ensures Destroy(t, p).Err? <==> PostReferenced(t, p)
    ensures Destroy(t, p).Ok? ==>
      var t' := Destroy(t, p).value; var u := t.posts[p].userId;
      && t'.posts == t.posts - {p}
      && t'.users.Keys == t.users.Keys
      && t'.users[u].postsCount == t.users[u].postsCount - 1
      && (forall v :: v in t.users && v != u ==> t'.users[v] == t.users[v])
      && t'.sessions == t.sessions && t'.comments == t.comments
  {
  }

  /** Without a referencing comment, destroy deletes the row and decrements the owner's counter. */
  lemma DestroyWhenUnreferenced(t: Tables, p: Id)
    requires p in t.posts && t.posts[p].userId in t.users && !PostReferenced(t, p)
    ensures var u := t.posts[p].userId;
      Destroy(t, p) == Ok(t.(posts := t.posts - {p},
                             users := t.users[u := t.users[u].(postsCount := t.users[u].postsCount - 1)]))
  {
  }

  /** Destroy keeps the counter cache right. */
  lemma {:induction false} DestroyKeepsCounters(t: Tables, p: Id)
    requires Wf(t) && CountersAgree(t)
    requires p in t.posts && Destroy(t, p).Ok?
    ensures CountersAgree(Destroy(t, p).value)
  {
    var t' := Destroy(t, p).value;
    DestroyOutcome(t, p);
    forall v | v in t'.users
      ensures t'.users[v].postsCount == |PostsOf(t'.posts, v)|
    {
      PostsOfRemove(t.posts, p, v);
    }
  }

  /** Destroy keeps the foreign keys: no comment referenced the deleted post. */
  lemma {:induction false} DestroyKeepsReferences(t: Tables, p: Id)
    requires Wf(t) && p in t.posts && Destroy(t, p).Ok?
    ensures Wf(Destroy(t, p).value)
  {
    var t' := Destroy(t, p).value;
    DestroyOutcome(t, p);
    forall c | c in t'.comments
      ensures t'.comments[c].postId in t'.posts
    {
      assert t.comments[c].postId != p;
    }
  }

  /** Destroy keeps the schema's invariants, the per-row validations and the counter cache. */
  lemma {:induction false} DestroyPreserves(t: Tables, p: Id)
    requires Wf(t) && PostsValid(t.posts) && CountersAgree(t)
    requires p in t.posts && Destroy(t, p).Ok?
    ensures var t' := Destroy(t, p).value; Wf(t') && PostsValid(t'.posts) && CountersAgree(t')
  {
    DestroyOutcome(t, p);
    DestroyKeepsCounters(t, p);
    DestroyKeepsReferences(t, p);
  }
}
