/**
 * app/models/user.rb: has_secure_password, `has_many :sessions, dependent: :destroy`, a present and
 * unique screen name, and a password that may be nil but is otherwise at least eight characters.
 */
module UserModel {
  import opened Wrappers
  import opened Support
  import opened Schema

  /** `length: { minimum: 8 }` on the password. */
  const MIN_PASSWORD_LENGTH: nat := 8

  /** has_secure_password refuses passwords longer than bcrypt's 72-byte input. */
  const MAX_PASSWORD_LENGTH: nat := 72

  datatype UserError =
    | ScreenNameBlank               // presence: true
    | ScreenNameTaken               // uniqueness: true
    | PasswordBlank                 // has_secure_password: no digest to store
    | PasswordTooShort              // length: { minimum: 8 }
    | PasswordTooLong               // has_secure_password: not blank and more than 72
    | PasswordConfirmationMismatch  // has_secure_password: not blank, confirmation given and different

  /** The attributes a save is given; None is a key that was not given. */
  datatype UserAttrs = UserAttrs(
    screenName: Option<string>,
    password: Option<string>,
    passwordConfirmation: Option<string>,
    about: Option<string>)

  /** A user record in memory: its columns, the ones NOT NULL in the table still possibly nil, and
      has_secure_password's two virtual attributes, which are nil until assigned. */
  datatype Draft = Draft(
    screenName: Option<string>,
    passwordDigest: Option<Digest>,
    about: Option<string>,
    lastSeenAt: Option<Time>,
    postsCount: int,
    password: Option<string>,
    passwordConfirmation: Option<string>)

  /** `User.new`: every column at its default, `posts_count` 0. */
  const NEW_DRAFT: Draft := Draft(None, None, None, None, 0, None, None)

  /** A saved row loaded into memory. */
  function Loaded(u: User): Draft
  {
    Draft(Some(u.screenName), Some(u.passwordDigest), u.about, u.lastSeenAt, u.postsCount, None, None)
  }

  /** Mass assignment of `attrs`. has_secure_password's `password=` ignores an empty string and
      otherwise keeps the password and stores its digest. */
  function Assign(d: Draft, a: UserAttrs): Draft
  {
    var d1 := if a.screenName.Some? then d.(screenName := a.screenName) else d;
    var d2 := match a.password
      case None => d1
      case Some(p) => if p == "" then d1 else d1.(password := Some(p), passwordDigest := Some(BCrypt(p)));
    var d3 := if a.passwordConfirmation.Some? then d2.(passwordConfirmation := a.passwordConfirmation) else d2;
    if a.about.Some? then d3.(about := a.about) else d3
  }

  /** Another user than `self` already has the screen name. */
  predicate ScreenNameTakenBy(users: map<Id, User>, self: Option<Id>, name: string)
  {
    exists v :: v in users && Some(v) != self && users[v].screenName == name
  }

  /** The errors validation reports for `d`, saved as user `self` (None for a new record). */
  function Errors(users: map<Id, User>, self: Option<Id>, d: Draft): set<UserError>
  {
    (if !Present(d.screenName) then {ScreenNameBlank} else {})
    + (if d.screenName.Some? && ScreenNameTakenBy(users, self, d.screenName.value) then {ScreenNameTaken} else {})
    + (if d.passwordDigest.None? then {PasswordBlank} else {})
    + (if d.password.Some? && |d.password.value| < MIN_PASSWORD_LENGTH then {PasswordTooShort} else {})
    + (if d.password.Some? && !Blank(d.password.value) && |d.password.value| > MAX_PASSWORD_LENGTH
       then {PasswordTooLong} else {})
    + (if d.password.Some? && !Blank(d.password.value) && d.passwordConfirmation.Some?
          && d.passwordConfirmation.value != d.password.value
       then {PasswordConfirmationMismatch} else {})
  }

  /** What every saved user satisfies on its own. */
  predicate UsersValid(users: map<Id, User>)
  {
    forall u :: u in users ==> !Blank(users[u].screenName)
  }

  /** The row a valid draft is written as. */
  function ToRow(d: Draft): User
    requires d.screenName.Some? && d.passwordDigest.Some?
  {
    User(d.screenName.value, d.passwordDigest.value, d.about, d.lastSeenAt, d.postsCount)
  }

  /** The id the next user gets. */
  function NextUserId(t: Tables): Id
  {
    t.userSeq + 1
  }

  /** `User.new(attrs).save`. */
  function Create(t: Tables, a: UserAttrs): Result<Tables, set<UserError>>
  {
    var d := Assign(NEW_DRAFT, a);
    var errors := Errors(t.users, None, d);
    if errors != {} then Err(errors)
    else Ok(t.(users := t.users[NextUserId(t) := ToRow(d)], userSeq := NextUserId(t)))
  }

  /** `user.save` of a changed in-memory record `d` of user `u`. */
  function Save(t: Tables, u: Id, d: Draft): Result<Tables, set<UserError>>
    requires u in t.users
  {
    var errors := Errors(t.users, Some(u), d);
    if errors != {} then Err(errors)
    else Ok(t.(users := t.users[u := ToRow(d)]))
  }

  /** `user.update(attrs)`. */
  function Update(t: Tables, u: Id, a: UserAttrs): Result<Tables, set<UserError>>
    requires u in t.users
  {
    Save(t, u, Assign(Loaded(t.users[u]), a))
  }

  /** `user.update!(last_seen_at: now)`. */
  function Touch(t: Tables, u: Id, now: Time): Result<Tables, set<UserError>>
    requires u in t.users
  {
    Save(t, u, Loaded(t.users[u]).(lastSeenAt := Some(now)))
  }

  datatype DestroyError = InvalidForeignKey

  /** `user.destroy!`: `dependent: :destroy` deletes the user's sessions, then the row itself; a post
      or comment that still references the user makes the delete fail and the transaction roll back. */
  function Destroy(t: Tables, u: Id): Result<Tables, DestroyError>
    requires u in t.users
  {
    if UserReferenced(t, u) then Err(InvalidForeignKey)
    else Ok(t.(sessions := t.sessions - SessionsOf(t.sessions, u), users := t.users - {u}))
  }

  /** `User.authenticate_by(screen_name:, password:)` finds exactly this user: the password is
      neither nil nor empty, and the user has that screen name and the digest of that password. */
  predicate Authenticates(t: Tables, u: Id, screenName: Option<string>, password: Option<string>)
  {
    && password.Some? && password.value != ""
    && screenName.Some?
    && u in t.users
    && t.users[u].screenName == screenName.value
    && t.users[u].passwordDigest == BCrypt(password.value)
  }

  /** Sign-up succeeds exactly when the screen name is present and unused and a password of at least
      eight characters is given which, unless it is all whitespace, is at most 72 characters long and
      matches its confirmation when one is given. The too-long and confirmation checks of
      has_secure_password skip a blank password. */
  lemma CreateAcceptsExactly(t: Tables, a: UserAttrs)
    ensures Create(t, a).Ok? <==>
      && Present(a.screenName)
      && !ScreenNameTakenBy(t.users, None, a.screenName.value)
      && a.password.Some?
      && MIN_PASSWORD_LENGTH <= |a.password.value|
      && (|| Blank(a.password.value)
          || (&& |a.password.value| <= MAX_PASSWORD_LENGTH
              && (a.passwordConfirmation.None? || a.passwordConfirmation == a.password)))
  {
    var d := Assign(NEW_DRAFT, a);
    var errors := Errors(t.users, None, d);
    if errors == {} {
      assert ScreenNameBlank !in errors && ScreenNameTaken !in errors && PasswordBlank !in errors;
      assert PasswordTooShort !in errors && PasswordTooLong !in errors;
      assert PasswordConfirmationMismatch !in errors;
    }
  }

  /** A password of eight or more whitespace characters is accepted whatever its confirmation and
      length: `password=` digests it, and the checks that would refuse it skip blank values. */
  lemma BlankPasswordSkipsConfirmation(t: Tables, screenName: string, password: string,
                                       confirmation: Option<string>, about: Option<string>)
    requires Present(Some(screenName)) && !ScreenNameTakenBy(t.users, None, screenName)
    requires Blank(password) && MIN_PASSWORD_LENGTH <= |password|
    ensures Create(t, UserAttrs(Some(screenName), Some(password), confirmation, about)).Ok?
  {
    CreateAcceptsExactly(t, UserAttrs(Some(screenName), Some(password), confirmation, about));
  }

  /** A blank screen name, a screen name another user has, a missing password or one shorter than
      eight characters each make sign-up fail with that error. */
  lemma CreateRejects(t: Tables, a: UserAttrs)
    ensures !Present(a.screenName) ==> Create(t, a).Err? && ScreenNameBlank in Create(t, a).error
    ensures a.screenName.Some? && ScreenNameTakenBy(t.users, None, a.screenName.value) ==>
      Create(t, a).Err? && ScreenNameTaken in Create(t, a).error
    ensures (a.password.None? || a.password == Some("")) ==> Create(t, a).Err? && PasswordBlank in Create(t, a).error
    ensures a.password.Some? && a.password != Some("") && |a.password.value| < MIN_PASSWORD_LENGTH ==>
      Create(t, a).Err? && PasswordTooShort in Create(t, a).error
  {
  }

  /** A new user is one fresh row with the given screen name, the digest of the given password,
      `posts_count` 0 and no `last_seen_at`; no other table changes. */
  lemma CreateAddsOneUser(t: Tables, a: UserAttrs)
    requires Wf(t) && Create(t, a).Ok?
    ensures var t' := Create(t, a).value; var id := NextUserId(t);
      && id !in t.users
      && t'.users == t.users[id := User(a.screenName.value, BCrypt(a.password.value), a.about, None, 0)]
      && t'.sessions == t.sessions && t'.posts == t.posts && t'.comments == t.comments
  {
    CreateAcceptsExactly(t, a);
  }

  /** Sign-up keeps the schema's invariants and the per-row validations. */
  lemma {:induction false} CreatePreserves(t: Tables, a: UserAttrs)
    requires Wf(t) && UsersValid(t.users) && Create(t, a).Ok?
    ensures var t' := Create(t, a).value; Wf(t') && UsersValid(t'.users)
  {
    CreateAcceptsExactly(t, a);
    CreateAddsOneUser(t, a);
    var users' := Create(t, a).value.users;
    var id := NextUserId(t);
    forall x, y | x in users' && y in users' && users'[x].screenName == users'[y].screenName
      ensures x == y
    {
    }
  }

  /** An update either fails and returns no tables at all, or rewrites only the user's own row: its
      `last_seen_at` and `posts_count` are kept, its digest is kept when no non-empty password is
      given, and every other row of every table is untouched. */
  lemma UpdateChangesOnlyPermittedColumns(t: Tables, u: Id, a: UserAttrs)
    requires u in t.users && Update(t, u, a).Ok?
    ensures var t' := Update(t, u, a).value; var row := t.users[u];
      && t'.users.Keys == t.users.Keys
      && (forall v :: v in t.users && v != u ==> t'.users[v] == t.users[v])
      && t'.users[u].lastSeenAt == row.lastSeenAt
      && t'.users[u].postsCount == row.postsCount
      && t'.users[u].screenName == (if a.screenName.Some? then a.screenName.value else row.screenName)
      && t'.users[u].about == (if a.about.Some? then a.about else row.about)
      && t'.users[u].passwordDigest ==
         (if a.password.None? || a.password == Some("") then row.passwordDigest else BCrypt(a.password.value))
      && t'.sessions == t.sessions && t'.posts == t.posts && t'.comments == t.comments
  {
  }

  /** An update that changes the password to one shorter than eight characters, or the screen name to
      a blank one or one another user has, fails. */
  lemma UpdateRejects(t: Tables, u: Id, a: UserAttrs)
    requires u in t.users
    ensures a.password.Some? && a.password != Some("") && |a.password.value| < MIN_PASSWORD_LENGTH ==>
      Update(t, u, a).Err? && PasswordTooShort in Update(t, u, a).error
    ensures a.screenName.Some? && Blank(a.screenName.value) ==>
      Update(t, u, a).Err? && ScreenNameBlank in Update(t, u, a).error
    ensures a.screenName.Some? && ScreenNameTakenBy(t.users, Some(u), a.screenName.value) ==>
      Update(t, u, a).Err? && ScreenNameTaken in Update(t, u, a).error
  {
  }

  /** An update that touches no validated attribute succeeds on a valid database: the nil password
      passes validation and the digest stays. */
  lemma UpdateWithoutPasswordSucceeds(t: Tables, u: Id, about: Option<string>)
    requires Wf(t) && UsersValid(t.users) && u in t.users
    ensures Update(t, u, UserAttrs(None, None, None, about)).Ok?
  {
    var d := Assign(Loaded(t.users[u]), UserAttrs(None, None, None, about));
    assert !ScreenNameTakenBy(t.users, Some(u), d.screenName.value);
  }

  /** Saving with validation keeps the schema's invariants and the per-row validations. */
  lemma {:induction false} SavePreserves(t: Tables, u: Id, d: Draft)
    requires Wf(t) && UsersValid(t.users) && u in t.users && Save(t, u, d).Ok?
    ensures var t' := Save(t, u, d).value; Wf(t') && UsersValid(t'.users) && t'.users.Keys == t.users.Keys
  {
    var errors := Errors(t.users, Some(u), d);
    assert ScreenNameBlank !in errors && ScreenNameTaken !in errors;
    var users' := Save(t, u, d).value.users;
    forall x, y | x in users' && y in users' && users'[x].screenName == users'[y].screenName
      ensures x == y
    {
    }
  }

  /** On a valid database `update!(last_seen_at:)` never raises: it sets `last_seen_at` and nothing
      else. */
  lemma TouchSucceeds(t: Tables, u: Id, now: Time)
    requires Wf(t) && UsersValid(t.users) && u in t.users
    ensures Touch(t, u, now).Ok?
    ensures Touch(t, u, now).value == t.(users := t.users[u := t.users[u].(lastSeenAt := Some(now))])
  {
    var d := Loaded(t.users[u]).(lastSeenAt := Some(now));
    assert !ScreenNameTakenBy(t.users, Some(u), d.screenName.value);
  }

  /** Destroying a user fails exactly when a post or comment still references them; otherwise it
      removes the user and exactly the sessions they own, and nothing else. */
  lemma DestroyRemovesExactlyTheirSessions(t: Tables, u: Id)
    requires u in t.users
    ensures Destroy(t, u).Err? <==> UserReferenced(t, u)
    ensures Destroy(t, u).Ok? ==> var t' := Destroy(t, u).value;
      && t'.users == t.users - {u}
      && (forall s :: s in t'.sessions <==> s in t.sessions && t.sessions[s].userId != u)
      && (forall s :: s in t'.sessions ==> t'.sessions[s] == t.sessions[s])
      && t'.posts == t.posts && t'.comments == t.comments
  {
  }

  /** Without a referencing post or comment, destroy deletes the user's sessions and then the user. */
  lemma DestroyWhenUnreferenced(t: Tables, u: Id)
    requires u in t.users && !UserReferenced(t, u)
    ensures Destroy(t, u) == Ok(t.(sessions := t.sessions - SessionsOf(t.sessions, u), users := t.users - {u}))
  {
  }

  /** Validation passing, update writes the assigned draft. */
  lemma SaveWhenValid(t: Tables, u: Id, d: Draft)
    requires u in t.users && Errors(t.users, Some(u), d) == {}
    ensures d.screenName.Some? && d.passwordDigest.Some?
    ensures Save(t, u, d) == Ok(t.(users := t.users[u := ToRow(d)]))
  {
    assert ScreenNameBlank !in Errors(t.users, Some(u), d) && PasswordBlank !in Errors(t.users, Some(u), d);
  }

  /** Validation passing, sign-up inserts the assigned draft under the next id. */
  lemma CreateWhenValid(t: Tables, a: UserAttrs)
    requires Errors(t.users, None, Assign(NEW_DRAFT, a)) == {}
    ensures var d := Assign(NEW_DRAFT, a); d.screenName.Some? && d.passwordDigest.Some?
    ensures var d := Assign(NEW_DRAFT, a);
      Create(t, a) == Ok(t.(users := t.users[NextUserId(t) := ToRow(d)], userSeq := NextUserId(t)))
  {
    var d := Assign(NEW_DRAFT, a);
    assert ScreenNameBlank !in Errors(t.users, None, d) && PasswordBlank !in Errors(t.users, None, d);
  }

  /** Destroying a user keeps the schema's invariants and the per-row validations. */
  lemma {:induction false} DestroyPreserves(t: Tables, u: Id)
    requires Wf(t) && UsersValid(t.users) && u in t.users && Destroy(t, u).Ok?
    ensures var t' := Destroy(t, u).value; Wf(t') && UsersValid(t'.users)
  {
    var t' := Destroy(t, u).value;
    forall p | p in t'.posts ensures t'.posts[p].userId in t'.users {
      assert t.posts[p].userId != u;
    }
    forall c | c in t'.comments ensures t'.comments[c].userId in t'.users {
      assert t.comments[c].userId != u;
    }
  }

  /** authenticate_by finds at most one user, because screen names are unique. */
  lemma AuthenticatesAtMostOne(t: Tables, u: Id, v: Id, screenName: Option<string>, password: Option<string>)
    requires Wf(t)
    requires Authenticates(t, u, screenName, password) && Authenticates(t, v, screenName, password)
    ensures u == v
  {
  }
}
