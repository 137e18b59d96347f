/**
 * The sessions table as the controllers use it: `user.sessions.create!`, `session.destroy!` and
 * `Session.find_by(id:)`. The Session model's own file is not part of this model; a session is a row
 * that belongs to a user and has no expiry.
 */
module Sessions {
  import opened Wrappers
  import opened Schema
  import opened Cookies

  /** The record held in `Current.session`: its id and the row as it was loaded. */
  datatype CurrentSession = CurrentSession(id: Id, session: Session)

  /** The id the next session gets. */
  function NextSessionId(t: Tables): Id
  {
    t.sessionSeq + 1
  }

  /** `user.sessions.create!(user_agent:, ip_address:)`. */
  function Insert(t: Tables, u: Id, userAgent: Option<string>, ipAddress: Option<string>): Tables
  {
    t.(sessions := t.sessions[NextSessionId(t) := Session(u, userAgent, ipAddress)],
       sessionSeq := NextSessionId(t))
  }

  /** `session.destroy!`. */
  function Delete(t: Tables, s: Id): Tables
  {
    t.(sessions := t.sessions - {s})
  }

  /** `Session.find_by(id: id)`: nil finds nothing. */
  function Find(t: Tables, id: Option<Id>): Option<CurrentSession>
  {
    if id.Some? && id.value in t.sessions then Some(CurrentSession(id.value, t.sessions[id.value])) else None
  }

  /** `Session.find_by(id: cookies.signed[name])`. */
  function Resolve(t: Tables, jar: Jar, name: string): Option<CurrentSession>
  {
    Find(t, Decode(jar, name))
  }

  /** A session id that was issued once and is gone: its row can never come back. */
  predicate Revoked(t: Tables, s: Id)
  {
    0 < s <= t.sessionSeq && s !in t.sessions
  }

  /** What `find_by` sees after a write: after `create!` the new id finds the new row, after
      `destroy!` the destroyed id finds nothing, every other id finds what it found before, and nil
      finds nothing. */
  lemma FindAfterWrites(t: Tables, u: Id, userAgent: Option<string>, ipAddress: Option<string>, s: Id)
    ensures Find(Insert(t, u, userAgent, ipAddress), Some(NextSessionId(t)))
      == Some(CurrentSession(NextSessionId(t), Session(u, userAgent, ipAddress)))
    ensures forall x :: x != NextSessionId(t) ==> Find(Insert(t, u, userAgent, ipAddress), Some(x)) == Find(t, Some(x))
    ensures Find(Delete(t, s), Some(s)) == None
    ensures forall x :: x != s ==> Find(Delete(t, s), Some(x)) == Find(t, Some(x))
    ensures Find(t, None) == None
  {
  }

  /** A request resolves to a session exactly when its cookie decodes to the id of an existing
      session, and then it resolves to that session. */
  lemma ResolveIff(t: Tables, jar: Jar, name: string)
    ensures Resolve(t, jar, name).Some? <==> exists s :: Decode(jar, name) == Some(s) && s in t.sessions
    ensures Resolve(t, jar, name).Some? ==>
      var s := Decode(jar, name).value; Resolve(t, jar, name).value == CurrentSession(s, t.sessions[s])
  {
    if Decode(jar, name).Some? {
      assert Decode(jar, name) == Some(Decode(jar, name).value);
    }
  }

  /** create! adds exactly one session, fresh, owned by `u`, with the request's user agent and IP;
      no existing session and no other table changes, and a well-formed database stays well formed. */
  lemma InsertAddsOneSession(t: Tables, u: Id, userAgent: Option<string>, ipAddress: Option<string>)
    requires Wf(t) && u in t.users
    ensures var t' := Insert(t, u, userAgent, ipAddress); var s := NextSessionId(t);
      && s !in t.sessions
      && t'.sessions == t.sessions[s := Session(u, userAgent, ipAddress)]
      && t'.users == t.users && t'.posts == t.posts && t'.comments == t.comments
      && Wf(t')
  {
  }

  /** destroy! removes exactly that session; the database stays well formed. */
  lemma DeleteRemovesOneSession(t: Tables, s: Id)
    requires Wf(t)
    ensures var t' := Delete(t, s);
      && t'.sessions == t.sessions - {s}
      && t'.users == t.users && t'.posts == t.posts && t'.comments == t.comments
      && Wf(t')
  {
  }

  /** After a session is destroyed, a cookie carrying its id resolves to nothing, and it stays so
      after further sign-ins and sign-outs, because AUTOINCREMENT never hands the id out again. */
  lemma {:induction false} RevokedStaysRevoked(t: Tables, s: Id, jar: Jar, name: string)
    requires Wf(t) && s in t.sessions && Decode(jar, name) == Some(s)
    ensures Revoked(Delete(t, s), s)
    ensures Resolve(Delete(t, s), jar, name) == None
    ensures forall u, ua, ip :: Revoked(Insert(Delete(t, s), u, ua, ip), s)
    ensures forall t' :: Revoked(t', s) ==> Resolve(t', jar, name) == None
    ensures forall t', u, ua, ip :: Revoked(t', s) ==> Revoked(Insert(t', u, ua, ip), s)
    ensures forall t', x :: Revoked(t', s) ==> Revoked(Delete(t', x), s)
  {
    assert 0 < s <= t.sessionSeq;
  }
}
