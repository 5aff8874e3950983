/**
 The sessions table with its opaque tokens. A token is its serial number: the source
 generates every token at random and stores its SHA-256 hash, taken here to be fresh
 and injective.
 */
module Sessions {
  import opened Basics
  import opened Network

  /** How a session came about: part of the history, not of the table. */
  datatype Origin = Direct | Otp(txn: nat) | Trusted(txn: nat)

  /** `revokedBy` is history: the audit row of the bulk revocation that ended the session. */
  datatype Session = Session(
    user: nat, access: nat, refresh: nat, createdAt: Time, expiresAt: Time,
    revokedAt: Option<Time>, revokedBy: Option<nat>, ip: Option<Peer>, origin: Origin)

  /**
   The table, and its history: `issued[t]` is the session token t was generated for, and
   `accepted` lists the refresh tokens exchanged so far.
   */
  datatype Book = Book(sessions: seq<Session>, issued: seq<nat>, accepted: seq<nat>)

  const LIFETIME := HOUR

  // ---------------------------------------------------------------------------
  // Operations
  // ---------------------------------------------------------------------------

  function Add(b: Book, user: nat, now: Time, ip: Option<Peer>, origin: Origin): Book {
    var id, t := |b.sessions|, |b.issued|;
    b.(sessions := b.sessions + [Session(user, t, t + 1, now, now + LIFETIME, None, None, ip, origin)],
       issued := b.issued + [id, id])
  }

  function Rotate(b: Book, i: nat): Book
    requires i < |b.sessions|
  {
    var t := |b.issued|;
    b.(sessions := b.sessions[i := b.sessions[i].(access := t, refresh := t + 1)],
       issued := b.issued + [i, i],
       accepted := b.accepted + [b.sessions[i].refresh])
  }

  /** Revokes one session, whether or not it already was. */
  function End(b: Book, i: nat, now: Time): Book
    requires i < |b.sessions|
  {
    b.(sessions := b.sessions[i := b.sessions[i].(revokedAt := Some(now))])
  }

  predicate Live(x: Session, user: nat) {
    x.user == user && x.revokedAt == None
  }

  function Ended(x: Session, user: nat, now: Time, row: nat): Session {
    if Live(x, user) then x.(revokedAt := Some(now), revokedBy := Some(row)) else x
  }

  /** Revokes every live session of a user. */
  function EndAll(b: Book, user: nat, now: Time, row: nat): Book {
    b.(sessions := seq(|b.sessions|, i requires 0 <= i < |b.sessions| => Ended(b.sessions[i], user, now, row)))
  }

  /** The row count the bulk update reports. */
  function LiveCount(sessions: seq<Session>, user: nat): nat {
    if sessions == [] then 0
    else LiveCount(sessions[..|sessions| - 1], user) + (if Live(sessions[|sessions| - 1], user) then 1 else 0)
  }

  /** The unrevoked session holding this refresh token. */
  function FindRefresh(sessions: seq<Session>, token: nat): Option<nat> {
    if sessions == [] then None
    else
      var earlier := FindRefresh(sessions[..|sessions| - 1], token);
      var last := sessions[|sessions| - 1];
      if earlier.Some? then earlier
      else if last.refresh == token && last.revokedAt == None then Some(|sessions| - 1)
      else None
  }

  predicate Usable(x: Session, token: nat, now: Time) {
    x.access == token && x.revokedAt == None && x.expiresAt > now
  }

  /** The unrevoked, unexpired session holding this access token. */
  function FindAccess(sessions: seq<Session>, token: nat, now: Time): Option<nat> {
    if sessions == [] then None
    else
      var earlier := FindAccess(sessions[..|sessions| - 1], token, now);
      if earlier.Some? then earlier
      else if Usable(sessions[|sessions| - 1], token, now) then Some(|sessions| - 1)
      else None
  }

  lemma {:induction false} FindRefreshFinds(sessions: seq<Session>, token: nat)
    ensures var r := FindRefresh(sessions, token);
            r.Some? ==>
              r.value < |sessions| && sessions[r.value].refresh == token && sessions[r.value].revokedAt == None
    ensures FindRefresh(sessions, token) == None ==>
              forall i :: 0 <= i < |sessions| ==> !(sessions[i].refresh == token && sessions[i].revokedAt == None)
  {
    if sessions != [] {
      var prefix := sessions[..|sessions| - 1];
      FindRefreshFinds(prefix, token);
      assert forall i :: 0 <= i < |prefix| ==> sessions[i] == prefix[i];
    }
  }

  lemma {:induction false} FindAccessFinds(sessions: seq<Session>, token: nat, now: Time)
    ensures var r := FindAccess(sessions, token, now);
            r.Some? ==> r.value < |sessions| && Usable(sessions[r.value], token, now)
    ensures FindAccess(sessions, token, now) == None ==>
              forall i :: 0 <= i < |sessions| ==> !Usable(sessions[i], token, now)
  {
    if sessions != [] {
      var prefix := sessions[..|sessions| - 1];
      FindAccessFinds(prefix, token, now);
      assert forall i :: 0 <= i < |prefix| ==> sessions[i] == prefix[i];
    }
  }

  // ---------------------------------------------------------------------------
  // Every change of the table is one of these
  // ---------------------------------------------------------------------------

  datatype Op =
    | Keep
    | AddOp(user: nat, now: Time, ip: Option<Peer>, origin: Origin)
    | RotateOp(i: nat)
    | EndOp(i: nat, now: Time)
    | EndAllOp(user: nat, now: Time, row: nat)

  predicate Possible(b: Book, op: Op) {
    match op
    case RotateOp(i) => i < |b.sessions|
    case EndOp(i, _) => i < |b.sessions|
    case _ => true
  }

  function Do(b: Book, op: Op): Book
    requires Possible(b, op)
  {
    match op
    case Keep => b
    case AddOp(user, now, ip, origin) => Add(b, user, now, ip, origin)
    case RotateOp(i) => Rotate(b, i)
    case EndOp(i, now) => End(b, i, now)
    case EndAllOp(user, now, row) => EndAll(b, user, now, row)
  }

  // ---------------------------------------------------------------------------
  // Token safety
  // ---------------------------------------------------------------------------

  /** A session's current tokens were generated for it, and its refresh token was never exchanged. */
  ghost predicate SessionOk(b: Book, i: nat) {
    && i < |b.sessions|
    && var x := b.sessions[i];
    && x.access < |b.issued| && b.issued[x.access] == i
    && x.refresh < |b.issued| && b.issued[x.refresh] == i
    && x.refresh !in b.accepted
    && x.expiresAt == x.createdAt + LIFETIME
    && (x.revokedBy.Some? ==> x.revokedAt.Some?)
  }

  ghost predicate AcceptedOnce(b: Book) {
    && (forall p, q :: 0 <= p < q < |b.accepted| ==> b.accepted[p] != b.accepted[q])
    && (forall p :: 0 <= p < |b.accepted| ==> b.accepted[p] < |b.issued|)
  }

  ghost predicate BookOk(b: Book) {
    && (forall i :: 0 <= i < |b.sessions| ==> SessionOk(b, i))
    && (forall t :: 0 <= t < |b.issued| ==> b.issued[t] < |b.sessions|)
    && AcceptedOnce(b)
  }

  lemma DoKeepsBook(b: Book, op: Op)
    requires BookOk(b) && Possible(b, op)
    ensures BookOk(Do(b, op))
  {
    var after := Do(b, op);
    match op {
      case RotateOp(k) =>
        RotateKeepsBook(b, k);
      case _ =>
        forall i | 0 <= i < |after.sessions| ensures SessionOk(after, i) {
          if i < |b.sessions| {
            assert SessionOk(b, i);
          }
        }
    }
  }

  lemma RotateKeepsBook(b: Book, k: nat)
    requires BookOk(b) && k < |b.sessions|
    ensures BookOk(Rotate(b, k))
  {
    var after := Rotate(b, k);
    assert SessionOk(b, k);
    forall i | 0 <= i < |after.sessions| ensures SessionOk(after, i) {
      assert SessionOk(b, i);
      assert i != k ==> b.sessions[i].refresh != b.sessions[k].refresh;
    }
  }

  /** What no operation ever changes about an existing session. */
  ghost predicate Continues(b: Book, after: Book) {
    && |b.sessions| <= |after.sessions| && b.issued <= after.issued && b.accepted <= after.accepted
    && forall i :: 0 <= i < |b.sessions| ==> SameSession(b.sessions[i], after.sessions[i], |b.issued|)
  }

  /** `horizon` is the number of tokens generated before: a changed token is a later one. */
  ghost predicate SameSession(x: Session, y: Session, horizon: nat) {
    && y.user == x.user && y.createdAt == x.createdAt && y.expiresAt == x.expiresAt
    && y.ip == x.ip && y.origin == x.origin
    && (x.revokedAt.Some? ==> y.revokedAt.Some?)
    && (x.revokedBy.Some? ==> y.revokedBy == x.revokedBy)
    && (y.access == x.access || y.access >= horizon)
  }

  lemma DoContinues(b: Book, op: Op)
    requires BookOk(b) && Possible(b, op)
    ensures Continues(b, Do(b, op))
  {
    var after := Do(b, op);
    forall i | 0 <= i < |b.sessions| ensures SameSession(b.sessions[i], after.sessions[i], |b.issued|) {
      assert SessionOk(b, i);
    }
  }

  lemma ContinuesTransitive(a: Book, b: Book, c: Book)
    requires Continues(a, b) && Continues(b, c)
    ensures Continues(a, c)
  {
    forall i | 0 <= i < |a.sessions| ensures SameSession(a.sessions[i], c.sessions[i], |a.issued|) {
      assert SameSession(a.sessions[i], b.sessions[i], |a.issued|);
      assert SameSession(b.sessions[i], c.sessions[i], |b.issued|);
    }
  }

  /** A token that can no longer open its session: replaced, revoked, or expired. */
  ghost predicate Dead(b: Book, token: nat, now: Time) {
    && token < |b.issued| && b.issued[token] < |b.sessions|
    && var x := b.sessions[b.issued[token]];
    x.access != token || x.revokedAt.Some? || x.expiresAt <= now
  }

  /** Once dead, a token stays dead and opens no session at all. */
  lemma DeadForever(b: Book, after: Book, token: nat, now: Time, later: Time)
    requires Dead(b, token, now) && Continues(b, after) && BookOk(after) && now <= later
    ensures Dead(after, token, later)
    ensures FindAccess(after.sessions, token, later) == None
  {
    var i := b.issued[token];
    assert SameSession(b.sessions[i], after.sessions[i], |b.issued|);
    assert Dead(after, token, later);
    forall j | 0 <= j < |after.sessions| ensures !Usable(after.sessions[j], token, later) {
      assert SessionOk(after, j);
    }
    FindAccessFinds(after.sessions, token, later);
  }

  // ---------------------------------------------------------------------------
  // Counting revocations
  // ---------------------------------------------------------------------------

  function RevokedByCount(sessions: seq<Session>, row: nat): nat {
    if sessions == [] then 0
    else RevokedByCount(sessions[..|sessions| - 1], row)
         + (if sessions[|sessions| - 1].revokedBy == Some(row) then 1 else 0)
  }

  lemma {:induction false} SameRevokers(xs: seq<Session>, ys: seq<Session>, row: nat)
    requires |xs| <= |ys|
    requires forall i :: 0 <= i < |xs| ==> (ys[i].revokedBy == Some(row) <==> xs[i].revokedBy == Some(row))
    requires forall i :: |xs| <= i < |ys| ==> ys[i].revokedBy != Some(row)
    ensures RevokedByCount(ys, row) == RevokedByCount(xs, row)
    decreases |ys|
  {
    if ys != [] {
      SameRevokers(if |xs| < |ys| then xs else xs[..|xs| - 1], ys[..|ys| - 1], row);
    }
  }

  /** The row count of the bulk update is the number of sessions that name its audit row. */
  lemma {:induction false} EndAllCounts(b: Book, user: nat, now: Time, row: nat)
    requires forall i :: 0 <= i < |b.sessions| ==> b.sessions[i].revokedBy != Some(row)
    ensures RevokedByCount(EndAll(b, user, now, row).sessions, row) == LiveCount(b.sessions, user)
    decreases |b.sessions|
  {
    if b.sessions != [] {
      var n := |b.sessions| - 1;
      EndAllCounts(b.(sessions := b.sessions[..n]), user, now, row);
      assert EndAll(b, user, now, row).sessions[..n] ==
               EndAll(b.(sessions := b.sessions[..n]), user, now, row).sessions;
    }
  }
}
