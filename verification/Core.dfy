/**
 The Core service: its tables, its handlers and their interleavings. OTP verification
 and trusted-device completion lock the transaction row they work on and are split at
 the points where another handler can run; every other handler is one step. Password
 checks, the Detection gate, OTP codes and the clock are inputs of the steps.
 */
module Core {
  import opened Basics
  import opened Network
  import opened Sessions
  import RateLimiter
  import Detection

  // ---------------------------------------------------------------------------
  // Tables
  // ---------------------------------------------------------------------------

  datatype AccountStatus = Active | Suspended | Locked
  datatype Role = BaseUser | SocAnalyst | SecurityManager | SecurityAdmin

  datatype User = User(
    status: AccountStatus, lockedAt: Option<Time>, adminMfa: bool, detectionMfa: bool,
    failedLogins: nat, lastLogin: Option<Time>, roles: set<Role>)

  const NewUser := User(Active, None, false, false, 0, None, {BaseUser})

  datatype Kind = OneTime | Persistent | TrustedDevice
  datatype TxnStatus = Pending | Completed | Failed | Expired

  /** The first approval of a trusted-device request, and the session that gave it. */
  datatype Approval = Approval(at: Time, session: nat)

  /**
   A row of mfa_transactions together with its notification: `code` and `verifiedAt`
   belong to the latter. `approval` and `session` are history: the first approval, and
   the session this transaction produced.
   */
  datatype Txn = Txn(
    user: nat, kind: Kind, status: TxnStatus, boundIp: Option<Peer>, fingerprint: nat,
    createdAt: Time, expiresAt: Time, failCount: nat, code: nat, verifiedAt: Option<Time>,
    consumedAt: Option<Time>, approval: Option<Approval>, session: Option<nat>)

  const VALIDITY := 5 * MINUTE
  const MAX_FAILURES := 3

  function Opened(user: nat, kind: Kind, boundIp: Option<Peer>, fingerprint: nat, code: nat, now: Time): Txn {
    Txn(user, kind, Pending, boundIp, fingerprint, now, now + VALIDITY, 0, code, None, None, None, None)
  }

  datatype Device = Device(lastIp: Option<Peer>, expiresAt: Option<Time>)

  const DEVICE_LIFETIME := 30 * DAY

  type ProtectiveAction = Detection.ProtectiveAction

  datatype Cause = LoggedOutEverywhere | RoleAssigned | RoleRevoked | AccountLocked | MfaToggled
  datatype Happening =
    | Registered | LoginSuccess | SessionRefreshed | LoggedOut | SessionRevoked | AccountUnlocked
    | DeviceRequested | DeviceApproved | DeviceLogin

  /** `reason` is the change_reason column: an idempotency key or free text. */
  datatype AuditRow =
    | Protective(action: ProtectiveAction, user: nat, reason: string, revoked: nat)
    | Administrative(cause: Cause, user: nat, revoked: nat)
    | Note(what: Happening, subject: nat)

  /** A step that writes no bulk revocation appends nothing but notes. */
  ghost predicate OnlyNotes(audit: seq<AuditRow>, after: seq<AuditRow>) {
    audit <= after && forall k :: |audit| <= k < |after| ==> after[k].Note?
  }

  /** Nothing but rows without a protective action is appended. */
  ghost predicate NoRecordWritten(audit: seq<AuditRow>, after: seq<AuditRow>) {
    audit <= after && forall k :: |audit| <= k < |after| ==> !after[k].Protective?
  }

  datatype Counter = LoginCounter | ApprovalCounter

  // ---------------------------------------------------------------------------
  // Handlers
  // ---------------------------------------------------------------------------

  datatype Reply =
    | Refused(code: nat)
    | Done
    | Waiting
    | Challenge(txn: nat)
    | Issued(session: nat)
    | ApprovalPending(txn: nat)
    | AlreadyTrusted
    | Enforced(already: bool, revoked: nat)

  /** Where a locking handler stands; `at` is the instant it read as its own now. */
  datatype Handler =
    | VerifyArrived(txn: nat, peer: Peer, code: nat, at: Time)
    | Verifying(txn: nat, peer: Peer, code: nat, at: Time, seen: Txn)
    | CompleteArrived(txn: nat, peer: Peer, fingerprint: nat)
    | Gating(txn: nat, peer: Peer, at: Time)
    | Answered(reply: Reply)

  /** `locks` maps a locked transaction row to the handler that holds it. */
  datatype Core = Core(
    clock: Time, users: map<nat, User>, book: Book, txns: seq<Txn>, devices: map<(nat, nat), Device>,
    audit: seq<AuditRow>, rates: map<(Peer, Counter), RateLimiter.Row>,
    locks: map<nat, nat>, handlers: map<nat, Handler>)

  function Start(clock: Time, users: map<nat, User>): Core {
    Core(clock, users, Book([], [], []), [], map[], [], map[], map[], map[])
  }

  /** Detection's one-time MFA flag is up. */
  predicate Flagged(s: Core, user: nat) {
    user in s.users && s.users[user].detectionMfa
  }

  datatype Outcome = Outcome(core: Core, reply: Reply)

  function Refuse(s: Core, code: nat): Outcome {
    Outcome(s, Refused(code))
  }

  /** The transactions, their locks and the handlers working on them. */
  predicate SameDesk(s: Core, after: Core) {
    after.txns == s.txns && after.locks == s.locks && after.handlers == s.handlers
  }

  /** The handler moves, if at all, to a place away from the gate, and no other moves. */
  ghost predicate KeepsAway(s: Core, after: Core, h: nat) {
    || after.handlers == s.handlers
    || (h in after.handlers && !after.handlers[h].Gating? && after.handlers == s.handlers[h := after.handlers[h]])
  }

  /** A locking handler moves no handler but itself. */
  ghost predicate MovesOwn(s: Core, after: Core, h: nat) {
    || after.handlers == s.handlers
    || (h in after.handlers && after.handlers == s.handlers[h := after.handlers[h]])
  }

  // ---------------------------------------------------------------------------
  // Sessions and bearer authentication
  // ---------------------------------------------------------------------------

  /** Adds a session with its audit row; the caller commits. */
  function Issue(s: Core, user: nat, peer: Peer, origin: Origin): Core
    requires user in s.users
  {
    s.(users := s.users[user := s.users[user].(lastLogin := Some(s.clock))],
       book := Add(s.book, user, s.clock, SessionIp(peer), origin),
       audit := s.audit + [Note(LoginSuccess, |s.book.sessions|)])
  }

  /** The session a bearer token opens: unrevoked, unexpired, of an active user. */
  function Authenticate(s: Core, token: nat): Option<nat> {
    var i := FindAccess(s.book.sessions, token, s.clock);
    if i.Some? && i.value < |s.book.sessions| && s.book.sessions[i.value].user in s.users
       && s.users[s.book.sessions[i.value].user].status == Active then i
    else None
  }

  function Refresh(s: Core, token: nat): (r: Outcome)
    ensures SameDesk(s, r.core)
    ensures r.core.users == s.users
    ensures r.core.clock == s.clock
    ensures r.core.rates == s.rates
  {
    var i := FindRefresh(s.book.sessions, token);
    if i == None || i.value >= |s.book.sessions| then Refuse(s, 401)
    else if s.book.sessions[i.value].expiresAt <= s.clock then Refuse(s, 401)
    else
      Outcome(s.(book := Rotate(s.book, i.value), audit := s.audit + [Note(SessionRefreshed, i.value)]),
              Issued(i.value))
  }

  function Logout(s: Core, token: nat): (r: Outcome)
    ensures SameDesk(s, r.core)
    ensures r.core.users == s.users
    ensures r.core.clock == s.clock
    ensures r.core.rates == s.rates
  {
    var i := Authenticate(s, token);
    if i == None || i.value >= |s.book.sessions| then Refuse(s, 401)
    else Outcome(s.(book := End(s.book, i.value, s.clock), audit := s.audit + [Note(LoggedOut, i.value)]), Done)
  }

  /** Revokes every live session of a user and appends the audit row that reports how many. */
  function RevokeAll(s: Core, user: nat, row: AuditRow): Core {
    s.(book := EndAll(s.book, user, s.clock, |s.audit|), audit := s.audit + [row])
  }

  function Revocation(s: Core, cause: Cause, user: nat): Core {
    RevokeAll(s, user, Administrative(cause, user, LiveCount(s.book.sessions, user)))
  }

  function LogoutAll(s: Core, token: nat): (r: Outcome)
    ensures NoRecordWritten(s.audit, r.core.audit)
    ensures SameDesk(s, r.core)
    ensures r.core.users == s.users
    ensures r.core.clock == s.clock
    ensures r.core.rates == s.rates
  {
    var i := Authenticate(s, token);
    if i == None || i.value >= |s.book.sessions| then Refuse(s, 401)
    else Outcome(Revocation(s, LoggedOutEverywhere, s.book.sessions[i.value].user), Done)
  }

  function RevokeSession(s: Core, token: nat, target: nat): (r: Outcome)
    ensures SameDesk(s, r.core)
    ensures r.core.users == s.users
    ensures r.core.clock == s.clock
    ensures r.core.rates == s.rates
  {
    var i := Authenticate(s, token);
    if i == None || i.value >= |s.book.sessions| then Refuse(s, 401)
    else if target >= |s.book.sessions| then Refuse(s, 404)
    else if s.book.sessions[target].user != s.book.sessions[i.value].user then Refuse(s, 403)
    else Outcome(s.(book := End(s.book, target, s.clock), audit := s.audit + [Note(SessionRevoked, target)]), Done)
  }

  // ---------------------------------------------------------------------------
  // Registration and login
  // ---------------------------------------------------------------------------

  function Register(s: Core, user: nat): (r: Outcome)
    ensures OnlyNotes(s.audit, r.core.audit)
    ensures SameDesk(s, r.core)
    ensures r.core.book == s.book
    ensures r.core.clock == s.clock
    ensures s.users.Keys <= r.core.users.Keys
    ensures r.core.rates == s.rates
  {
    if user in s.users then Refuse(s, 409)
    else Outcome(s.(users := s.users[user := NewUser], audit := s.audit + [Note(Registered, user)]), Done)
  }

  /** The counter's row is found by address, whatever its spelling. */
  function RateRow(s: Core, peer: Peer, counter: Counter): Option<RateLimiter.Row> {
    if (Merged(peer), counter) in s.rates then Some(s.rates[(Merged(peer), counter)]) else None
  }

  function Counted(s: Core, peer: Peer, counter: Counter): Core {
    s.(rates := s.rates[(Merged(peer), counter) := RateLimiter.Admit(RateRow(s, peer, counter), s.clock)])
  }

  function OtpKind(u: User): Kind {
    if u.adminMfa then Persistent else OneTime
  }

  /** The account once password and status have passed and the gate has answered. */
  function Cleared(u: User, hold: bool): User {
    u.(failedLogins := 0, detectionMfa := u.detectionMfa || hold)
  }

  /** A challenge if a flag is up, otherwise a session on the spot. */
  function Enter(s: Core, peer: Peer, user: nat, code: nat): (r: Outcome)
    requires user in s.users
    ensures r.core.clock == s.clock && r.core.rates == s.rates
    ensures r.core.locks == s.locks && r.core.handlers == s.handlers
  {
    var u := s.users[user];
    if u.adminMfa || u.detectionMfa then
      Outcome(s.(txns := s.txns + [Opened(user, OtpKind(u), OtpBinding(peer), 0, code, s.clock)]), Challenge(|s.txns|))
    else Outcome(Issue(s, user, peer, Direct), Issued(|s.book.sessions|))
  }

  /** An unknown username is a user id without a row. */
  function Login(s: Core, peer: Peer, user: nat, passwordOk: bool, hold: bool, code: nat): (r: Outcome)
    ensures r.core.rates == if RateLimiter.Denied(RateRow(s, peer, LoginCounter), s.clock) then s.rates
            else Counted(s, peer, LoginCounter).rates
    ensures (r.reply == Refused(429) <==> RateLimiter.Denied(RateRow(s, peer, LoginCounter), s.clock))
    ensures r.core.clock == s.clock
    ensures s.users.Keys <= r.core.users.Keys
    ensures r.core.locks == s.locks && r.core.handlers == s.handlers
  {
    if RateLimiter.Denied(RateRow(s, peer, LoginCounter), s.clock) then Refuse(s, 429)
    else
      var s1 := Counted(s, peer, LoginCounter);
      if user !in s.users then Refuse(s1, 401)
      else
        var u := s.users[user];
        if !passwordOk then Refuse(s1.(users := s.users[user := u.(failedLogins := u.failedLogins + 1)]), 401)
        else if u.status == Locked then Refuse(s1, 423)
        else Enter(s1.(users := s.users[user := Cleared(u, hold)]), peer, user, code)
  }

  // ---------------------------------------------------------------------------
  // OTP verification
  // ---------------------------------------------------------------------------

  function Answer(s: Core, h: nat, reply: Reply): Core {
    s.(handlers := s.handlers[h := Answered(reply)])
  }

  /** Commit or rollback: the row lock goes, the handler is done. */
  function Release(s: Core, h: nat, txn: nat, reply: Reply): Core {
    Answer(s, h, reply).(locks := s.locks - {txn})
  }

  /** The handler reads the clock before it queues for the row. */
  function VerifyArrive(s: Core, h: nat, txn: nat, peer: Peer, code: nat): (r: Outcome)
    ensures KeepsAway(s, r.core, h)
    ensures r.core.txns == s.txns
    ensures OnlyNotes(s.audit, r.core.audit)
    ensures r.core.book == s.book
    ensures r.core.users == s.users
    ensures r.core.clock == s.clock
    ensures r.core.rates == s.rates
  {
    if h in s.handlers then Outcome(s, Waiting)
    else Outcome(s.(handlers := s.handlers[h := VerifyArrived(txn, peer, code, s.clock)]), Waiting)
  }

  /** SELECT ... FOR UPDATE: waits while another handler holds the row, and then reads it. */
  function VerifyLock(s: Core, h: nat): (r: Outcome)
    ensures KeepsAway(s, r.core, h)
    ensures r.core.txns == s.txns
    ensures OnlyNotes(s.audit, r.core.audit)
    ensures r.core.book == s.book
    ensures r.core.users == s.users
    ensures r.core.clock == s.clock
    ensures r.core.rates == s.rates
  {
    if h !in s.handlers || !s.handlers[h].VerifyArrived? then Outcome(s, Waiting)
    else
      var me := s.handlers[h];
      if me.txn >= |s.txns| then Outcome(Answer(s, h, Refused(404)), Refused(404))
      else if me.txn in s.locks then Outcome(s, Waiting)
      else if s.txns[me.txn].kind == TrustedDevice then Outcome(Answer(s, h, Refused(409)), Refused(409))
      else
        Outcome(s.(locks := s.locks[me.txn := h],
                   handlers := s.handlers[h := Verifying(me.txn, me.peer, me.code, me.at, s.txns[me.txn])]), Waiting)
  }

  /** What the handler decides from the row it read. */
  datatype Verdict = Reject(code: nat) | MarkExpired | WrongCode | Accept

  function Judge(seen: Txn, peer: Peer, code: nat, at: Time): Verdict {
    if seen.status == Completed || seen.status == Failed then Reject(409)
    else if seen.status == Expired then Reject(401)
    else if seen.expiresAt <= at then MarkExpired
    else if seen.verifiedAt.Some? then Reject(409)
    else if code != seen.code then WrongCode
    else if !OtpIpAccepted(seen.boundIp, peer) then Reject(403)
    else Accept
  }

  /** The columns a wrong code writes, computed from the row that was read. */
  function Missed(row: Txn, seen: Txn): Txn {
    row.(failCount := seen.failCount + 1, status := if seen.failCount + 1 >= MAX_FAILURES then Failed else row.status)
  }

  function Verified(row: Txn, at: Time, session: nat): Txn {
    row.(status := Completed, verifiedAt := Some(at), session := Some(session))
  }

  /** The accepted code is used up, a one-time flag is cleared, and the session is opened. */
  function Consume(s: Core, t: nat, seen: Txn, peer: Peer, at: Time): Core
    requires t < |s.txns| && seen.user in s.users
  {
    var u := s.users[seen.user];
    var cleared := if seen.kind == OneTime then u.(detectionMfa := false) else u;
    Issue(s.(txns := s.txns[t := Verified(s.txns[t], at, |s.book.sessions|)], users := s.users[seen.user := cleared]),
          seen.user, peer, Otp(t))
  }

  function VerifyFinish(s: Core, h: nat): (r: Outcome)
    ensures KeepsAway(s, r.core, h)
    ensures r.core.clock == s.clock
    ensures s.users.Keys <= r.core.users.Keys
    ensures r.core.rates == s.rates
  {
    if h !in s.handlers || !s.handlers[h].Verifying? then Outcome(s, Waiting)
    else
      var me := s.handlers[h];
      var t := me.txn;
      if t >= |s.txns| || me.seen.user !in s.users then Outcome(Release(s, h, t, Refused(404)), Refused(404))
      else
        match Judge(me.seen, me.peer, me.code, me.at)
        case Reject(code) => Outcome(Release(s, h, t, Refused(code)), Refused(code))
        case MarkExpired =>
          Outcome(Release(s.(txns := s.txns[t := s.txns[t].(status := Expired)]), h, t, Refused(401)), Refused(401))
        case WrongCode =>
          Outcome(Release(s.(txns := s.txns[t := Missed(s.txns[t], me.seen)]), h, t, Refused(401)), Refused(401))
        case Accept =>
          var id := |s.book.sessions|;
          Outcome(Release(Consume(s, t, me.seen, me.peer, me.at), h, t, Issued(id)), Issued(id))
  }

  // ---------------------------------------------------------------------------
  // Trusted devices
  // ---------------------------------------------------------------------------

  function FindPending(txns: seq<Txn>, user: nat, fingerprint: nat): Option<nat> {
    if txns == [] then None
    else
      var earlier := FindPending(txns[..|txns| - 1], user, fingerprint);
      if earlier.Some? then earlier
      else if Asks(txns[|txns| - 1], user, fingerprint) then Some(|txns| - 1)
      else None
  }

  /** A pending trusted-device request of this user and device. */
  predicate Asks(x: Txn, user: nat, fingerprint: nat) {
    x.kind == TrustedDevice && x.status == Pending && x.user == user && x.fingerprint == fingerprint
  }

  predicate TrustedNow(s: Core, peer: Peer, user: nat, fingerprint: nat) {
    && (user, fingerprint) in s.devices
    && var d := s.devices[(user, fingerprint)];
    (d.expiresAt == None || d.expiresAt.value > s.clock) && SameIp(d.lastIp, peer)
  }

  /** A pending request of the device is reused while it is valid; an expired one makes way for a new one. */
  function FileApproval(s: Core, peer: Peer, user: nat, fingerprint: nat): (r: Outcome)
    ensures OnlyNotes(s.audit, r.core.audit)
    ensures r.core.book == s.book && r.core.users == s.users && r.core.clock == s.clock && r.core.rates == s.rates
    ensures r.core.locks == s.locks && r.core.handlers == s.handlers && !r.reply.Refused?
  {
    var p := FindPending(s.txns, user, fingerprint);
    if p.Some? && p.value < |s.txns| && p.value in s.locks then Outcome(s, Waiting)
    else if p.Some? && p.value < |s.txns| && s.txns[p.value].expiresAt > s.clock
         then Outcome(s, ApprovalPending(p.value))
    else
      var txns := if p.Some? && p.value < |s.txns| then s.txns[p.value := s.txns[p.value].(status := Expired)]
        else s.txns;
      Outcome(s.(txns := txns + [Opened(user, TrustedDevice, Some(DeviceBinding(peer)), fingerprint, 0, s.clock)],
                 audit := s.audit + [Note(DeviceRequested, |s.txns|)]),
              ApprovalPending(|s.txns|))
  }

  function RequestApproval(s: Core, peer: Peer, user: nat, passwordOk: bool, hold: bool, fingerprint: nat): (r: Outcome)
    ensures r.core.rates == if peer == Unknown || RateLimiter.Denied(RateRow(s, peer, ApprovalCounter), s.clock)
            then s.rates else Counted(s, peer, ApprovalCounter).rates
    ensures peer != Unknown ==> (r.reply == Refused(429) <==>
                                   RateLimiter.Denied(RateRow(s, peer, ApprovalCounter), s.clock))
    ensures OnlyNotes(s.audit, r.core.audit)
    ensures r.core.book == s.book
    ensures r.core.users == s.users
    ensures r.core.locks == s.locks && r.core.handlers == s.handlers
    ensures r.core.clock == s.clock
  {
    if peer == Unknown then Refuse(s, 400)
    else if RateLimiter.Denied(RateRow(s, peer, ApprovalCounter), s.clock) then Refuse(s, 429)
    else
      var s1 := Counted(s, peer, ApprovalCounter);
      if user !in s.users || !passwordOk then Refuse(s1, 401)
      else if s.users[user].status == Locked then Refuse(s1, 423)
      else if s.users[user].adminMfa || s.users[user].detectionMfa || hold then Refuse(s1, 409)
      else if TrustedNow(s, peer, user, fingerprint) then Outcome(s1, AlreadyTrusted)
      else FileApproval(s1, peer, user, fingerprint)
  }

  function Approved(row: Txn, now: Time, session: nat): Txn {
    row.(status := Completed, approval := if row.approval == None then Some(Approval(now, session)) else row.approval)
  }

  function Approve(s: Core, token: nat, t: nat, peer: Peer): (r: Outcome)
    ensures OnlyNotes(s.audit, r.core.audit)
    ensures r.core.book == s.book
    ensures r.core.users == s.users
    ensures r.core.clock == s.clock
    ensures r.core.rates == s.rates
  {
    var i := Authenticate(s, token);
    if i == None || i.value >= |s.book.sessions| then Refuse(s, 401)
    else
      var me := s.book.sessions[i.value];
      if t >= |s.txns| || s.txns[t].kind != TrustedDevice then Refuse(s, 404)
      else if t in s.locks then Outcome(s, Waiting)
      else if s.txns[t].user != me.user then Refuse(s, 404)
      else if s.txns[t].expiresAt <= s.clock then
        Refuse(s.(txns := s.txns[t := s.txns[t].(status := Expired)]), 410)
      else if s.txns[t].status == Expired || s.txns[t].status == Failed then Refuse(s, 410)
      else if !SameIp(me.ip, peer) then Refuse(s, 403)
      else
        Outcome(s.(txns := s.txns[t := Approved(s.txns[t], s.clock, i.value)],
                   devices := s.devices[(me.user, s.txns[t].fingerprint) :=
                     Device(s.txns[t].boundIp, Some(s.clock + DEVICE_LIFETIME))],
                   audit := s.audit + [Note(DeviceApproved, t)]),
                Done)
  }

  function CompleteArrive(s: Core, h: nat, txn: nat, peer: Peer, fingerprint: nat): (r: Outcome)
    ensures KeepsAway(s, r.core, h)
    ensures r.core.txns == s.txns
    ensures OnlyNotes(s.audit, r.core.audit)
    ensures r.core.book == s.book
    ensures r.core.users == s.users
    ensures r.core.clock == s.clock
    ensures r.core.rates == s.rates
  {
    if h in s.handlers then Outcome(s, Waiting)
    else Outcome(s.(handlers := s.handlers[h := CompleteArrived(txn, peer, fingerprint)]), Waiting)
  }

  /** The checks before the Detection gate: None lets the request through to the gate. */
  function Obstacle(s: Core, row: Txn, peer: Peer, fingerprint: nat): Option<(nat, TxnStatus)> {
    if row.status == Pending then Some((409, row.status))
    else if row.status == Expired || row.status == Failed then Some((410, row.status))
    else if row.consumedAt.Some? then Some((409, row.status))
    else if row.expiresAt <= s.clock then Some((410, Expired))
    else if !SameIp(row.boundIp, peer) then Some((403, row.status))
    else if fingerprint != row.fingerprint then Some((403, row.status))
    else if row.user !in s.users || s.users[row.user].status != Active then Some((401, row.status))
    else if s.users[row.user].adminMfa || s.users[row.user].detectionMfa then Some((409, Failed))
    else None
  }

  /** Takes the row lock, checks, and calls the gate while holding it. */
  function CompleteLock(s: Core, h: nat): (r: Outcome)
    ensures MovesOwn(s, r.core, h)
    ensures OnlyNotes(s.audit, r.core.audit)
    ensures r.core.book == s.book
    ensures r.core.users == s.users
    ensures r.core.clock == s.clock
    ensures r.core.rates == s.rates
  {
    if h !in s.handlers || !s.handlers[h].CompleteArrived? then Outcome(s, Waiting)
    else
      var me := s.handlers[h];
      var t := me.txn;
      if t >= |s.txns| || s.txns[t].kind != TrustedDevice then Outcome(Answer(s, h, Refused(404)), Refused(404))
      else if t in s.locks then Outcome(s, Waiting)
      else
        var obstacle := Obstacle(s, s.txns[t], me.peer, me.fingerprint);
        if obstacle.Some? then
          Outcome(Answer(s.(txns := s.txns[t := s.txns[t].(status := obstacle.value.1)]), h, Refused(obstacle.value.0)),
                  Refused(obstacle.value.0))
        else
          Outcome(s.(locks := s.locks[t := h], handlers := s.handlers[h := Gating(t, me.peer, s.clock)]), Waiting)
  }

  function Consumed(row: Txn, at: Time, session: nat): Txn {
    row.(consumedAt := Some(at), session := Some(session))
  }

  /** The gate has answered. */
  function CompleteFinish(s: Core, h: nat, hold: bool): (r: Outcome)
    ensures KeepsAway(s, r.core, h)
    ensures r.core.clock == s.clock
    ensures s.users.Keys <= r.core.users.Keys
    ensures r.core.rates == s.rates
  {
    if h !in s.handlers || !s.handlers[h].Gating? then Outcome(s, Waiting)
    else
      var me := s.handlers[h];
      var t := me.txn;
      if t >= |s.txns| || s.txns[t].user !in s.users then Outcome(Release(s, h, t, Refused(401)), Refused(401))
      else if hold then
        Outcome(Release(s.(txns := s.txns[t := s.txns[t].(status := Failed)]), h, t, Refused(409)), Refused(409))
      else
        var id := |s.book.sessions|;
        var s1 := Issue(s.(txns := s.txns[t := Consumed(s.txns[t], me.at, id)]), s.txns[t].user, me.peer, Trusted(t));
        Outcome(Release(s1.(audit := s1.audit + [Note(DeviceLogin, t)]), h, t, Issued(id)), Issued(id))
  }

  /** A handler dies; the database rolls back and drops its lock. */
  function Crash(s: Core, h: nat): (r: Outcome)
    ensures KeepsAway(s, r.core, h)
    ensures r.core.txns == s.txns
    ensures OnlyNotes(s.audit, r.core.audit)
    ensures r.core.book == s.book
    ensures r.core.users == s.users
    ensures r.core.clock == s.clock
    ensures r.core.rates == s.rates
  {
    if h !in s.handlers then Outcome(s, Waiting)
    else
      var me := s.handlers[h];
      if me.Verifying? || me.Gating? then Outcome(Release(s, h, me.txn, Refused(500)), Refused(500))
      else Outcome(Answer(s, h, Refused(500)), Refused(500))
  }

  // ---------------------------------------------------------------------------
  // Protective actions
  // ---------------------------------------------------------------------------

  /** The change_reason of a keyed delivery; an empty key is no key. */
  function KeyedReason(key: Option<string>): Option<string> {
    if key == None || key.value == "" then None else Some("idempotency:" + key.value)
  }

  predicate Records(row: AuditRow, action: ProtectiveAction, user: nat, reason: string) {
    row.Protective? && row.action == action && row.user == user && row.reason == reason
  }

  predicate Recorded(audit: seq<AuditRow>, action: ProtectiveAction, user: nat, reason: string) {
    exists k :: 0 <= k < |audit| && Records(audit[k], action, user, reason)
  }

  /** What the action does to the account itself. */
  function Protected(u: User, action: ProtectiveAction, now: Time): User {
    match action
    case RequireMfa => u.(detectionMfa := true)
    case LockUser => if u.status == Locked then u else u.(status := Locked, lockedAt := Some(now))
    case _ => u
  }

  predicate InEffect(u: User, action: ProtectiveAction, revoked: nat) {
    match action
    case RequireMfa => u.detectionMfa
    case LockUser => u.status == Locked
    case _ => revoked == 0
  }

  function ApplyAction(s: Core, action: ProtectiveAction, user: nat, key: Option<string>, reason: string): (r: Outcome)
    ensures SameDesk(s, r.core)
    ensures r.core.clock == s.clock
    ensures s.users.Keys <= r.core.users.Keys
    ensures r.core.rates == s.rates
  {
    if user !in s.users then Refuse(s, 404)
    else
      var keyed := KeyedReason(key);
      if keyed.Some? && Recorded(s.audit, action, user, keyed.value) then Outcome(s, Enforced(true, 0))
      else
        var u := s.users[user];
        var revoked := LiveCount(s.book.sessions, user);
        var row := Protective(action, user, if keyed.Some? then keyed.value else reason, revoked);
        Outcome(RevokeAll(s.(users := s.users[user := Protected(u, action, s.clock)]), user, row),
                Enforced(InEffect(u, action, revoked), revoked))
  }

  // ---------------------------------------------------------------------------
  // Identity administration
  // ---------------------------------------------------------------------------

  predicate ActiveAdmin(u: User) {
    u.status == Active && SecurityAdmin in u.roles
  }

  function ActiveAdmins(users: map<nat, User>): set<nat> {
    set u | u in users && ActiveAdmin(users[u])
  }

  /** The guard of role removal and locking refuses. */
  predicate LastAdminGuard(s: Core, target: User, role: Role) {
    role == SecurityAdmin && target.status == Active && |ActiveAdmins(s.users)| <= 1
  }

  function AssignRole(s: Core, user: nat, role: Role): (r: Outcome)
    ensures NoRecordWritten(s.audit, r.core.audit)
    ensures SameDesk(s, r.core)
    ensures r.core.clock == s.clock
    ensures s.users.Keys <= r.core.users.Keys
    ensures r.core.rates == s.rates
  {
    if user !in s.users then Refuse(s, 404)
    else
      var u := s.users[user];
      if role in u.roles then Outcome(s, Done)
      else
        Outcome(Revocation(s.(users := s.users[user := u.(roles := u.roles + {role})]), RoleAssigned, user), Done)
  }

  function RevokeRole(s: Core, user: nat, role: Role): (r: Outcome)
    ensures NoRecordWritten(s.audit, r.core.audit)
    ensures SameDesk(s, r.core)
    ensures r.core.clock == s.clock
    ensures s.users.Keys <= r.core.users.Keys
    ensures r.core.rates == s.rates
  {
    if role == BaseUser then Refuse(s, 422)
    else if user !in s.users then Refuse(s, 404)
    else
      var u := s.users[user];
      if role !in u.roles then Refuse(s, 404)
      else if LastAdminGuard(s, u, role) then Refuse(s, 409)
      else
        Outcome(Revocation(s.(users := s.users[user := u.(roles := u.roles - {role})]), RoleRevoked, user), Done)
  }

  function LockAccount(s: Core, user: nat): (r: Outcome)
    ensures NoRecordWritten(s.audit, r.core.audit)
    ensures SameDesk(s, r.core)
    ensures r.core.clock == s.clock
    ensures s.users.Keys <= r.core.users.Keys
    ensures r.core.rates == s.rates
  {
    if user !in s.users then Refuse(s, 404)
    else
      var u := s.users[user];
      if u.status == Locked then Outcome(s, Done)
      else if LastAdminGuard(s, u, SecurityAdmin) then Refuse(s, 409)
      else
        Outcome(Revocation(s.(users := s.users[user := u.(status := Locked, lockedAt := Some(s.clock))]),
                           AccountLocked, user),
                Done)
  }

  function UnlockAccount(s: Core, user: nat): (r: Outcome)
    ensures OnlyNotes(s.audit, r.core.audit)
    ensures SameDesk(s, r.core)
    ensures r.core.book == s.book
    ensures r.core.clock == s.clock
    ensures s.users.Keys <= r.core.users.Keys
    ensures r.core.rates == s.rates
  {
    if user !in s.users then Refuse(s, 404)
    else
      Outcome(s.(users := s.users[user := s.users[user].(status := Active, lockedAt := None)],
                 audit := s.audit + [Note(AccountUnlocked, user)]), Done)
  }

  function ToggleMfa(s: Core, user: nat, required: bool): (r: Outcome)
    ensures NoRecordWritten(s.audit, r.core.audit)
    ensures SameDesk(s, r.core)
    ensures r.core.clock == s.clock
    ensures s.users.Keys <= r.core.users.Keys
    ensures r.core.rates == s.rates
  {
    if user !in s.users then Refuse(s, 404)
    else
      Outcome(Revocation(s.(users := s.users[user := s.users[user].(adminMfa := required)]), MfaToggled, user), Done)
  }

  // ---------------------------------------------------------------------------
  // Runs
  // ---------------------------------------------------------------------------

  datatype Step =
    | Tick(elapsed: nat)
    | RegisterStep(user: nat)
    | EditDevices(devices: map<(nat, nat), Device>)
    | LoginStep(peer: Peer, user: nat, passwordOk: bool, hold: bool, code: nat)
    | VerifyArriveStep(h: nat, txn: nat, peer: Peer, code: nat)
    | VerifyLockStep(h: nat)
    | VerifyFinishStep(h: nat)
    | RequestStep(peer: Peer, user: nat, passwordOk: bool, hold: bool, fingerprint: nat)
    | ApproveStep(token: nat, txn: nat, peer: Peer)
    | CompleteArriveStep(h: nat, txn: nat, peer: Peer, fingerprint: nat)
    | CompleteLockStep(h: nat)
    | CompleteFinishStep(h: nat, hold: bool)
    | CrashStep(h: nat)
    | RefreshStep(token: nat)
    | LogoutStep(token: nat)
    | LogoutAllStep(token: nat)
    | RevokeSessionStep(token: nat, target: nat)
    | ActionStep(action: ProtectiveAction, user: nat, key: Option<string>, reason: string)
    | AssignRoleStep(user: nat, role: Role)
    | RevokeRoleStep(user: nat, role: Role)
    | LockStep(user: nat)
    | UnlockStep(user: nat)
    | ToggleMfaStep(user: nat, required: bool)

  function Take(s: Core, step: Step): Outcome {
    match step
    case Tick(elapsed) => Outcome(s.(clock := s.clock + elapsed), Done)
    case RegisterStep(user) => Register(s, user)
    case EditDevices(devices) => Outcome(s.(devices := devices), Done)
    case LoginStep(peer, user, passwordOk, hold, code) => Login(s, peer, user, passwordOk, hold, code)
    case VerifyArriveStep(h, txn, peer, code) => VerifyArrive(s, h, txn, peer, code)
    case VerifyLockStep(h) => VerifyLock(s, h)
    case VerifyFinishStep(h) => VerifyFinish(s, h)
    case RequestStep(peer, user, passwordOk, hold, fingerprint) =>
      RequestApproval(s, peer, user, passwordOk, hold, fingerprint)
    case ApproveStep(token, txn, peer) => Approve(s, token, txn, peer)
    case CompleteArriveStep(h, txn, peer, fingerprint) => CompleteArrive(s, h, txn, peer, fingerprint)
    case CompleteLockStep(h) => CompleteLock(s, h)
    case CompleteFinishStep(h, hold) => CompleteFinish(s, h, hold)
    case CrashStep(h) => Crash(s, h)
    case RefreshStep(token) => Refresh(s, token)
    case LogoutStep(token) => Logout(s, token)
    case LogoutAllStep(token) => LogoutAll(s, token)
    case RevokeSessionStep(token, target) => RevokeSession(s, token, target)
    case ActionStep(action, user, key, reason) => ApplyAction(s, action, user, key, reason)
    case AssignRoleStep(user, role) => AssignRole(s, user, role)
    case RevokeRoleStep(user, role) => RevokeRole(s, user, role)
    case LockStep(user) => LockAccount(s, user)
    case UnlockStep(user) => UnlockAccount(s, user)
    case ToggleMfaStep(user, required) => ToggleMfa(s, user, required)
  }

  function Apply(s: Core, step: Step): Core {
    Take(s, step).core
  }

  function Run(s: Core, steps: seq<Step>): Core {
    if steps == [] then s else Apply(Run(s, steps[..|steps| - 1]), steps[|steps| - 1])
  }

  lemma RunSnoc(s: Core, steps: seq<Step>, step: Step)
    ensures Run(s, steps + [step]) == Apply(Run(s, steps), step)
  {
    assert (steps + [step])[..|steps|] == steps;
  }

  lemma RunOfOne(s: Core, step: Step)
    ensures Run(s, [step]) == Apply(s, step)
  {
    RunSnoc(s, [], step);
    assert [] + [step] == [step];
  }

  lemma RunOfTwo(s: Core, a: Step, b: Step)
    ensures Run(s, [a, b]) == Apply(Apply(s, a), b)
  {
    RunSnoc(s, [], a);
    RunSnoc(s, [a], b);
    assert [] + [a] == [a] && [a] + [b] == [a, b];
  }

  lemma RunOfThree(s: Core, a: Step, b: Step, c: Step)
    ensures Run(s, [a, b, c]) == Apply(Apply(Apply(s, a), b), c)
  {
    RunOfTwo(s, a, b);
    RunSnoc(s, [a, b], c);
    assert [a, b] + [c] == [a, b, c];
  }

  lemma {:induction false} RunAppend(s: Core, first: seq<Step>, second: seq<Step>)
    ensures Run(s, first + second) == Run(Run(s, first), second)
  {
    if second == [] {
      assert first + second == first;
    } else {
      var n := |second| - 1;
      RunAppend(s, first, second[..n]);
      assert (first + second)[..|first + second| - 1] == first + second[..n];
    }
  }

  /** A run cut in three. */
  lemma RunInParts(s: Core, first: seq<Step>, second: seq<Step>, third: seq<Step>)
    ensures Run(s, first + second + third) == Run(Run(Run(s, first), second), third)
  {
    RunAppend(s, first, second);
    RunAppend(s, first + second, third);
  }
}
