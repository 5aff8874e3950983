/** Where sessions come from: over every run, each has exactly one cause and no transaction causes two. */
module Provenance {
  import opened Basics
  import opened Network
  import opened Sessions
  import RateLimiter
  import Detection
  import opened Core
  import opened TokenSafety
  import opened Challenges

  /** The origin of a session that transaction t, of this kind, produces. */
  function Source(kind: Kind, t: nat): Origin {
    if kind == TrustedDevice then Trusted(t) else Otp(t)
  }

  /** Session i and transaction t point at each other. */
  predicate Paired(s: Core, i: nat, t: nat) {
    && i < |s.book.sessions| && t < |s.txns|
    && s.book.sessions[i].origin == Source(s.txns[t].kind, t) && s.txns[t].session == Some(i)
    && s.book.sessions[i].user == s.txns[t].user
  }

  function TxnOf(origin: Origin): Option<nat> {
    match origin
    case Direct => None
    case Otp(t) => Some(t)
    case Trusted(t) => Some(t)
  }

  ghost predicate Linked(s: Core) {
    && (forall i :: 0 <= i < |s.book.sessions| ==>
          s.book.sessions[i].origin == Direct || Paired(s, i, TxnOf(s.book.sessions[i].origin).value))
    && (forall t :: 0 <= t < |s.txns| && s.txns[t].session.Some? ==> Paired(s, s.txns[t].session.value, t))
  }

  // ---------------------------------------------------------------------------
  // Steps
  // ---------------------------------------------------------------------------

  function SessionOf(txns: seq<Txn>, t: nat): Option<nat> {
    if t < |txns| then txns[t].session else None
  }

  /** No transaction produces a session in this step; a session that appears is a direct one. */
  ghost predicate NoneConsumed(s: Core, after: Core) {
    && (forall t :: 0 <= t < |after.txns| ==> after.txns[t].session == SessionOf(s.txns, t))
    && (|after.book.sessions| == |s.book.sessions|
        || (|after.book.sessions| == |s.book.sessions| + 1 && after.book.sessions[|s.book.sessions|].origin == Direct))
  }

  /** Transaction t produces the one session that appears in this step. */
  ghost predicate Produces(s: Core, after: Core, t: nat) {
    && t < |s.txns| && s.txns[t].session == None && |after.txns| == |s.txns|
    && (forall u :: 0 <= u < |after.txns| && u != t ==> after.txns[u] == s.txns[u])
    && |after.book.sessions| == |s.book.sessions| + 1
    && Paired(after, |s.book.sessions|, t)
  }

  lemma LinksKept(s: Core, after: Core)
    requires Linked(s) && Grows(s, after) && TxnsMove(s.txns, after.txns) && NoneConsumed(s, after)
    ensures Linked(after)
  {
    forall i | 0 <= i < |after.book.sessions| && after.book.sessions[i].origin != Direct
      ensures Paired(after, i, TxnOf(after.book.sessions[i].origin).value)
    {
      assert SameSession(s.book.sessions[i], after.book.sessions[i], |s.book.issued|);
      var t := TxnOf(s.book.sessions[i].origin).value;
      assert Paired(s, i, t);
      assert RowMoves(s.txns[t], after.txns[t]);
    }
    forall t | 0 <= t < |after.txns| && after.txns[t].session.Some?
      ensures Paired(after, after.txns[t].session.value, t)
    {
      var i := after.txns[t].session.value;
      assert Paired(s, i, t);
      assert RowMoves(s.txns[t], after.txns[t]);
      assert SameSession(s.book.sessions[i], after.book.sessions[i], |s.book.issued|);
    }
  }

  lemma LinkAdded(s: Core, after: Core, c: nat)
    requires Linked(s) && Grows(s, after) && Produces(s, after, c)
    ensures Linked(after)
  {
    forall i | 0 <= i < |after.book.sessions| && after.book.sessions[i].origin != Direct
      ensures Paired(after, i, TxnOf(after.book.sessions[i].origin).value)
    {
      if i < |s.book.sessions| {
        assert SameSession(s.book.sessions[i], after.book.sessions[i], |s.book.issued|);
        assert Paired(s, i, TxnOf(s.book.sessions[i].origin).value);
      }
    }
    forall t | 0 <= t < |after.txns| && after.txns[t].session.Some?
      ensures Paired(after, after.txns[t].session.value, t)
    {
      if t != c {
        var i := after.txns[t].session.value;
        assert Paired(s, i, t);
        assert SameSession(s.book.sessions[i], after.book.sessions[i], |s.book.issued|);
      }
    }
  }

  lemma VerifyProduces(s: Core, h: nat)
    requires Inv(s)
    ensures var after := VerifyFinish(s, h).core;
            NoneConsumed(s, after) || (h in s.handlers && s.handlers[h].Verifying?
                                       && Produces(s, after, s.handlers[h].txn))
  {
    if h in s.handlers && s.handlers[h].Verifying? {
      var me := s.handlers[h];
      assert HandlerOk(s, h, me);
      assert TxnOk(s, me.seen);
      if Judge(me.seen, me.peer, me.code, me.at).Accept? {
        VerifyAccepts(s, h);
        VerifyIssues(s, h);
      } else {
        VerifyRejects(s, h);
        VerifyIssues(s, h);
      }
    }
  }

  lemma CompleteIssues(s: Core, h: nat, hold: bool)
    requires h in s.handlers && s.handlers[h].Gating?
    requires s.handlers[h].txn < |s.txns| && s.txns[s.handlers[h].txn].user in s.users
    ensures var me, after := s.handlers[h], CompleteFinish(s, h, hold).core;
            if hold then after.book == s.book
            else after.book == Add(s.book, s.txns[me.txn].user, s.clock, SessionIp(me.peer), Trusted(me.txn))
  {}

  lemma CompleteProduces(s: Core, h: nat, hold: bool)
    requires Inv(s)
    ensures var after := CompleteFinish(s, h, hold).core;
            NoneConsumed(s, after) || (h in s.handlers && s.handlers[h].Gating?
                                       && Produces(s, after, s.handlers[h].txn))
  {
    if h in s.handlers && s.handlers[h].Gating? {
      assert HandlerOk(s, h, s.handlers[h]);
      assert TxnOk(s, s.txns[s.handlers[h].txn]);
      CompleteShape(s, h, hold);
      CompleteIssues(s, h, hold);
    }
  }

  /** A direct login is the only other way to a session. */
  lemma LoginProduces(s: Core, peer: Peer, user: nat, passwordOk: bool, hold: bool, code: nat)
    ensures NoneConsumed(s, Login(s, peer, user, passwordOk, hold, code).core)
  {
    LoginDesk(s, peer, user, passwordOk, hold, code);
    var op := LoginOp(s, peer, user, passwordOk, hold, code);
  }

  lemma ElsewhereProduces(s: Core, step: Step)
    requires Elsewhere(step)
    ensures NoneConsumed(s, Apply(s, step))
  {
    ElsewhereFrame(s, step);
    var op := OpOf(s, step);
    ElsewhereAddsNothing(s, step);
  }

  lemma ElsewhereAddsNothing(s: Core, step: Step)
    requires Elsewhere(step)
    ensures |Apply(s, step).book.sessions| == |s.book.sessions|
  {}

  lemma OthersAddNothing(s: Core, step: Step)
    requires !step.LoginStep? && !step.VerifyFinishStep? && !step.CompleteFinishStep?
    ensures |Apply(s, step).book.sessions| == |s.book.sessions|
  {
    if Elsewhere(step) {
      ElsewhereAddsNothing(s, step);
    }
  }

  lemma RequestProduces(s: Core, peer: Peer, user: nat, passwordOk: bool, hold: bool, fingerprint: nat)
    ensures NoneConsumed(s, RequestApproval(s, peer, user, passwordOk, hold, fingerprint).core)
  {
    RequestDesk(s, peer, user, passwordOk, hold, fingerprint);
  }

  lemma DeskProduces(s: Core, step: Step)
    requires Inv(s)
    requires step.VerifyArriveStep? || step.VerifyLockStep? || step.CompleteArriveStep? || step.CrashStep?
    ensures NoneConsumed(s, Apply(s, step))
  {}

  lemma ApproveProduces(s: Core, token: nat, t: nat, peer: Peer)
    ensures NoneConsumed(s, Approve(s, token, t, peer).core)
  {
    ApproveDesk(s, token, t, peer);
  }

  lemma CompleteLockProduces(s: Core, h: nat)
    ensures NoneConsumed(s, CompleteLock(s, h).core)
  {
    if h in s.handlers && s.handlers[h].CompleteArrived? {
      CompleteLockDesk(s, h);
    }
  }

  lemma StepProduces(s: Core, step: Step) returns (t: Option<nat>)
    requires Inv(s)
    ensures if t.Some? then Produces(s, Apply(s, step), t.value) else NoneConsumed(s, Apply(s, step))
  {
    t := None;
    if Elsewhere(step) {
      ElsewhereProduces(s, step);
    } else {
      match step {
        case LoginStep(peer, user, passwordOk, hold, code) => LoginProduces(s, peer, user, passwordOk, hold, code);
        case VerifyFinishStep(h) =>
          VerifyProduces(s, h);
          if !NoneConsumed(s, Apply(s, step)) {
            t := Some(s.handlers[h].txn);
          }
        case CompleteFinishStep(h, hold) =>
          CompleteProduces(s, h, hold);
          if !NoneConsumed(s, Apply(s, step)) {
            t := Some(s.handlers[h].txn);
          }
        case RequestStep(peer, user, passwordOk, hold, fingerprint) =>
          RequestProduces(s, peer, user, passwordOk, hold, fingerprint);
        case ApproveStep(token, u, peer) => ApproveProduces(s, token, u, peer);
        case CompleteLockStep(h) => CompleteLockProduces(s, h);
        case _ => DeskProduces(s, step);
      }
    }
  }

  lemma StepKeepsLinks(s: Core, step: Step)
    requires Inv(s) && Linked(s)
    ensures Linked(Apply(s, step))
  {
    StepKeepsDesk(s, step);
    StepGrows(s, step);
    var t := StepProduces(s, step);
    if t.Some? {
      LinkAdded(s, Apply(s, step), t.value);
    } else {
      LinksKept(s, Apply(s, step));
    }
  }

  lemma {:induction false} RunKeepsLinks(s: Core, steps: seq<Step>)
    requires Inv(s) && Linked(s)
    ensures Linked(Run(s, steps)) && Inv(Run(s, steps))
  {
    RunKeepsInv(s, steps);
    if steps != [] {
      RunKeepsLinks(s, steps[..|steps| - 1]);
      StepKeepsLinks(Run(s, steps[..|steps| - 1]), steps[|steps| - 1]);
    }
  }

  // ---------------------------------------------------------------------------
  // Whole runs
  // ---------------------------------------------------------------------------

  lemma Reachable(clock: Time, users: map<nat, User>, steps: seq<Step>)
    ensures Linked(Run(Start(clock, users), steps)) && Inv(Run(Start(clock, users), steps))
  {
    StartOk(clock, users);
    RunKeepsLinks(Start(clock, users), steps);
  }

  /**
   The step is a login of the user that opens a session on the spot: within the limit, with
   the right password, for an account that is not locked, with both MFA flags down and no
   hold by the gate.
   */
  predicate OpensDirectly(before: Core, step: Step, user: nat) {
    && step.LoginStep? && step.user == user && step.passwordOk && !step.hold
    && !RateLimiter.Denied(RateRow(before, step.peer, LoginCounter), before.clock)
    && user in before.users && before.users[user].status != Locked
    && !before.users[user].adminMfa && !before.users[user].detectionMfa
  }

  /** Step j of the run is such a login and finds i sessions. */
  ghost predicate DirectCause(s: Core, steps: seq<Step>, i: nat, user: nat, j: nat) {
    && j < |steps| && OpensDirectly(Run(s, steps[..j]), steps[j], user)
    && |Run(s, steps[..j]).book.sessions| == i
  }

  lemma CauseStays(s: Core, steps: seq<Step>, i: nat, user: nat, j: nat)
    requires steps != [] && DirectCause(s, steps[..|steps| - 1], i, user, j)
    ensures DirectCause(s, steps, i, user, j)
  {
    assert steps[..|steps| - 1][..j] == steps[..j];
  }

  /** The step's operation on the sessions table; it adds a direct session only if the step is such a login. */
  lemma DirectOp(s: Core, step: Step) returns (op: Op)
    ensures Does(s, Apply(s, step), op)
    ensures op.AddOp? && op.origin == Direct ==> OpensDirectly(s, step, op.user)
  {
    if step.LoginStep? {
      op := LoginOp(s, step.peer, step.user, step.passwordOk, step.hold, step.code);
      DirectLoginExactlyWhen(s, step.peer, step.user, step.passwordOk, step.hold, step.code);
    } else if step.VerifyFinishStep? {
      op := VerifyOp(s, step.h);
    } else if step.CompleteFinishStep? {
      op := CompleteOp(s, step.h, step.hold);
    } else {
      op := OpOf(s, step);
    }
  }

  /** A session that stands after the operation stood before, or is the one just added. */
  lemma OldOrAdded(b: Book, op: Op, i: nat)
    requires BookOk(b) && Possible(b, op) && i < |Do(b, op).sessions|
    ensures if i < |b.sessions| then Do(b, op).sessions[i].user == b.sessions[i].user
            && Do(b, op).sessions[i].origin == b.sessions[i].origin
            else op.AddOp? && i == |b.sessions| && Do(b, op).sessions[i].user == op.user
                 && Do(b, op).sessions[i].origin == op.origin
  {
    DoContinues(b, op);
  }

  lemma {:induction false} DirectSessionsHaveLogins(s: Core, steps: seq<Step>, i: nat) returns (j: nat)
    requires BookOk(s.book) && |s.book.sessions| <= i < |Run(s, steps).book.sessions|
    requires Run(s, steps).book.sessions[i].origin == Direct
    ensures DirectCause(s, steps, i, Run(s, steps).book.sessions[i].user, j)
  {
    var n := |steps| - 1;
    RunKeepsBook(s, steps[..n]);
    var op := DirectOp(Run(s, steps[..n]), steps[n]);
    OldOrAdded(Run(s, steps[..n]).book, op, i);
    if i < |Run(s, steps[..n]).book.sessions| {
      j := DirectSessionsHaveLogins(s, steps[..n], i);
      CauseStays(s, steps, i, Run(s, steps).book.sessions[i].user, j);
    } else {
      j := n;
    }
  }

  /**
   In every reachable state a session has its cause in the run: a direct one comes from one
   login that needed no MFA, and every other belongs to one completed OTP challenge or one
   approved and consumed trusted-device request, of the same user.
   */
  lemma EverySessionHasItsCause(clock: Time, users: map<nat, User>, steps: seq<Step>, i: nat)
    requires i < |Run(Start(clock, users), steps).book.sessions|
    ensures var s := Run(Start(clock, users), steps);
            match s.book.sessions[i].origin
            case Direct => exists j :: DirectCause(Start(clock, users), steps, i, s.book.sessions[i].user, j)
            case Otp(t) =>
              && Paired(s, i, t) && s.txns[t].kind != TrustedDevice
              && s.txns[t].status == Completed && s.txns[t].verifiedAt.Some?
            case Trusted(t) =>
              && Paired(s, i, t) && s.txns[t].kind == TrustedDevice
              && s.txns[t].consumedAt.Some? && s.txns[t].approval.Some?
  {
    Reachable(clock, users, steps);
    var s := Run(Start(clock, users), steps);
    var t := TxnOf(s.book.sessions[i].origin);
    if t.Some? {
      assert Paired(s, i, t.value);
      assert TxnOk(s, s.txns[t.value]);
    } else {
      StartOk(clock, users);
      var j := DirectSessionsHaveLogins(Start(clock, users), steps, i);
    }
  }

  /** No transaction yields two sessions, and each completed or consumed one yields exactly one. */
  lemma OneSessionPerTransaction(clock: Time, users: map<nat, User>, steps: seq<Step>, t: nat)
    requires t < |Run(Start(clock, users), steps).txns|
    ensures var s := Run(Start(clock, users), steps);
            var x := s.txns[t];
            && (forall i, j :: 0 <= i < j < |s.book.sessions| ==>
                  !(TxnOf(s.book.sessions[i].origin) == Some(t) && TxnOf(s.book.sessions[j].origin) == Some(t)))
            && ((if x.kind == TrustedDevice then x.consumedAt.Some? else x.status == Completed) <==>
                exists i :: 0 <= i < |s.book.sessions| && Paired(s, i, t))
  {
    Reachable(clock, users, steps);
    var s := Run(Start(clock, users), steps);
    assert TxnOk(s, s.txns[t]);
    if s.txns[t].session.Some? {
      assert Paired(s, s.txns[t].session.value, t);
    }
    forall i, j | 0 <= i < j < |s.book.sessions|
      ensures !(TxnOf(s.book.sessions[i].origin) == Some(t) && TxnOf(s.book.sessions[j].origin) == Some(t)) {
      if TxnOf(s.book.sessions[i].origin) == Some(t) {
        assert Paired(s, i, t);
      }
    }
  }

  /**
   A login opens a session on the spot exactly when it is within the rate limit, the
   password is right, the account is not locked, and neither MFA flag nor the gate asks
   for more. A suspended account passes.
   */
  lemma DirectLoginExactlyWhen(s: Core, peer: Peer, user: nat, passwordOk: bool, hold: bool, code: nat)
    ensures var r := Login(s, peer, user, passwordOk, hold, code);
            var n := |s.book.sessions|;
            && (|r.core.book.sessions| == n + 1 <==>
                && !RateLimiter.Denied(RateRow(s, peer, LoginCounter), s.clock)
                && user in s.users && passwordOk && s.users[user].status != Locked
                && !s.users[user].adminMfa && !s.users[user].detectionMfa && !hold)
            && (|r.core.book.sessions| == n + 1 ==>
                  r.core.book.sessions[n].user == user && r.core.book.sessions[n].origin == Direct
                  && r.core.txns == s.txns)
  {}

  /**
   Otherwise, with the same password and within the limit, an unlocked account gets an
   OTP challenge: persistent when an administrator requires it, else one-time, bound to
   the peer's address if it has one, valid for five minutes, and without a session.
   */
  lemma ChallengeExactlyWhen(s: Core, peer: Peer, user: nat, passwordOk: bool, hold: bool, code: nat)
    ensures var r := Login(s, peer, user, passwordOk, hold, code);
            var n := |s.txns|;
            && (|r.core.txns| == n + 1 <==>
                && !RateLimiter.Denied(RateRow(s, peer, LoginCounter), s.clock)
                && user in s.users && passwordOk && s.users[user].status != Locked
                && (s.users[user].adminMfa || s.users[user].detectionMfa || hold))
            && (|r.core.txns| == n + 1 ==>
                  && r.core.txns[n].user == user && r.core.txns[n].status == Pending && r.core.txns[n].failCount == 0
                  && (r.core.txns[n].kind == Persistent <==> s.users[user].adminMfa)
                  && r.core.txns[n].kind != TrustedDevice
                  && r.core.txns[n].boundIp == OtpBinding(peer) && r.core.txns[n].expiresAt == s.clock + 5 * MINUTE
                  && r.core.book == s.book
                  && (r.core.users[user].detectionMfa <==> s.users[user].detectionMfa || hold))
  {}

  /**
   An approval takes effect exactly when an authenticated session of the requester, used
   from its own address, approves an unlocked request that is still valid and neither
   failed nor expired; it also makes the device trusted for thirty days.
   */
  lemma ApprovedExactlyWhen(s: Core, token: nat, t: nat, peer: Peer)
    ensures var r := Approve(s, token, t, peer);
            && (r.reply == Done <==>
                && Authenticate(s, token).Some? && Authenticate(s, token).value < |s.book.sessions|
                && Approves(s, Authenticate(s, token).value, t)
                && SameIp(s.book.sessions[Authenticate(s, token).value].ip, peer))
            && (r.reply == Done ==>
                  && r.core.txns == s.txns[t := r.core.txns[t]] && r.core.txns[t].status == Completed
                  && var key := (s.txns[t].user, s.txns[t].fingerprint);
                  key in r.core.devices && r.core.devices[key] == Device(s.txns[t].boundIp, Some(s.clock + 30 * DAY)))
  {}

  /**
   A completion reaches the gate exactly when the request is approved, not yet used and
   still valid, comes from the bound address and the same device, and belongs to an
   active user without MFA flags; the row is then locked.
   */
  lemma GateReachedExactlyWhen(s: Core, h: nat)
    requires h in s.handlers && s.handlers[h].CompleteArrived?
    ensures var me, after := s.handlers[h], CompleteLock(s, h).core;
            var t := me.txn;
            && h in after.handlers
            && (after.handlers[h].Gating? <==>
                && t < |s.txns| && t !in s.locks && s.txns[t].kind == TrustedDevice
                && s.txns[t].status == Completed && s.txns[t].consumedAt == None && s.clock < s.txns[t].expiresAt
                && SameIp(s.txns[t].boundIp, me.peer) && s.txns[t].fingerprint == me.fingerprint
                && s.txns[t].user in s.users && s.users[s.txns[t].user].status == Active
                && !s.users[s.txns[t].user].adminMfa && !s.users[s.txns[t].user].detectionMfa)
            && (after.handlers[h].Gating? ==> after.locks == s.locks[t := h] && after.txns == s.txns)
  {
    CompleteLockDesk(s, h);
  }

  // ---------------------------------------------------------------------------
  // The one-time MFA flag
  // ---------------------------------------------------------------------------

  lemma LoginKeepsFlag(s: Core, peer: Peer, u: nat, passwordOk: bool, hold: bool, code: nat, user: nat)
    requires Flagged(s, user)
    ensures Flagged(Login(s, peer, u, passwordOk, hold, code).core, user)
  {}

  lemma ActionKeepsFlag(s: Core, action: ProtectiveAction, u: nat, key: Option<string>, reason: string, user: nat)
    requires Flagged(s, user)
    ensures Flagged(ApplyAction(s, action, u, key, reason).core, user)
  {}

  lemma RoleStepKeepsFlag(s: Core, step: Step, user: nat)
    requires step.AssignRoleStep? || step.RevokeRoleStep?
    requires Flagged(s, user)
    ensures Flagged(Apply(s, step), user)
  {}

  lemma AccountStepKeepsFlag(s: Core, step: Step, user: nat)
    requires step.LockStep? || step.UnlockStep? || step.ToggleMfaStep?
    requires Flagged(s, user)
    ensures Flagged(Apply(s, step), user)
  {}

  lemma SimpleStepKeepsFlag(s: Core, step: Step, user: nat)
    requires !Locking(step) && Flagged(s, user)
    ensures Flagged(Apply(s, step), user)
  {
    if step.LoginStep? {
      LoginKeepsFlag(s, step.peer, step.user, step.passwordOk, step.hold, step.code, user);
    } else if step.ActionStep? {
      ActionKeepsFlag(s, step.action, step.user, step.key, step.reason, user);
    } else if step.AssignRoleStep? || step.RevokeRoleStep? {
      RoleStepKeepsFlag(s, step, user);
    } else if step.LockStep? || step.UnlockStep? || step.ToggleMfaStep? {
      AccountStepKeepsFlag(s, step, user);
    }
  }

  lemma LockingStepKeepsFlag(s: Core, step: Step, user: nat)
    requires Locking(step) && !step.VerifyFinishStep? && Flagged(s, user)
    ensures Flagged(Apply(s, step), user)
  {}

  lemma VerifyClears(s: Core, h: nat, user: nat)
    requires Inv(s) && Flagged(s, user)
    ensures !Flagged(VerifyFinish(s, h).core, user) <==>
            h in s.handlers && Accepting(s.handlers[h]) && s.handlers[h].seen.kind == OneTime
            && s.handlers[h].seen.user == user
  {
    if h in s.handlers && s.handlers[h].Verifying? {
      assert HandlerOk(s, h, s.handlers[h]);
      assert TxnOk(s, s.handlers[h].seen);
    }
  }

  /** Only the commit of an accepted one-time code takes the flag down. */
  lemma FlagClearedExactlyWhen(s: Core, step: Step, user: nat)
    requires Inv(s) && Flagged(s, user)
    ensures !Flagged(Apply(s, step), user) <==>
            && step.VerifyFinishStep? && step.h in s.handlers && Accepting(s.handlers[step.h])
            && s.handlers[step.h].seen.kind == OneTime && s.handlers[step.h].seen.user == user
  {
    if step.VerifyFinishStep? {
      VerifyClears(s, step.h, user);
    } else if Locking(step) {
      LockingStepKeepsFlag(s, step, user);
    } else {
      SimpleStepKeepsFlag(s, step, user);
    }
  }

  /** A trusted-device completion of this user has passed its checks and waits for the gate. */
  ghost predicate AtGate(s: Core, user: nat) {
    exists h :: h in s.handlers && WaitsFor(s, s.handlers[h], user)
  }

  predicate WaitsFor(s: Core, now: Handler, user: nat) {
    now.Gating? && now.txn < |s.txns| && s.txns[now.txn].user == user
  }

  /** Handlers come to the gate by passing the checks, and in no other way. */
  lemma GateEntered(s: Core, step: Step, h: nat)
    requires !step.CompleteLockStep? && h in Apply(s, step).handlers && Apply(s, step).handlers[h].Gating?
    ensures h in s.handlers && s.handlers[h] == Apply(s, step).handlers[h]
  {
    if Elsewhere(step) {
      ElsewhereFrame(s, step);
    } else if step.LoginStep? {
      LoginDesk(s, step.peer, step.user, step.passwordOk, step.hold, step.code);
    } else if step.RequestStep? {
      RequestDesk(s, step.peer, step.user, step.passwordOk, step.hold, step.fingerprint);
    } else if step.ApproveStep? {
      ApproveDesk(s, step.token, step.txn, step.peer);
    } else {
      LockingHandlers(s, step);
    }
  }

  /** Apart from the completion's checks, a locking step leaves its handler away from the gate. */
  lemma LockingHandlers(s: Core, step: Step)
    requires Locking(step) && !step.CompleteLockStep?
    ensures KeepsAway(s, Apply(s, step), step.h)
  {}

  lemma FlagBarsGate(s: Core, h: nat, user: nat)
    requires Flagged(s, user) && !AtGate(s, user)
    ensures !AtGate(CompleteLock(s, h).core, user)
  {
    if h in s.handlers && s.handlers[h].CompleteArrived? {
      CompleteLockDesk(s, h);
      GateReachedExactlyWhen(s, h);
      var after := CompleteLock(s, h).core;
      forall p | p in after.handlers ensures !WaitsFor(after, after.handlers[p], user) {
        if p != h {
          assert !WaitsFor(s, s.handlers[p], user);
        }
      }
    }
  }

  lemma GateStaysEmpty(s: Core, step: Step, user: nat)
    requires Inv(s) && Flagged(s, user) && !AtGate(s, user)
    ensures !AtGate(Apply(s, step), user)
  {
    if step.CompleteLockStep? {
      FlagBarsGate(s, step.h, user);
    } else {
      StepKeepsDesk(s, step);
      GateKeptEmpty(s, Apply(s, step), step, user);
    }
  }

  lemma GateKeptEmpty(s: Core, after: Core, step: Step, user: nat)
    requires Inv(s) && !AtGate(s, user) && after == Apply(s, step) && !step.CompleteLockStep?
    requires TxnsMove(s.txns, after.txns)
    ensures !AtGate(after, user)
  {
    forall p | p in after.handlers ensures !WaitsFor(after, after.handlers[p], user) {
      if after.handlers[p].Gating? {
        GateEntered(s, step, p);
        assert !WaitsFor(s, s.handlers[p], user);
        assert HandlerOk(s, p, s.handlers[p]);
        assert RowMoves(s.txns[s.handlers[p].txn], after.txns[s.handlers[p].txn]);
      }
    }
  }

  /** The step opens a session for the user. */
  predicate Adds(s: Core, after: Core, user: nat) {
    |after.book.sessions| == |s.book.sessions| + 1 && after.book.sessions[|s.book.sessions|].user == user
  }

  /** The step commits an accepted code of a challenge of the user. */
  predicate UsesOtp(s: Core, step: Step, user: nat) {
    && step.VerifyFinishStep? && step.h in s.handlers && Accepting(s.handlers[step.h])
    && s.handlers[step.h].seen.user == user
  }

  /** The step finishes a completion of the user that was at the gate, and the gate does not hold it. */
  predicate PassesGate(s: Core, step: Step, user: nat) {
    step.CompleteFinishStep? && !step.hold && step.h in s.handlers && WaitsFor(s, s.handlers[step.h], user)
  }

  lemma VerifyAdds(s: Core, h: nat, user: nat)
    requires Inv(s)
    ensures var after := VerifyFinish(s, h).core;
            && (Adds(s, after, user) <==> UsesOtp(s, VerifyFinishStep(h), user))
            && (Adds(s, after, user) ==> after.book.sessions[|s.book.sessions|].origin == Otp(s.handlers[h].txn))
  {
    if h in s.handlers && s.handlers[h].Verifying? {
      assert HandlerOk(s, h, s.handlers[h]);
      assert TxnOk(s, s.handlers[h].seen);
      VerifyIssues(s, h);
    }
  }

  lemma CompleteAdds(s: Core, h: nat, hold: bool, user: nat)
    requires Inv(s)
    ensures var after := CompleteFinish(s, h, hold).core;
            && (Adds(s, after, user) <==> PassesGate(s, CompleteFinishStep(h, hold), user))
            && (Adds(s, after, user) ==> after.book.sessions[|s.book.sessions|].origin == Trusted(s.handlers[h].txn))
  {
    if h in s.handlers && s.handlers[h].Gating? {
      assert HandlerOk(s, h, s.handlers[h]);
      assert TxnOk(s, s.txns[s.handlers[h].txn]);
      CompleteIssues(s, h, hold);
    }
  }

  lemma LoginAdds(s: Core, peer: Peer, u: nat, passwordOk: bool, hold: bool, code: nat, user: nat)
    ensures var after := Login(s, peer, u, passwordOk, hold, code).core;
            && (Adds(s, after, user) <==> OpensDirectly(s, LoginStep(peer, u, passwordOk, hold, code), user))
            && (Adds(s, after, user) ==> after.book.sessions[|s.book.sessions|].origin == Direct)
  {
    DirectLoginExactlyWhen(s, peer, u, passwordOk, hold, code);
    var op := LoginOp(s, peer, u, passwordOk, hold, code);
  }

  /**
   The three ways to a session, exactly: a login that needs no more, the commit of an
   accepted code, and a completion let through by the gate. Its origin says which.
   */
  lemma AddsExactlyWhen(s: Core, step: Step, user: nat)
    requires Inv(s)
    ensures Adds(s, Apply(s, step), user) <==>
            OpensDirectly(s, step, user) || UsesOtp(s, step, user) || PassesGate(s, step, user)
    ensures Adds(s, Apply(s, step), user) ==>
              var origin := Apply(s, step).book.sessions[|s.book.sessions|].origin;
              && (origin == Direct <==> OpensDirectly(s, step, user))
              && (origin.Otp? <==> UsesOtp(s, step, user))
              && (origin.Trusted? <==> PassesGate(s, step, user))
  {
    if step.LoginStep? {
      LoginAdds(s, step.peer, step.user, step.passwordOk, step.hold, step.code, user);
    } else if step.VerifyFinishStep? {
      VerifyAdds(s, step.h, user);
    } else if step.CompleteFinishStep? {
      CompleteAdds(s, step.h, step.hold, user);
    } else {
      OthersAddNothing(s, step);
    }
  }

  lemma CompleteKeepsFlag(s: Core, h: nat, hold: bool, user: nat)
    requires Flagged(s, user)
    ensures Flagged(CompleteFinish(s, h, hold).core, user)
  {}

  /** A completion at the gate opens its session when the gate does not hold it, whatever the flags say by then. */
  lemma GateOpens(s: Core, h: nat, user: nat)
    requires Inv(s) && h in s.handlers && WaitsFor(s, s.handlers[h], user)
    ensures var after, n := CompleteFinish(s, h, false).core, |s.book.sessions|;
            && |after.book.sessions| == n + 1 && after.book.sessions[n].user == user
            && after.book.sessions[n].origin == Trusted(s.handlers[h].txn) && after.book.sessions[n].revokedAt == None
            && (Flagged(s, user) ==> Flagged(after, user))
  {
    assert HandlerOk(s, h, s.handlers[h]);
    assert TxnOk(s, s.txns[s.handlers[h].txn]);
    CompleteIssues(s, h, false);
    if Flagged(s, user) {
      CompleteKeepsFlag(s, h, false, user);
    }
  }

  /** While the flag is up a step opens a session for the user by an OTP, or for a completion that was at the gate. */
  lemma FlaggedStepExactlyWhen(s: Core, step: Step, user: nat)
    requires Inv(s) && Flagged(s, user)
    ensures Adds(s, Apply(s, step), user) <==> UsesOtp(s, step, user) || PassesGate(s, step, user)
    ensures Adds(s, Apply(s, step), user) ==>
              (Apply(s, step).book.sessions[|s.book.sessions|].origin.Otp? <==> UsesOtp(s, step, user))
  {
    AddsExactlyWhen(s, step, user);
  }

  /** The flag is up at every moment before the run's last step. */
  ghost predicate FlaggedThroughout(s: Core, steps: seq<Step>, user: nat) {
    forall j :: 0 <= j < |steps| ==> Flagged(Run(s, steps[..j]), user)
  }

  /** Every session of the user from the given one on comes from an OTP. */
  ghost predicate AllOtp(b: Book, from: nat, user: nat) {
    forall i :: from <= i < |b.sessions| && b.sessions[i].user == user ==> b.sessions[i].origin.Otp?
  }

  lemma ThroughoutPrefix(s: Core, steps: seq<Step>, user: nat)
    requires steps != [] && FlaggedThroughout(s, steps, user)
    ensures FlaggedThroughout(s, steps[..|steps| - 1], user) && Flagged(Run(s, steps[..|steps| - 1]), user)
  {
    var n := |steps| - 1;
    assert Flagged(Run(s, steps[..n]), user);
    forall j | 0 <= j < n ensures Flagged(Run(s, steps[..n][..j]), user) {
      assert steps[..n][..j] == steps[..j];
    }
  }

  lemma AllOtpStep(s: Core, step: Step, from: nat, user: nat)
    requires Inv(s) && Flagged(s, user) && !AtGate(s, user) && AllOtp(s.book, from, user)
    ensures AllOtp(Apply(s, step).book, from, user)
  {
    FlaggedStepExactlyWhen(s, step, user);
    var op := OpOf(s, step);
    AllOtpGrows(s.book, op, from, user);
  }

  lemma AllOtpGrows(b: Book, op: Op, from: nat, user: nat)
    requires BookOk(b) && Possible(b, op) && AllOtp(b, from, user)
    requires op.AddOp? && op.user == user ==> op.origin.Otp?
    ensures AllOtp(Do(b, op), from, user)
  {
    forall i | from <= i < |Do(b, op).sessions| && Do(b, op).sessions[i].user == user
      ensures Do(b, op).sessions[i].origin.Otp?
    {
      OldOrAdded(b, op, i);
    }
  }

  /**
   From a state with no completion of the user at the gate, under every interleaving and
   for as long as the flag stays up: every session the user gets is an OTP's, and the gate
   stays clear.
   */
  lemma {:induction false} FlagHolds(s: Core, steps: seq<Step>, user: nat)
    requires Inv(s) && !AtGate(s, user) && FlaggedThroughout(s, steps, user)
    ensures AllOtp(Run(s, steps).book, |s.book.sessions|, user) && !AtGate(Run(s, steps), user)
  {
    if steps != [] {
      var before, step := Run(s, steps[..|steps| - 1]), steps[|steps| - 1];
      ThroughoutPrefix(s, steps, user);
      FlagHolds(s, steps[..|steps| - 1], user);
      RunKeepsInv(s, steps[..|steps| - 1]);
      AllOtpStep(before, step, |s.book.sessions|, user);
      GateStaysEmpty(before, step, user);
    }
  }

  /**
   With the flag up: in every continuation, for as long as it stays up, only OTPs give the
   user sessions - if and only if no completion of the user is at the gate.
   */
  lemma OnlyOtpExactlyWhen(s: Core, user: nat)
    requires Inv(s) && Flagged(s, user)
    ensures (forall steps :: FlaggedThroughout(s, steps, user) ==>
               AllOtp(Run(s, steps).book, |s.book.sessions|, user)) <==>
            !AtGate(s, user)
  {
    if AtGate(s, user) {
      var h :| h in s.handlers && WaitsFor(s, s.handlers[h], user);
      GateBreaks(s, h, user);
    } else {
      forall steps | FlaggedThroughout(s, steps, user) ensures AllOtp(Run(s, steps).book, |s.book.sessions|, user) {
        FlagHolds(s, steps, user);
      }
    }
  }

  lemma GateBreaks(s: Core, h: nat, user: nat)
    requires Inv(s) && Flagged(s, user) && h in s.handlers && WaitsFor(s, s.handlers[h], user)
    ensures FlaggedThroughout(s, [CompleteFinishStep(h, false)], user)
    ensures !AllOtp(Run(s, [CompleteFinishStep(h, false)]).book, |s.book.sessions|, user)
  {
    FlaggedAtStart(s, CompleteFinishStep(h, false), user);
    GateRun(s, h);
    GateOpens(s, h, user);
    OtherOrigin(CompleteFinish(s, h, false).core.book, |s.book.sessions|, user);
  }

  lemma GateRun(s: Core, h: nat)
    ensures Run(s, [CompleteFinishStep(h, false)]) == CompleteFinish(s, h, false).core
  {
    RunOfOne(s, CompleteFinishStep(h, false));
  }

  lemma OtherOrigin(b: Book, i: nat, user: nat)
    requires i < |b.sessions| && b.sessions[i].user == user && b.sessions[i].origin.Trusted?
    ensures !AllOtp(b, i, user)
  {}

  lemma FlaggedAtStart(s: Core, step: Step, user: nat)
    requires Flagged(s, user)
    ensures FlaggedThroughout(s, [step], user)
  {
    assert [step][..0] == [];
  }

  // ---------------------------------------------------------------------------
  // A locked account
  // ---------------------------------------------------------------------------

  /**
   Nothing but the login looks at a lock once a challenge is out: a step opens a session for
   a locked account exactly when it accepts a code of a challenge opened before, or
   finishes a completion that had passed its checks before. The session's tokens do not
   authenticate while the account is locked.
   */
  lemma LockedAccountExactlyWhen(s: Core, step: Step, user: nat, token: nat)
    requires Inv(s) && user in s.users && s.users[user].status == Locked
    ensures Adds(s, Apply(s, step), user) <==> UsesOtp(s, step, user) || PassesGate(s, step, user)
    ensures var i := Authenticate(s, token);
            i.Some? ==> i.value < |s.book.sessions| && s.book.sessions[i.value].user != user
  {
    AddsExactlyWhen(s, step, user);
    if Authenticate(s, token).Some? {
      WithinTheHour(s, token);
    }
  }

  // ---------------------------------------------------------------------------
  // The flag can be raised while a completion is at the gate
  // ---------------------------------------------------------------------------

  const RacePeer := Address(1, 0)
  const RaceUsers: map<nat, User> := map[1 := NewUser]
  const RaceRequest := Opened(1, TrustedDevice, Some(RacePeer), 5, 0, 0)
  const RaceApproval: seq<Step> :=
    [LoginStep(RacePeer, 1, true, false, 0), RequestStep(RacePeer, 1, true, false, 5), ApproveStep(0, 0, RacePeer)]
  const RaceGate: seq<Step> := [CompleteArriveStep(9, 0, RacePeer, 5), CompleteLockStep(9)]
  const RaceEnd: seq<Step> := [ActionStep(Detection.RequireMfa, 1, None, "risk"), CompleteFinishStep(9, false)]

  function Approvals(s: Core): Core {
    var filed := RequestApproval(Login(s, RacePeer, 1, true, false, 0).core, RacePeer, 1, true, false, 5).core;
    Approve(filed, 0, 0, RacePeer).core
  }

  function Gate(s: Core): Core {
    CompleteLock(CompleteArrive(s, 9, 0, RacePeer, 5).core, 9).core
  }

  function Overtaken(s: Core): Core {
    CompleteFinish(ApplyAction(s, Detection.RequireMfa, 1, None, "risk").core, 9, false).core
  }

  lemma RaceRuns(s: Core)
    ensures Run(s, RaceApproval) == Approvals(s)
  {
    RunOfThree(s, RaceApproval[0], RaceApproval[1], RaceApproval[2]);
  }

  lemma GateRuns(s: Core)
    ensures Run(s, RaceGate) == Gate(s)
  {
    RunOfTwo(s, RaceGate[0], RaceGate[1]);
  }

  lemma OvertakenRuns(s: Core)
    ensures Run(s, RaceEnd) == Overtaken(s)
  {
    RunOfTwo(s, RaceEnd[0], RaceEnd[1]);
  }

  lemma ApprovalsMeaning()
    ensures var s := Approvals(Start(0, RaceUsers));
            && s.clock == 0 && s.users.Keys == {1} && s.users[1].status == Active && !s.users[1].adminMfa
            && !s.users[1].detectionMfa
            && |s.book.sessions| == 1 && s.locks == map[] && s.handlers == map[]
            && s.txns == [RaceRequest.(status := Completed, approval := Some(Approval(0, 0)))]
  {
    var s1 := Login(Start(0, RaceUsers), RacePeer, 1, true, false, 0).core;
    assert s1.book.sessions == [Session(1, 0, 1, 0, HOUR, None, None, Some(RacePeer), Direct)];
    var s2 := RequestApproval(s1, RacePeer, 1, true, false, 5).core;
    assert s2.txns == [RaceRequest];
    FindAccessFinds(s2.book.sessions, 0, 0);
    assert Authenticate(s2, 0) == Some(0);
  }

  /**
   The checks of a trusted-device completion come before the gate call. If Detection
   requires MFA while the gate is being asked, the completion still opens a session, and
   the session is live with the flag up.
   */
  lemma FlagLosesRace()
    ensures var s := Run(Start(0, RaceUsers), RaceApproval + RaceGate + RaceEnd);
            && Flagged(s, 1) && |s.book.sessions| == 2
            && s.book.sessions[1].user == 1 && s.book.sessions[1].origin == Trusted(0)
            && s.book.sessions[1].revokedAt == None
  {
    RunInParts(Start(0, RaceUsers), RaceApproval, RaceGate, RaceEnd);
    RaceRuns(Start(0, RaceUsers));
    GateRuns(Approvals(Start(0, RaceUsers)));
    OvertakenRuns(Gate(Approvals(Start(0, RaceUsers))));
    RaceMeaning(Approvals(Start(0, RaceUsers)));
  }

  lemma RaceMeaning(s: Core)
    requires s == Approvals(Start(0, RaceUsers))
    ensures var r := Overtaken(Gate(s));
            && Flagged(r, 1) && |r.book.sessions| == 2
            && r.book.sessions[1].user == 1 && r.book.sessions[1].origin == Trusted(0)
            && r.book.sessions[1].revokedAt == None
  {
    ApprovalsMeaning();
    RaceAtGate(s);
    RaceLost(Gate(s));
  }

  lemma RaceAtGate(s: Core)
    requires s.clock == 0 && s.locks == map[] && s.handlers == map[] && 1 in s.users
    requires s.users[1].status == Active && !s.users[1].adminMfa && !s.users[1].detectionMfa
    requires s.txns == [RaceRequest.(status := Completed, approval := Some(Approval(0, 0)))]
    ensures var g := Gate(s);
            && 9 in g.handlers && g.handlers[9] == Gating(0, RacePeer, 0)
            && g.txns == s.txns && g.users == s.users && g.book == s.book
  {
    var arrived := CompleteArrive(s, 9, 0, RacePeer, 5).core;
    assert Obstacle(arrived, s.txns[0], RacePeer, 5) == None;
  }

  /** The action ends the one session there is and raises the flag; the completion opens another. */
  lemma RaceLost(g: Core)
    requires 9 in g.handlers && g.handlers[9] == Gating(0, RacePeer, 0) && 1 in g.users
    requires |g.txns| == 1 && g.txns[0].user == 1 && |g.book.sessions| == 1
    ensures var r := Overtaken(g);
            && Flagged(r, 1) && |r.book.sessions| == 2
            && r.book.sessions[1].user == 1 && r.book.sessions[1].origin == Trusted(0)
            && r.book.sessions[1].revokedAt == None
  {
    var x := ApplyAction(g, Detection.RequireMfa, 1, None, "risk").core;
    assert Flagged(x, 1) && |x.book.sessions| == 1 && x.txns == g.txns && x.handlers == g.handlers;
    CompleteIssues(x, 9, false);
    CompleteKeepsFlag(x, 9, false, 1);
  }
}
