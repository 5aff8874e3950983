/** What holds of tokens and sessions over every run of the Core service. */
module TokenSafety {
  import opened Basics
  import opened Network
  import opened Sessions
  import opened Core

  /** A step's change of the sessions table, as one of the table's operations. */
  ghost predicate Does(s: Core, after: Core, op: Op) {
    && Possible(s.book, op) && after.book == Do(s.book, op)
    && (op.AddOp? ==> op.now == s.clock)
    && (if op.EndAllOp?
        then op.row == |s.audit| && |after.audit| == |s.audit| + 1 && after.audit[..|s.audit|] == s.audit
             && Reported(after.audit[|s.audit|]) == LiveCount(s.book.sessions, op.user)
        else OnlyNotes(s.audit, after.audit))
  }

  /** The sessions_revoked an audit row reports. */
  function Reported(row: AuditRow): nat {
    match row
    case Protective(_, _, _, revoked) => revoked
    case Administrative(_, _, revoked) => revoked
    case Note(_, _) => 0
  }

  lemma LoginOp(s: Core, peer: Peer, user: nat, passwordOk: bool, hold: bool, code: nat) returns (op: Op)
    ensures Does(s, Login(s, peer, user, passwordOk, hold, code).core, op) && !op.EndAllOp?
    ensures op.AddOp? ==> op.origin == Direct && op.user == user
  {
    op := if Login(s, peer, user, passwordOk, hold, code).reply.Issued?
          then AddOp(user, s.clock, SessionIp(peer), Direct)
          else Keep;
  }

  lemma VerifyOp(s: Core, h: nat) returns (op: Op)
    ensures Does(s, VerifyFinish(s, h).core, op) && !op.EndAllOp?
    ensures op.AddOp? ==> op.origin.Otp?
  {
    op := if VerifyFinish(s, h).reply.Issued?
          then AddOp(s.handlers[h].seen.user, s.clock, SessionIp(s.handlers[h].peer), Otp(s.handlers[h].txn))
          else Keep;
  }

  lemma CompleteOp(s: Core, h: nat, hold: bool) returns (op: Op)
    ensures Does(s, CompleteFinish(s, h, hold).core, op) && !op.EndAllOp?
    ensures op.AddOp? ==> op.origin.Trusted?
  {
    if CompleteFinish(s, h, hold).reply.Issued? {
      var t := s.handlers[h].txn;
      op := AddOp(s.txns[t].user, s.clock, SessionIp(s.handlers[h].peer), Trusted(t));
    } else {
      op := Keep;
    }
  }

  lemma RefreshOp(s: Core, token: nat) returns (op: Op)
    ensures Does(s, Refresh(s, token).core, op) && !op.EndAllOp?
    ensures !op.AddOp?
  {
    op := if Refresh(s, token).reply.Issued? then RotateOp(FindRefresh(s.book.sessions, token).value) else Keep;
  }

  lemma LogoutOp(s: Core, token: nat) returns (op: Op)
    ensures Does(s, Logout(s, token).core, op) && !op.EndAllOp?
    ensures !op.AddOp?
  {
    op := if Logout(s, token).reply.Done? then EndOp(Authenticate(s, token).value, s.clock) else Keep;
  }

  lemma LogoutAllOp(s: Core, token: nat) returns (op: Op)
    ensures Does(s, LogoutAll(s, token).core, op)
    ensures !op.AddOp?
  {
    op := if LogoutAll(s, token).reply.Done?
          then EndAllOp(s.book.sessions[Authenticate(s, token).value].user, s.clock, |s.audit|)
          else Keep;
  }

  lemma RevokeSessionOp(s: Core, token: nat, target: nat) returns (op: Op)
    ensures Does(s, RevokeSession(s, token, target).core, op) && !op.EndAllOp?
    ensures !op.AddOp?
  {
    op := if RevokeSession(s, token, target).reply.Done? then EndOp(target, s.clock) else Keep;
  }

  lemma ActionOp(s: Core, action: ProtectiveAction, user: nat, key: Option<string>, reason: string) returns (op: Op)
    ensures Does(s, ApplyAction(s, action, user, key, reason).core, op)
    ensures !op.AddOp?
  {
    op := if ApplyAction(s, action, user, key, reason).core == s then Keep else EndAllOp(user, s.clock, |s.audit|);
  }

  lemma AssignOp(s: Core, user: nat, role: Role) returns (op: Op)
    ensures Does(s, AssignRole(s, user, role).core, op)
    ensures !op.AddOp?
  {
    op := if AssignRole(s, user, role).core == s then Keep else EndAllOp(user, s.clock, |s.audit|);
  }

  lemma RevokeRoleOp(s: Core, user: nat, role: Role) returns (op: Op)
    ensures Does(s, RevokeRole(s, user, role).core, op)
    ensures !op.AddOp?
  {
    op := if RevokeRole(s, user, role).core == s then Keep else EndAllOp(user, s.clock, |s.audit|);
  }

  lemma LockOp(s: Core, user: nat) returns (op: Op)
    ensures Does(s, LockAccount(s, user).core, op)
    ensures !op.AddOp?
  {
    op := if LockAccount(s, user).core == s then Keep else EndAllOp(user, s.clock, |s.audit|);
  }

  lemma ToggleOp(s: Core, user: nat, required: bool) returns (op: Op)
    ensures Does(s, ToggleMfa(s, user, required).core, op)
    ensures !op.AddOp?
  {
    op := if ToggleMfa(s, user, required).core == s then Keep else EndAllOp(user, s.clock, |s.audit|);
  }

  lemma OpOfIssue(s: Core, step: Step) returns (op: Op)
    requires step.LoginStep? || step.VerifyFinishStep? || step.CompleteFinishStep?
    ensures Does(s, Apply(s, step), op) && !op.EndAllOp?
  {
    match step {
      case LoginStep(peer, user, passwordOk, hold, code) => op := LoginOp(s, peer, user, passwordOk, hold, code);
      case VerifyFinishStep(h) => op := VerifyOp(s, h);
      case CompleteFinishStep(h, hold) => op := CompleteOp(s, h, hold);
    }
  }

  lemma OpOfBearer(s: Core, step: Step) returns (op: Op)
    requires step.RefreshStep? || step.LogoutStep? || step.LogoutAllStep? || step.RevokeSessionStep?
    ensures Does(s, Apply(s, step), op) && (op.EndAllOp? ==> step.LogoutAllStep?)
    ensures !op.AddOp?
  {
    match step {
      case RefreshStep(token) => op := RefreshOp(s, token);
      case LogoutStep(token) => op := LogoutOp(s, token);
      case LogoutAllStep(token) => op := LogoutAllOp(s, token);
      case RevokeSessionStep(token, target) => op := RevokeSessionOp(s, token, target);
    }
  }

  lemma OpOfAccount(s: Core, step: Step) returns (op: Op)
    requires step.ActionStep? || step.LockStep? || step.ToggleMfaStep?
    ensures Does(s, Apply(s, step), op)
    ensures !op.AddOp?
  {
    match step {
      case ActionStep(action, user, key, reason) => op := ActionOp(s, action, user, key, reason);
      case LockStep(user) => op := LockOp(s, user);
      case ToggleMfaStep(user, required) => op := ToggleOp(s, user, required);
    }
  }

  lemma OpOfRole(s: Core, step: Step) returns (op: Op)
    requires step.AssignRoleStep? || step.RevokeRoleStep?
    ensures Does(s, Apply(s, step), op)
    ensures !op.AddOp?
  {
    match step {
      case AssignRoleStep(user, role) => op := AssignOp(s, user, role);
      case RevokeRoleStep(user, role) => op := RevokeRoleOp(s, user, role);
    }
  }

  /** The steps that leave the sessions table alone. */
  predicate Quiet(step: Step) {
    || step.Tick? || step.RegisterStep? || step.EditDevices? || step.VerifyArriveStep? || step.VerifyLockStep?
    || step.RequestStep? || step.ApproveStep? || step.CompleteArriveStep? || step.CompleteLockStep? || step.CrashStep?
    || step.UnlockStep?
  }

  /** The steps that may revoke in bulk. */
  predicate Revoking(step: Step) {
    || step.LogoutAllStep? || step.ActionStep? || step.AssignRoleStep? || step.RevokeRoleStep? || step.LockStep?
    || step.ToggleMfaStep?
  }

  lemma QuietKeeps(s: Core, step: Step)
    requires Quiet(step)
    ensures Does(s, Apply(s, step), Keep)
  {}

  /** Every step changes the sessions table by at most one of its operations. */
  lemma OpOf(s: Core, step: Step) returns (op: Op)
    ensures Does(s, Apply(s, step), op) && (op.EndAllOp? ==> Revoking(step))
    ensures op.AddOp? ==> step.LoginStep? || step.VerifyFinishStep? || step.CompleteFinishStep?
  {
    if step.LoginStep? || step.VerifyFinishStep? || step.CompleteFinishStep? {
      op := OpOfIssue(s, step);
    } else if step.RefreshStep? || step.LogoutStep? || step.LogoutAllStep? || step.RevokeSessionStep? {
      op := OpOfBearer(s, step);
    } else if Quiet(step) {
      QuietKeeps(s, step);
      op := Keep;
    } else if step.AssignRoleStep? || step.RevokeRoleStep? {
      op := OpOfRole(s, step);
    } else {
      op := OpOfAccount(s, step);
    }
  }

  lemma {:induction false} RunKeepsBook(s: Core, steps: seq<Step>)
    requires BookOk(s.book)
    ensures BookOk(Run(s, steps).book) && Continues(s.book, Run(s, steps).book) && s.clock <= Run(s, steps).clock
  {
    if steps != [] {
      var before, step := Run(s, steps[..|steps| - 1]), steps[|steps| - 1];
      RunKeepsBook(s, steps[..|steps| - 1]);
      var op := OpOf(before, step);
      DoKeepsBook(before.book, op);
      DoContinues(before.book, op);
      ContinuesTransitive(s.book, before.book, Apply(before, step).book);
      ClockAdvances(before, step);
    }
  }

  /** No handler moves the clock. */
  lemma ClockAdvances(s: Core, step: Step)
    ensures Apply(s, step).clock == s.clock + (if step.Tick? then step.elapsed else 0)
  {}

  // ---------------------------------------------------------------------------
  // Tokens
  // ---------------------------------------------------------------------------

  /** Revocation is final, and neither a refresh nor anything else moves a session's expiry. */
  lemma SessionsOnlyDecay(s: Core, steps: seq<Step>, i: nat)
    requires BookOk(s.book) && i < |s.book.sessions|
    ensures i < |Run(s, steps).book.sessions|
    ensures var x, y := s.book.sessions[i], Run(s, steps).book.sessions[i];
            && y.user == x.user && y.createdAt == x.createdAt && y.origin == x.origin
            && y.expiresAt == x.expiresAt == x.createdAt + HOUR
            && (x.revokedAt.Some? ==> y.revokedAt.Some?)
  {
    RunKeepsBook(s, steps);
    assert SessionOk(s.book, i);
    assert SameSession(s.book.sessions[i], Run(s, steps).book.sessions[i], |s.book.issued|);
  }

  /** A token opens only the session it was issued for, and only within an hour of that session's creation. */
  lemma WithinTheHour(s: Core, token: nat)
    requires BookOk(s.book) && Authenticate(s, token).Some?
    ensures var i := Authenticate(s, token).value;
            && i < |s.book.sessions| && token < |s.book.issued| && s.book.issued[token] == i
            && s.book.sessions[i].revokedAt == None
            && s.clock < s.book.sessions[i].createdAt + HOUR
            && s.book.sessions[i].user in s.users && s.users[s.book.sessions[i].user].status == Active
  {
    FindAccessFinds(s.book.sessions, token, s.clock);
    assert SessionOk(s.book, Authenticate(s, token).value);
  }

  /** A token that was replaced, whose session was revoked, or that expired, never authenticates again. */
  lemma DeadTokensStayDead(s: Core, steps: seq<Step>, token: nat)
    requires BookOk(s.book) && Dead(s.book, token, s.clock)
    ensures Authenticate(Run(s, steps), token) == None
  {
    RunKeepsBook(s, steps);
    DeadForever(s.book, Run(s, steps).book, token, s.clock, Run(s, steps).clock);
  }

  /** Every refresh token is accepted at most once, whatever happens in between. */
  lemma RefreshAcceptedOnce(s: Core, token: nat, between: seq<Step>)
    requires BookOk(s.book) && Refresh(s, token).reply.Issued?
    ensures Refresh(Run(Apply(s, RefreshStep(token)), between), token).reply == Refused(401)
  {
    var i := FindRefresh(s.book.sessions, token).value;
    FindRefreshFinds(s.book.sessions, token);
    var next := Apply(s, RefreshStep(token));
    assert next.book == Rotate(s.book, i) && next.book.accepted[|s.book.accepted|] == token;
    RotateKeepsBook(s.book, i);
    RunKeepsBook(next, between);
    var later := Run(next, between);
    assert token in later.book.accepted;
    FindRefreshFinds(later.book.sessions, token);
    forall k | 0 <= k < |later.book.sessions| ensures later.book.sessions[k].refresh != token {
      assert SessionOk(later.book, k);
    }
  }

  /** A refresh also retires the access token it replaces. */
  lemma RefreshRetiresAccess(s: Core, token: nat, between: seq<Step>)
    requires BookOk(s.book) && Refresh(s, token).reply.Issued?
    ensures var replaced := s.book.sessions[Refresh(s, token).reply.session].access;
            Authenticate(Run(Apply(s, RefreshStep(token)), between), replaced) == None
  {
    var i := FindRefresh(s.book.sessions, token).value;
    FindRefreshFinds(s.book.sessions, token);
    assert SessionOk(s.book, i);
    var next := Apply(s, RefreshStep(token));
    assert next.book == Rotate(s.book, i);
    RotateKeepsBook(s.book, i);
    DeadTokensStayDead(next, between, s.book.sessions[i].access);
  }

  /**
   The steps that revoke every session of a user: log-out everywhere, protective actions
   and account administration.
   */
  predicate RevokesAll(s: Core, step: Step, user: nat) {
    match step
    case LogoutAllStep(token) =>
      var i := Authenticate(s, token);
      i.Some? && i.value < |s.book.sessions| && s.book.sessions[i.value].user == user
    case ActionStep(action, target, key, _) =>
      target == user && user in s.users
      && !(KeyedReason(key).Some? && Recorded(s.audit, action, user, KeyedReason(key).value))
    case AssignRoleStep(target, role) => target == user && user in s.users && role !in s.users[user].roles
    case RevokeRoleStep(target, role) => target == user && RevokeRole(s, user, role).reply.Done?
    case LockStep(target) =>
      target == user && user in s.users && s.users[user].status != Locked && LockAccount(s, user).reply.Done?
    case ToggleMfaStep(target, _) => target == user && user in s.users
    case _ => false
  }

  lemma RevokesAllEnds(s: Core, step: Step, user: nat)
    requires RevokesAll(s, step, user)
    ensures Apply(s, step).book == EndAll(s.book, user, s.clock, |s.audit|)
  {}

  /** No token issued to a user before a bulk revocation authenticates at any time after it. */
  lemma BulkRevocationIsFinal(s: Core, step: Step, user: nat, steps: seq<Step>, token: nat)
    requires BookOk(s.book) && RevokesAll(s, step, user)
    requires token < |s.book.issued| && s.book.sessions[s.book.issued[token]].user == user
    ensures Authenticate(Run(Apply(s, step), steps), token) == None
  {
    RevokesAllEnds(s, step, user);
    DoKeepsBook(s.book, EndAllOp(user, s.clock, |s.audit|));
    DeadTokensStayDead(Apply(s, step), steps, token);
  }

  /** Every unrevoked session of a user was created after that user's last bulk revocation. */
  lemma UnrevokedAreYounger(s: Core, step: Step, user: nat, steps: seq<Step>, i: nat)
    requires BookOk(s.book) && RevokesAll(s, step, user)
    requires i < |Run(Apply(s, step), steps).book.sessions|
    requires Live(Run(Apply(s, step), steps).book.sessions[i], user)
    ensures i >= |s.book.sessions|
  {
    RevokesAllEnds(s, step, user);
    DoKeepsBook(s.book, EndAllOp(user, s.clock, |s.audit|));
    if i < |s.book.sessions| {
      SessionsOnlyDecay(Apply(s, step), steps, i);
    }
  }

  // ---------------------------------------------------------------------------
  // The audit trail counts what was revoked
  // ---------------------------------------------------------------------------

  ghost predicate CountsOk(s: Core) {
    && (forall k :: 0 <= k < |s.audit| ==> RevokedByCount(s.book.sessions, k) == Reported(s.audit[k]))
    && (forall i :: 0 <= i < |s.book.sessions| && s.book.sessions[i].revokedBy.Some? ==>
          s.book.sessions[i].revokedBy.value < |s.audit|)
  }

  lemma StepKeepsCounts(s: Core, step: Step)
    requires BookOk(s.book) && CountsOk(s)
    ensures CountsOk(Apply(s, step))
  {
    var op := OpOf(s, step);
    CountsAfter(s, Apply(s, step), op);
  }

  lemma CountsAfter(s: Core, after: Core, op: Op)
    requires BookOk(s.book) && CountsOk(s) && Does(s, after, op)
    ensures CountsOk(after)
  {
    forall k | 0 <= k < |after.audit| ensures RevokedByCount(after.book.sessions, k) == Reported(after.audit[k]) {
      CountAfter(s, after, op, k);
    }
    forall i | 0 <= i < |after.book.sessions| && after.book.sessions[i].revokedBy.Some?
      ensures after.book.sessions[i].revokedBy.value < |after.audit| {
      if i < |s.book.sessions| {
        assert SessionOk(s.book, i);
      }
    }
  }

  lemma CountAfter(s: Core, after: Core, op: Op, k: nat)
    requires BookOk(s.book) && CountsOk(s) && Does(s, after, op) && k < |after.audit|
    ensures RevokedByCount(after.book.sessions, k) == Reported(after.audit[k])
  {
    if op.EndAllOp? && k == |s.audit| {
      EndAllCounts(s.book, op.user, op.now, k);
    } else {
      SameRevokers(s.book.sessions, after.book.sessions, k) by {
        forall i | 0 <= i < |s.book.sessions|
          ensures after.book.sessions[i].revokedBy == Some(k) <==> s.book.sessions[i].revokedBy == Some(k) {
          assert SessionOk(s.book, i);
        }
      }
      if k < |s.audit| {
        assert after.audit[k] == s.audit[k];
      } else {
        SameRevokers([], s.book.sessions, k);
      }
    }
  }

  lemma {:induction false} RunKeepsCounts(s: Core, steps: seq<Step>)
    requires BookOk(s.book) && CountsOk(s)
    ensures CountsOk(Run(s, steps))
  {
    if steps != [] {
      RunKeepsBook(s, steps[..|steps| - 1]);
      RunKeepsCounts(s, steps[..|steps| - 1]);
      StepKeepsCounts(Run(s, steps[..|steps| - 1]), steps[|steps| - 1]);
    }
  }

  /** The total the audit rows of protective actions report. */
  function ReportedTotal(audit: seq<AuditRow>): nat {
    if audit == [] then 0
    else ReportedTotal(audit[..|audit| - 1]) + (if audit[|audit| - 1].Protective? then Reported(audit[|audit| - 1])
                                                else 0)
  }

  /** How many sessions a protective action recorded in this part of the trail revoked. */
  function RevokedTotal(sessions: seq<Session>, audit: seq<AuditRow>): nat {
    if audit == [] then 0
    else
      RevokedTotal(sessions, audit[..|audit| - 1])
      + (if audit[|audit| - 1].Protective? then RevokedByCount(sessions, |audit| - 1) else 0)
  }

  lemma {:induction false} TotalsAgree(sessions: seq<Session>, audit: seq<AuditRow>)
    requires forall k :: 0 <= k < |audit| ==> RevokedByCount(sessions, k) == Reported(audit[k])
    ensures ReportedTotal(audit) == RevokedTotal(sessions, audit)
  {
    if audit != [] {
      TotalsAgree(sessions, audit[..|audit| - 1]);
    }
  }

  /** Over any run the counts in the protective actions' audit rows add up to the sessions those actions revoked. */
  lemma AuditAddsUp(clock: Time, users: map<nat, User>, steps: seq<Step>)
    ensures var s := Run(Start(clock, users), steps);
            ReportedTotal(s.audit) == RevokedTotal(s.book.sessions, s.audit)
  {
    var s := Run(Start(clock, users), steps);
    RunKeepsCounts(Start(clock, users), steps);
    TotalsAgree(s.book.sessions, s.audit);
  }
}
