/**
 What OTP verification answers and counts: every wrong code, and the third one for good;
 and what becomes of a trusted-device request at its checks and at the gate.
 */
module OtpAttempts {
  import opened Basics
  import opened Network
  import opened Sessions
  import opened Core
  import opened TokenSafety
  import opened Challenges
  import opened Provenance

  // ---------------------------------------------------------------------------
  // Wrong codes
  // ---------------------------------------------------------------------------

  /** The step commits a wrong code, entered in time, on the pending challenge t. */
  predicate IsMiss(s: Core, step: Step, t: nat) {
    && t < |s.txns| && s.txns[t].status == Pending
    && step.VerifyFinishStep? && step.h in s.handlers && s.handlers[step.h].Verifying?
    && s.handlers[step.h].txn == t && s.handlers[step.h].at < s.txns[t].expiresAt
    && s.handlers[step.h].code != s.txns[t].code
  }

  predicate IsOtp(s: Core, t: nat) {
    t < |s.txns| && s.txns[t].kind != TrustedDevice
  }

  /** A wrong code is counted, and the third one fails the challenge. */
  lemma MissIsCounted(s: Core, step: Step, t: nat)
    requires Inv(s) && IsOtp(s, t) && IsMiss(s, step, t)
    ensures var x, r := s.txns[t], Take(s, step);
            && r.reply == Refused(401) && r.core.book == s.book && r.core.users == s.users
            && r.core.txns == s.txns[t := r.core.txns[t]]
            && r.core.txns[t] == x.(
                                  failCount := x.failCount + 1,
                                  status := if x.failCount == 2 then Failed else Pending)
  {
    var me := s.handlers[step.h];
    assert HandlerOk(s, step.h, me);
    assert TxnOk(s, me.seen);
    VerifyRejects(s, step.h);
    VerifyIssues(s, step.h);
    MissRefused(s, step.h, t);
  }

  lemma MissRefused(s: Core, h: nat, t: nat)
    requires h in s.handlers && s.handlers[h].Verifying? && s.handlers[h].txn == t && t < |s.txns|
    requires s.handlers[h].seen == s.txns[t] && s.txns[t].user in s.users
    requires Judge(s.txns[t], s.handlers[h].peer, s.handlers[h].code, s.handlers[h].at) == WrongCode
    ensures VerifyFinish(s, h).reply == Refused(401) && VerifyFinish(s, h).core.users == s.users
  {}

  /** Nothing else is counted. */
  lemma OnlyMissesCount(s: Core, step: Step, t: nat)
    requires Inv(s) && IsOtp(s, t) && !IsMiss(s, step, t)
    ensures t < |Apply(s, step).txns| && Apply(s, step).txns[t].failCount == s.txns[t].failCount
  {
    if step.VerifyFinishStep? {
      var h := step.h;
      if h in s.handlers && s.handlers[h].Verifying? {
        var me := s.handlers[h];
        assert HandlerOk(s, h, me);
        assert TxnOk(s, me.seen);
        VerifyWrites(s, h);
      }
    } else {
      OthersSpareOtp(s, step, t);
    }
  }

  lemma VerifyWrites(s: Core, h: nat)
    requires h in s.handlers && s.handlers[h].Verifying?
    requires var me := s.handlers[h]; me.txn < |s.txns| && me.seen == s.txns[me.txn] && me.seen.user in s.users
    ensures VerdictWritten(s, h, VerifyFinish(s, h).core)
  {
    var me := s.handlers[h];
    if Judge(me.seen, me.peer, me.code, me.at).Accept? {
      VerifyAccepts(s, h);
    } else {
      VerifyRejects(s, h);
    }
  }

  /** How many steps of the run are such misses. */
  function MissCount(s: Core, steps: seq<Step>, t: nat): nat {
    if steps == [] then 0
    else
      var n := |steps| - 1;
      MissCount(s, steps[..n], t) + (if IsMiss(Run(s, steps[..n]), steps[n], t) then 1 else 0)
  }

  /** Over every run the counter grows by exactly the misses, and the challenge is failed exactly at three. */
  lemma {:induction false} MissesAreCounted(s: Core, steps: seq<Step>, t: nat)
    requires Inv(s) && IsOtp(s, t)
    ensures var after := Run(s, steps);
            && IsOtp(after, t) && after.txns[t].failCount == s.txns[t].failCount + MissCount(s, steps, t)
            && (after.txns[t].status == Failed <==> s.txns[t].failCount + MissCount(s, steps, t) == 3)
  {
    RunKeepsInv(s, steps);
    assert RowMoves(s.txns[t], Run(s, steps).txns[t]);
    assert TxnOk(Run(s, steps), Run(s, steps).txns[t]);
    if steps != [] {
      var n := |steps| - 1;
      MissesAreCounted(s, steps[..n], t);
      var before := Run(s, steps[..n]);
      RunKeepsInv(s, steps[..n]);
      if IsMiss(before, steps[n], t) {
        MissIsCounted(before, steps[n], t);
      } else {
        OnlyMissesCount(before, steps[n], t);
      }
    }
  }

  /** After three misses no session ever comes from the challenge, whatever code is entered. */
  lemma ThreeMissesAreFinal(s: Core, misses: seq<Step>, later: seq<Step>, t: nat, i: nat)
    requires Inv(s) && Linked(s) && IsOtp(s, t) && s.txns[t].failCount + MissCount(s, misses, t) >= 3
    requires i < |Run(Run(s, misses), later).book.sessions|
    ensures Run(Run(s, misses), later).book.sessions[i].origin != Otp(t)
  {
    var failed := Run(s, misses);
    RunKeepsLinks(s, misses);
    MissesAreCounted(s, misses, t);
    assert TxnOk(failed, failed.txns[t]);
    OtpOutcomesAbsorb(failed, later, t);
    RunKeepsLinks(failed, later);
    GaveNoSession(Run(failed, later), t, i);
  }

  /** A transaction that points at no session is the origin of none. */
  lemma GaveNoSession(s: Core, t: nat, i: nat)
    requires Linked(s) && t < |s.txns| && s.txns[t].session == None && i < |s.book.sessions|
    ensures TxnOf(s.book.sessions[i].origin) != Some(t)
  {}

  // ---------------------------------------------------------------------------
  // What a verification answers
  // ---------------------------------------------------------------------------

  /** A waiting handler gets the row exactly when it is there, free and an OTP challenge, and reads it as it is. */
  lemma LockTakenExactlyWhen(s: Core, h: nat)
    requires h in s.handlers && s.handlers[h].VerifyArrived?
    ensures var r, me, t := VerifyLock(s, h), s.handlers[h], s.handlers[h].txn;
            && (h in r.core.handlers && r.core.handlers[h].Verifying? <==> IsOtp(s, t) && t !in s.locks)
            && (IsOtp(s, t) && t !in s.locks ==>
                  && r.core.handlers[h] == Verifying(t, me.peer, me.code, me.at, s.txns[t])
                  && r.core.locks == s.locks[t := h])
            && (r.reply == Refused(404) <==> t >= |s.txns|)
            && (r.reply == Refused(409) <==> t < |s.txns| && t !in s.locks && s.txns[t].kind == TrustedDevice)
  {}

  /**
   The holder of the row answers, in this order: 409 for a decided challenge, 401 for an
   expired one, which it marks, 401 for a wrong code, 403 for a right one from another
   address, and otherwise the session. The row is then free.
   */
  lemma VerifyReplies(s: Core, h: nat)
    requires Inv(s) && h in s.handlers && s.handlers[h].Verifying?
    ensures var r, me, t := VerifyFinish(s, h), s.handlers[h], s.handlers[h].txn;
            && IsOtp(s, t) && t < |r.core.txns| && t !in r.core.locks
            && var x := s.txns[t];
            && (x.status == Completed || x.status == Failed ==> r.reply == Refused(409) && r.core.txns == s.txns)
            && (x.status == Expired ==> r.reply == Refused(401) && r.core.txns == s.txns)
            && (x.status == Pending ==>
                  if me.at >= x.expiresAt then
                    r.reply == Refused(401) && r.core.txns == s.txns[t := x.(status := Expired)]
                  else if me.code != x.code then r.reply == Refused(401)
                  else if !OtpIpAccepted(x.boundIp, me.peer) then r.reply == Refused(403) && r.core.txns == s.txns
                  else r.reply == Issued(|s.book.sessions|) && r.core.txns[t].status == Completed)
  {
    var me := s.handlers[h];
    assert HandlerOk(s, h, me);
    assert TxnOk(s, me.seen);
    VerifyWrites(s, h);
    VerifyAnswersVerdict(s, h);
  }

  /**
   An accepted code completes the challenge as of the handler's arrival and stamps the
   account's login; a challenge of Detection's also lowers its one-time flag, a persistent
   requirement stays. Every other answer leaves accounts and sessions alone.
   */
  lemma AcceptedWrites(s: Core, h: nat)
    requires Inv(s) && h in s.handlers && s.handlers[h].Verifying?
    ensures var r, me := VerifyFinish(s, h), s.handlers[h];
            && me.txn < |s.txns| && s.txns[me.txn].user in s.users
            && var x, u := s.txns[me.txn], s.users[s.txns[me.txn].user];
            if r.reply.Issued? then
              && r.core.users == s.users[x.user := u.(
                                    detectionMfa := u.detectionMfa && x.kind == Persistent, lastLogin := Some(s.clock))]
              && r.core.txns == s.txns[me.txn := x.(
                                  status := Completed, verifiedAt := Some(me.at), session := Some(|s.book.sessions|))]
            else r.core.users == s.users && r.core.book == s.book
  {
    var me := s.handlers[h];
    assert HandlerOk(s, h, me);
    assert TxnOk(s, me.seen);
    VerifyAnswersVerdict(s, h);
    if Judge(me.seen, me.peer, me.code, me.at).Accept? {
      AcceptedRows(s, h);
    } else {
      RejectedRows(s, h);
    }
  }

  lemma AcceptedRows(s: Core, h: nat)
    requires h in s.handlers && s.handlers[h].Verifying?
    requires var me := s.handlers[h]; me.txn < |s.txns| && me.seen == s.txns[me.txn] && me.seen.user in s.users
    requires var me := s.handlers[h]; me.seen.kind != TrustedDevice && Judge(me.seen, me.peer, me.code, me.at).Accept?
    ensures var me, after := s.handlers[h], VerifyFinish(s, h).core;
            var x, u := me.seen, s.users[me.seen.user];
            && after.users == s.users[x.user := u.(
                                detectionMfa := u.detectionMfa && x.kind == Persistent, lastLogin := Some(s.clock))]
            && after.txns == s.txns[me.txn := x.(
                               status := Completed, verifiedAt := Some(me.at), session := Some(|s.book.sessions|))]
  {}

  lemma RejectedRows(s: Core, h: nat)
    requires h in s.handlers && s.handlers[h].Verifying?
    requires var me := s.handlers[h]; !Judge(me.seen, me.peer, me.code, me.at).Accept?
    ensures VerifyFinish(s, h).core.users == s.users && VerifyFinish(s, h).core.book == s.book
  {}

  lemma VerifyAnswersVerdict(s: Core, h: nat)
    requires h in s.handlers && s.handlers[h].Verifying?
    requires var me := s.handlers[h]; me.txn < |s.txns| && me.seen.user in s.users
    ensures var me := s.handlers[h];
            VerifyFinish(s, h).reply ==
            match Judge(me.seen, me.peer, me.code, me.at)
            case Reject(code) => Refused(code)
            case MarkExpired => Refused(401)
            case WrongCode => Refused(401)
            case Accept => Issued(|s.book.sessions|)
  {}

  /** A crash writes nothing, and leaves the row free for the next handler. */
  lemma CrashFreesRow(s: Core, h: nat)
    requires Inv(s) && h in s.handlers && Holding(s.handlers[h])
    ensures var after := Crash(s, h).core;
            && after == s.(locks := s.locks - {s.handlers[h].txn}, handlers := s.handlers[h := Answered(Refused(500))])
            && s.handlers[h].txn in s.locks
  {
    assert HandlerOk(s, h, s.handlers[h]);
  }

  // ---------------------------------------------------------------------------
  // Trusted-device completion
  // ---------------------------------------------------------------------------

  /**
   The checks of a completion, in order, with the answer of the first one
   that fails; only two of them write: an expired request is marked, and one whose user has
   to pass MFA is failed.
   */
  lemma CompletionChecks(s: Core, h: nat)
    requires h in s.handlers && s.handlers[h].CompleteArrived?
    ensures var r, me, t := CompleteLock(s, h), s.handlers[h], s.handlers[h].txn;
            if t >= |s.txns| || s.txns[t].kind != TrustedDevice then r.reply == Refused(404) && r.core.txns == s.txns
            else if t in s.locks then r == Outcome(s, Waiting)
            else
              var x := s.txns[t];
              if x.status == Pending then r.reply == Refused(409) && r.core.txns == s.txns
              else if x.status == Expired || x.status == Failed then r.reply == Refused(410) && r.core.txns == s.txns
              else if x.consumedAt.Some? then r.reply == Refused(409) && r.core.txns == s.txns
              else if s.clock >= x.expiresAt then
                r.reply == Refused(410) && r.core.txns == s.txns[t := x.(status := Expired)]
              else if !SameIp(x.boundIp, me.peer) || x.fingerprint != me.fingerprint then
                r.reply == Refused(403) && r.core.txns == s.txns
              else if x.user !in s.users || s.users[x.user].status != Active then
                r.reply == Refused(401) && r.core.txns == s.txns
              else if s.users[x.user].adminMfa || s.users[x.user].detectionMfa then
                r.reply == Refused(409) && r.core.txns == s.txns[t := x.(status := Failed)]
              else r.reply == Waiting && r.core.txns == s.txns && r.core.locks == s.locks[t := h]
  {}

  /** At the gate: a hold fails the request; otherwise it is used up by the session, at the instant of its checks. */
  lemma GateAnswered(s: Core, h: nat, hold: bool)
    requires Inv(s) && h in s.handlers && s.handlers[h].Gating?
    ensures var r, me, t := CompleteFinish(s, h, hold), s.handlers[h], s.handlers[h].txn;
            && t < |s.txns| && t !in r.core.locks
            && (hold ==> r.reply == Refused(409) && r.core.book == s.book && r.core.users == s.users
                         && r.core.txns == s.txns[t := s.txns[t].(status := Failed)])
            && (!hold ==> r.reply == Issued(|s.book.sessions|)
                          && r.core.txns == s.txns[t := s.txns[t].(
                                                       consumedAt := Some(me.at), session := Some(|s.book.sessions|))])
  {
    assert HandlerOk(s, h, s.handlers[h]);
    assert TxnOk(s, s.txns[s.handlers[h].txn]);
    CompleteShape(s, h, hold);
    CompleteIssues(s, h, hold);
  }

  /** A completed device login stamps the account and changes nothing else about it; a held one leaves it alone. */
  lemma CompletionStamps(s: Core, h: nat, hold: bool)
    requires Inv(s) && h in s.handlers && s.handlers[h].Gating?
    ensures var r, t := CompleteFinish(s, h, hold), s.handlers[h].txn;
            && t < |s.txns| && s.txns[t].user in s.users
            && r.core.users == if hold then s.users
                               else s.users[s.txns[t].user := s.users[s.txns[t].user].(lastLogin := Some(s.clock))]
  {
    assert HandlerOk(s, h, s.handlers[h]);
    assert TxnOk(s, s.txns[s.handlers[h].txn]);
  }

  predicate Closed(s: Core, t: nat) {
    && t < |s.txns| && s.txns[t].kind == TrustedDevice
    && (s.txns[t].status == Failed || s.txns[t].status == Expired) && s.txns[t].session == None
  }

  lemma ClosedStays(s: Core, step: Step, t: nat)
    requires Inv(s) && Closed(s, t)
    ensures Closed(Apply(s, step), t)
  {
    StepKeepsDesk(s, step);
    assert RowMoves(s.txns[t], Apply(s, step).txns[t]);
    if step.VerifyFinishStep? {
      VerifyOpensElsewhere(s, step.h, t);
    } else if step.CompleteFinishStep? {
      CompletionOpensElsewhere(s, step.h, step.hold, t);
    } else {
      ProducesNothing(s, step);
    }
  }

  lemma VerifyOpensElsewhere(s: Core, h: nat, t: nat)
    requires Inv(s) && Closed(s, t)
    ensures SessionOf(VerifyFinish(s, h).core.txns, t) == None
  {
    VerifyProduces(s, h);
    if h in s.handlers && s.handlers[h].Verifying? {
      assert HandlerOk(s, h, s.handlers[h]);
    }
  }

  lemma CompletionOpensElsewhere(s: Core, h: nat, hold: bool, t: nat)
    requires Inv(s) && Closed(s, t)
    ensures SessionOf(CompleteFinish(s, h, hold).core.txns, t) == None
  {
    CompleteProduces(s, h, hold);
    if h in s.handlers && s.handlers[h].Gating? {
      assert HandlerOk(s, h, s.handlers[h]);
    }
  }

  lemma ProducesNothing(s: Core, step: Step)
    requires Inv(s) && !step.VerifyFinishStep? && !step.CompleteFinishStep?
    ensures NoneConsumed(s, Apply(s, step))
  {
    if Elsewhere(step) {
      ElsewhereProduces(s, step);
    } else if step.LoginStep? {
      LoginProduces(s, step.peer, step.user, step.passwordOk, step.hold, step.code);
    } else if step.RequestStep? {
      RequestProduces(s, step.peer, step.user, step.passwordOk, step.hold, step.fingerprint);
    } else if step.ApproveStep? {
      ApproveProduces(s, step.token, step.txn, step.peer);
    } else if step.CompleteLockStep? {
      CompleteLockProduces(s, step.h);
    } else {
      DeskProduces(s, step);
    }
  }

  /** A request that was failed or expired before it was used never gives a session, in any continuation. */
  lemma {:induction false} ClosedIsFinal(s: Core, steps: seq<Step>, t: nat)
    requires Inv(s) && Linked(s) && Closed(s, t)
    ensures Closed(Run(s, steps), t)
    ensures forall i :: 0 <= i < |Run(s, steps).book.sessions| ==> Run(s, steps).book.sessions[i].origin != Trusted(t)
  {
    RunKeepsLinks(s, steps);
    if steps != [] {
      var n := |steps| - 1;
      ClosedIsFinal(s, steps[..n], t);
      RunKeepsInv(s, steps[..n]);
      ClosedStays(Run(s, steps[..n]), steps[n], t);
    }
    forall i | 0 <= i < |Run(s, steps).book.sessions| ensures Run(s, steps).book.sessions[i].origin != Trusted(t) {
      GaveNoSession(Run(s, steps), t, i);
    }
  }
}
