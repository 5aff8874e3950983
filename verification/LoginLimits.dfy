/** The request counter inside the running service: how many credential checks a peer gets. */
module LoginLimits {
  import opened Basics
  import opened Network
  import RateLimiter
  import opened Core
  import opened TokenSafety

  /** The requests that go through the counter of this peer's address, in whatever spelling it comes. */
  predicate Counts(step: Step, peer: Peer, counter: Counter) {
    || (step.LoginStep? && Merged(step.peer) == Merged(peer) && counter == LoginCounter)
    || (step.RequestStep? && Merged(step.peer) == Merged(peer) && peer != Unknown && counter == ApprovalCounter)
  }

  /** The counter's view of a run. */
  function Arrivals(s: Core, steps: seq<Step>, peer: Peer, counter: Counter): seq<RateLimiter.Arrival> {
    if steps == [] then []
    else
      var n := |steps| - 1;
      Arrivals(s, steps[..n], peer, counter)
      + (if Counts(steps[n], peer, counter) then [RateLimiter.Arrival(Run(s, steps[..n]).clock, true)] else [])
  }

  /** How many of the peer's requests between `lo` and `hi` were let through to the credential check. */
  function Checked(s: Core, steps: seq<Step>, peer: Peer, counter: Counter, lo: Time, hi: Time): nat {
    if steps == [] then 0
    else
      var n := |steps| - 1;
      var before := Run(s, steps[..n]);
      Checked(s, steps[..n], peer, counter, lo, hi)
      + (if Counts(steps[n], peer, counter) && Take(before, steps[n]).reply != Refused(429) && lo <= before.clock <= hi
         then 1 else 0)
  }

  lemma LoginCounted(
    s: Core, peer: Peer, user: nat, passwordOk: bool, hold: bool, code: nat, other: Peer, counter: Counter)
    ensures var r := Login(s, peer, user, passwordOk, hold, code);
            var row := RateRow(s, other, counter);
            && RateRow(r.core, other, counter) ==
               (if Merged(other) == Merged(peer) && counter == LoginCounter
                then RateLimiter.Next(row, RateLimiter.Arrival(s.clock, true)) else row)
            && (r.reply == Refused(429) <==> RateLimiter.Denied(RateRow(s, peer, LoginCounter), s.clock))
  {}

  lemma RequestCounted(
    s: Core, peer: Peer, user: nat, passwordOk: bool, hold: bool, fingerprint: nat, other: Peer, counter: Counter)
    ensures var r := RequestApproval(s, peer, user, passwordOk, hold, fingerprint);
            var row := RateRow(s, other, counter);
            && RateRow(r.core, other, counter) ==
               (if Merged(other) == Merged(peer) && peer != Unknown && counter == ApprovalCounter
                then RateLimiter.Next(row, RateLimiter.Arrival(s.clock, true)) else row)
            && (peer != Unknown ==>
                  (r.reply == Refused(429) <==> RateLimiter.Denied(RateRow(s, peer, ApprovalCounter), s.clock)))
  {}

  lemma OthersDoNotCount(s: Core, step: Step)
    requires !step.LoginStep? && !step.RequestStep?
    ensures Apply(s, step).rates == s.rates
  {}

  lemma StepCounted(s: Core, step: Step, peer: Peer, counter: Counter)
    ensures RateRow(Apply(s, step), peer, counter) ==
            if Counts(step, peer, counter)
            then RateLimiter.Next(RateRow(s, peer, counter), RateLimiter.Arrival(s.clock, true))
            else RateRow(s, peer, counter)
    ensures Counts(step, peer, counter) ==>
              (Take(s, step).reply == Refused(429) <==> RateLimiter.Denied(RateRow(s, peer, counter), s.clock))
  {
    if step.LoginStep? {
      LoginCounted(s, step.peer, step.user, step.passwordOk, step.hold, step.code, peer, counter);
    } else if step.RequestStep? {
      RequestCounted(s, step.peer, step.user, step.passwordOk, step.hold, step.fingerprint, peer, counter);
    } else {
      OthersDoNotCount(s, step);
    }
  }

  /** Requests reach the counter in the order of the clock. */
  lemma {:induction false} RunOrdered(s: Core, steps: seq<Step>, peer: Peer, counter: Counter)
    ensures var arrivals := Arrivals(s, steps, peer, counter);
            && RateLimiter.Chronological(arrivals) && s.clock <= Run(s, steps).clock
            && forall i :: 0 <= i < |arrivals| ==> s.clock <= arrivals[i].at <= Run(s, steps).clock
  {
    if steps != [] {
      var n := |steps| - 1;
      RunOrdered(s, steps[..n], peer, counter);
      ClockAdvances(Run(s, steps[..n]), steps[n]);
    }
  }

  lemma ArrivalAdded(row: Option<RateLimiter.Row>, earlier: seq<RateLimiter.Arrival>, now: Time, lo: Time, hi: Time)
    ensures var more := earlier + [RateLimiter.Arrival(now, true)];
            var last := RateLimiter.FinalRow(row, earlier);
            && RateLimiter.FinalRow(row, more) == RateLimiter.Next(last, RateLimiter.Arrival(now, true))
            && RateLimiter.CountIn(RateLimiter.Admitted(row, more), lo, hi) ==
               RateLimiter.CountIn(RateLimiter.Admitted(row, earlier), lo, hi)
               + (if !RateLimiter.Denied(last, now) && lo <= now <= hi then 1 else 0)
  {
    var more := earlier + [RateLimiter.Arrival(now, true)];
    assert more[..|earlier|] == earlier;
    var admitted := RateLimiter.Admitted(row, earlier);
    var last := RateLimiter.FinalRow(row, earlier);
    if !RateLimiter.Denied(last, now) {
      var entry := RateLimiter.Entry(now, RateLimiter.Admit(last, now));
      assert (admitted + [entry])[..|admitted|] == admitted;
    }
  }

  lemma {:induction false} RowOfRun(s: Core, steps: seq<Step>, peer: Peer, counter: Counter)
    ensures RateRow(Run(s, steps), peer, counter) ==
            RateLimiter.FinalRow(RateRow(s, peer, counter), Arrivals(s, steps, peer, counter))
  {
    if steps != [] {
      var n := |steps| - 1;
      var earlier := Arrivals(s, steps[..n], peer, counter);
      RowOfRun(s, steps[..n], peer, counter);
      StepCounted(Run(s, steps[..n]), steps[n], peer, counter);
      if Counts(steps[n], peer, counter) {
        ArrivalAdded(RateRow(s, peer, counter), earlier, Run(s, steps[..n]).clock, 0, 0);
      } else {
        assert earlier + [] == earlier;
      }
    }
  }

  /** One more step is one more check exactly if it counts and is not denied. */
  lemma CheckedNext(s: Core, steps: seq<Step>, peer: Peer, counter: Counter, lo: Time, hi: Time)
    requires steps != []
    ensures var n := |steps| - 1;
            var before := Run(s, steps[..n]);
            Checked(s, steps, peer, counter, lo, hi) ==
            Checked(s, steps[..n], peer, counter, lo, hi)
            + (if Counts(steps[n], peer, counter)
                  && !RateLimiter.Denied(RateRow(before, peer, counter), before.clock) && lo <= before.clock <= hi
               then 1 else 0)
  {
    StepCounted(Run(s, steps[..|steps| - 1]), steps[|steps| - 1], peer, counter);
  }

  lemma {:induction false} ChecksOfRun(s: Core, steps: seq<Step>, peer: Peer, counter: Counter, lo: Time, hi: Time)
    ensures var admitted := RateLimiter.Admitted(RateRow(s, peer, counter), Arrivals(s, steps, peer, counter));
            Checked(s, steps, peer, counter, lo, hi) == RateLimiter.CountIn(admitted, lo, hi)
  {
    if steps != [] {
      var n := |steps| - 1;
      var earlier := Arrivals(s, steps[..n], peer, counter);
      ChecksOfRun(s, steps[..n], peer, counter, lo, hi);
      CheckedNext(s, steps, peer, counter, lo, hi);
      if Counts(steps[n], peer, counter) {
        RowOfRun(s, steps[..n], peer, counter);
        ArrivalAdded(RateRow(s, peer, counter), earlier, Run(s, steps[..n]).clock, lo, hi);
      } else {
        assert earlier + [] == earlier;
      }
    }
  }

  /** The table row of a run is the counter's row, and the requests let through are its admitted ones. */
  lemma RunCounted(s: Core, steps: seq<Step>, peer: Peer, counter: Counter, lo: Time, hi: Time)
    ensures var row, arrivals := RateRow(s, peer, counter), Arrivals(s, steps, peer, counter);
            && RateRow(Run(s, steps), peer, counter) == RateLimiter.FinalRow(row, arrivals)
            && Checked(s, steps, peer, counter, lo, hi) ==
                 RateLimiter.CountIn(RateLimiter.Admitted(row, arrivals), lo, hi)
  {
    RowOfRun(s, steps, peer, counter);
    ChecksOfRun(s, steps, peer, counter, lo, hi);
  }

  /**
   From a fresh start, in any run and any interval, a peer gets at most five credential
   checks for every minute begun and five more, at the login page and again at the
   trusted-device page, however the other requests interleave.
   */
  lemma ChecksAreBounded(
    clock: Time, users: map<nat, User>, steps: seq<Step>, peer: Peer, counter: Counter, lo: Time, length: nat)
    ensures Checked(Start(clock, users), steps, peer, counter, lo, lo + length) <= 5 * (CeilDiv(length, MINUTE) + 1)
  {
    var s := Start(clock, users);
    RunCounted(s, steps, peer, counter, lo, lo + length);
    RunOrdered(s, steps, peer, counter);
    assert RateRow(s, peer, counter) == None;
    RateLimiter.FreshBound(Arrivals(s, steps, peer, counter), lo, length);
  }

  /**
   And nobody below the limit is turned away: from a fresh start, in any run, a request from
   this address is answered 429 only if five of its requests were let through in the
   minute before.
   */
  lemma RefusedOnlyWhenFull(clock: Time, users: map<nat, User>, steps: seq<Step>, step: Step, counter: Counter)
    requires (step.LoginStep? && counter == LoginCounter)
             || (step.RequestStep? && step.peer != Unknown && counter == ApprovalCounter)
    requires Take(Run(Start(clock, users), steps), step).reply == Refused(429)
    ensures var now := Run(Start(clock, users), steps).clock;
            Checked(Start(clock, users), steps, step.peer, counter, now - MINUTE, now) >= 5
  {
    StepCounted(Run(Start(clock, users), steps), step, step.peer, counter);
    DeniedIsFull(Start(clock, users), steps, step.peer, counter);
  }

  lemma DeniedIsFull(s: Core, steps: seq<Step>, peer: Peer, counter: Counter)
    requires RateRow(s, peer, counter) == None
    requires RateLimiter.Denied(RateRow(Run(s, steps), peer, counter), Run(s, steps).clock)
    ensures Checked(s, steps, peer, counter, Run(s, steps).clock - MINUTE, Run(s, steps).clock) >= 5
  {
    var now, arrivals := Run(s, steps).clock, Arrivals(s, steps, peer, counter);
    assert RateLimiter.Chronological(arrivals) && forall i :: 0 <= i < |arrivals| ==> arrivals[i].at <= now by {
      RunOrdered(s, steps, peer, counter);
    }
    assert RateLimiter.Denied(RateLimiter.FinalRow(None, arrivals), now) by {
      RowOfRun(s, steps, peer, counter);
    }
    RateLimiter.RefusedOnlyWhenFull(arrivals, now);
    ChecksOfRun(s, steps, peer, counter, now - MINUTE, now);
  }
}
