/**
 Enforcement across the two services: the one call Detection makes for an attempt, carried
 to Core any number of times by the network, acts at most once.
 */
module Enforcement {
  import opened Basics
  import opened Scoring
  import opened Detection
  import Delivery
  import Network
  import RateLimiter
  import Sessions
  import Core
  import KeyedActions
  import Provenance

  function ActionName(action: ProtectiveAction): string {
    match action
    case RequireMfa => "REQUIRE_MFA"
    case RevokeSessions => "REVOKE_SESSIONS"
    case LockUser => "LOCK_USER"
    case ForceLogout => "FORCE_LOGOUT"
  }

  /** The idempotency key names the attempt, by the text of its id, and the action. */
  function Key(id: string, action: ProtectiveAction): string {
    "detection:" + id + ":" + ActionName(action)
  }

  /** The reason under which Core records an action with this key. */
  function Reason(id: string, action: ProtectiveAction): string {
    "idempotency:" + Key(id, action)
  }

  lemma SameSuffix(prefix: string, x: string, y: string)
    requires prefix + x == prefix + y
    ensures x == y
  {
    assert (prefix + x)[|prefix|..] == x && (prefix + y)[|prefix|..] == y;
  }

  lemma NamesDiffer(a: ProtectiveAction, b: ProtectiveAction)
    requires ActionName(a) == ActionName(b)
    ensures a == b
  {
    assert ActionName(a)[2] == ActionName(b)[2];
  }

  lemma ReasonNamesAction(id: string, a: ProtectiveAction, b: ProtectiveAction)
    requires Reason(id, a) == Reason(id, b)
    ensures a == b
  {
    SameSuffix("idempotency:", Key(id, a), Key(id, b));
    SameSuffix("detection:" + id + ":", ActionName(a), ActionName(b));
    NamesDiffer(a, b);
  }

  /** The delivery is the call that Detection made for attempt a. */
  predicate IsCall(w: Delivery.World, a: nat, id: string, step: Core.Step) {
    && a < |w.traces| && a < |w.store.attempts| && w.traces[a].enforced > 0 && w.traces[a].called.Some?
    && step.ActionStep?
    && Some(step.action) == ActionFor(w.traces[a].called.value)
    && Some(step.user) == w.store.attempts[a].login.user
    && step.key == Some(Key(id, step.action))
  }

  /**
   Whatever reaches Core under a key of attempt a is Detection's call for it, lost,
   repeated or reordered; and no un-keyed reason imitates such a key.
   */
  ghost predicate OnlyCalls(w: Delivery.World, a: nat, id: string, steps: seq<Core.Step>) {
    forall j, action ::
      0 <= j < |steps| && Uses(steps[j], Reason(id, action)) ==> IsCall(w, a, id, steps[j])
  }

  /** The delivery would be recorded under this reason. */
  predicate Uses(step: Core.Step, reason: string) {
    step.ActionStep? && KeyedActions.Written(step.key, step.reason) == reason
  }

  lemma {:induction false} DeliveredBy(
    s: Core.Core, steps: seq<Core.Step>, action: ProtectiveAction, user: nat, reason: string)
    returns (j: nat)
    requires KeyedActions.Delivered(s, steps, action, user, reason)
    ensures j < |steps| && KeyedActions.Delivers(steps[j], action, user, reason)
  {
    var n := |steps| - 1;
    if KeyedActions.Delivers(steps[n], action, user, reason) {
      j := n;
    } else {
      j := DeliveredBy(s, steps[..n], action, user, reason);
    }
  }

  /**
   At most once across both services: whatever Detection's interleavings and whatever the
   network repeats, Core records at most one action for an attempt - the one that the
   attempt's stored level demands, for the user it names - and none if Detection made no call.
   */
  lemma AtMostOneActionPerAttempt(
    detection: seq<Delivery.Step>, a: nat, id: string,
    clock: Time, users: map<nat, Core.User>, steps: seq<Core.Step>,
    action: ProtectiveAction, user: nat, named: ProtectiveAction)
    requires OnlyCalls(Delivery.Run(Delivery.Start, detection), a, id, steps)
    ensures var w := Delivery.Run(Delivery.Start, detection);
            var records := KeyedActions.RecordCount(
                             Core.Run(Core.Start(clock, users), steps).audit, action, user, Reason(id, named));
            && records <= 1
            && (records == 1 ==>
                  && a < |w.traces| && w.traces[a].enforced == 1 && a < |w.store.attempts| && Risky(w.store.attempts[a])
                  && named == action && Some(action) == ActionFor(w.store.attempts[a].level.value)
                  && Some(user) == w.store.attempts[a].login.user)
  {
    var w, reason, s := Delivery.Run(Delivery.Start, detection), Reason(id, named), Core.Start(clock, users);
    NotMistakenBy(w, a, id, s, steps, action, user, named);
    KeyedActions.OneRecordPerKey(s, steps, action, user, reason);
    if KeyedActions.Delivered(s, steps, action, user, reason) {
      var j := DeliveredBy(s, steps, action, user, reason);
      assert Uses(steps[j], Reason(id, named));
      assert IsCall(w, a, id, steps[j]);
      CallCarries(detection, a);
      ReasonNamesAction(id, named, action);
    }
  }

  lemma NotMistakenBy(
    w: Delivery.World, a: nat, id: string, s: Core.Core, steps: seq<Core.Step>,
    action: ProtectiveAction, user: nat, named: ProtectiveAction)
    requires OnlyCalls(w, a, id, steps)
    ensures KeyedActions.NotMistaken(s, steps, action, user, Reason(id, named))
  {
    forall j | 0 <= j < |steps| ensures !KeyedActions.Imitates(steps[j], action, user, Reason(id, named)) {
      if Uses(steps[j], Reason(id, named)) {
        assert IsCall(w, a, id, steps[j]);
      }
    }
  }

  lemma CallCarries(detection: seq<Delivery.Step>, a: nat)
    requires a < |Delivery.Run(Delivery.Start, detection).traces|
             && Delivery.Run(Delivery.Start, detection).traces[a].enforced > 0
    ensures var w := Delivery.Run(Delivery.Start, detection);
            && a < |w.store.attempts| && w.traces[a].enforced == 1 && Risky(w.store.attempts[a])
            && w.traces[a].called.Some? && w.store.attempts[a].level == w.traces[a].called
  {
    Delivery.CallsMatchVerdicts(detection, a);
    Delivery.ExactlyOnce(detection);
  }

  // ---------------------------------------------------------------------------
  // What a verdict does to the user in Core
  // ---------------------------------------------------------------------------

  /** The call for attempt a reaches Core for the first time, for a user that exists. */
  ghost predicate FirstCall(w: Delivery.World, a: nat, id: string, s: Core.Core, step: Core.Step) {
    && IsCall(w, a, id, step) && step.user in s.users
    && !Core.Recorded(s.audit, step.action, step.user, Reason(id, step.action))
  }

  /**
   A login scored as high: the first call leaves its user without a live session and with
   the one-time MFA flag up, so that, within the limit and unless the account is locked, the
   next login with the right password gets an OTP challenge and no session.
   */
  lemma HighDemandsMfa(
    detection: seq<Delivery.Step>, a: nat, id: string, s: Core.Core, step: Core.Step,
    peer: Network.Peer, hold: bool, code: nat)
    requires FirstCall(Delivery.Run(Delivery.Start, detection), a, id, s, step)
    requires Delivery.Run(Delivery.Start, detection).store.attempts[a].level == Some(High)
    ensures var after, user := Core.Apply(s, step), step.user;
            && Some(user) == Delivery.Run(Delivery.Start, detection).store.attempts[a].login.user
            && Core.Flagged(after, user)
            && (forall i :: 0 <= i < |after.book.sessions| ==> !Sessions.Live(after.book.sessions[i], user))
            && var next := Core.Login(after, peer, user, true, hold, code);
            && next.core.book == after.book
            && (!RateLimiter.Denied(Core.RateRow(after, peer, Core.LoginCounter), after.clock)
                && after.users[user].status != Core.Locked ==>
                  next.reply == Core.Challenge(|after.txns|) && |next.core.txns| == |after.txns| + 1)
  {
    CallActs(detection, a, id, s, step);
    FlagChallenges(Core.Apply(s, step), peer, step.user, hold, code);
  }

  lemma FlagChallenges(s: Core.Core, peer: Network.Peer, user: nat, hold: bool, code: nat)
    requires Core.Flagged(s, user)
    ensures var r := Core.Login(s, peer, user, true, hold, code);
            && r.core.book == s.book
            && (!RateLimiter.Denied(Core.RateRow(s, peer, Core.LoginCounter), s.clock)
                && s.users[user].status != Core.Locked ==>
                  r.reply == Core.Challenge(|s.txns|) && |r.core.txns| == |s.txns| + 1)
  {}

  /** A login scored as critical: the first call ends every session of its user and leaves the account as it is. */
  lemma CriticalEndsSessions(detection: seq<Delivery.Step>, a: nat, id: string, s: Core.Core, step: Core.Step)
    requires FirstCall(Delivery.Run(Delivery.Start, detection), a, id, s, step)
    requires Delivery.Run(Delivery.Start, detection).store.attempts[a].level == Some(Critical)
    ensures var after, user := Core.Apply(s, step), step.user;
            && Some(user) == Delivery.Run(Delivery.Start, detection).store.attempts[a].login.user
            && after.users == s.users && after.txns == s.txns
            && (forall i :: 0 <= i < |after.book.sessions| ==> !Sessions.Live(after.book.sessions[i], user))
  {
    CallActs(detection, a, id, s, step);
  }

  /** No call is made at any other level. */
  lemma OnlyRiskyCall(detection: seq<Delivery.Step>, a: nat, id: string, step: Core.Step)
    requires IsCall(Delivery.Run(Delivery.Start, detection), a, id, step)
    ensures Delivery.Run(Delivery.Start, detection).store.attempts[a].level in {Some(High), Some(Critical)}
  {
    Delivery.CallsMatchVerdicts(detection, a);
  }

  lemma CallActs(detection: seq<Delivery.Step>, a: nat, id: string, s: Core.Core, step: Core.Step)
    requires FirstCall(Delivery.Run(Delivery.Start, detection), a, id, s, step)
    ensures var w, after := Delivery.Run(Delivery.Start, detection), Core.Apply(s, step);
            && a < |w.store.attempts| && w.store.attempts[a].level.Some?
            && step.action == (if w.store.attempts[a].level == Some(High) then RequireMfa else RevokeSessions)
            && after == Core.ApplyAction(s, step.action, step.user, step.key, step.reason).core
            && step.user in after.users && after.txns == s.txns
            && after.users == s.users[step.user := Core.Protected(s.users[step.user], step.action, s.clock)]
            && (forall i :: 0 <= i < |after.book.sessions| ==> !Sessions.Live(after.book.sessions[i], step.user))
  {
    Delivery.CallsMatchVerdicts(detection, a);
    KeyedActions.ActionTakesHold(s, step.action, step.user, step.key, step.reason);
  }

  // ---------------------------------------------------------------------------
  // Different attempts
  // ---------------------------------------------------------------------------

  lemma SamePrefix(x: string, a: string, y: string, b: string)
    requires x + ":" + a == y + ":" + b && ':' !in x && ':' !in y
    ensures x == y && a == b
  {
    var text := x + ":" + a;
    assert text[|x|] == ':' && text[|y|] == ':';
    assert forall k :: 0 <= k < |x| ==> text[k] == x[k];
    assert forall k :: 0 <= k < |y| ==> text[k] == y[k];
    assert |x| == |y|;
    assert x == text[..|x|] && y == text[..|y|];
    assert a == text[|x| + 1..] && b == (y + ":" + b)[|y| + 1..];
  }

  lemma Regroup(prefix: string, id: string, name: string)
    ensures prefix + id + ":" + name == prefix + (id + ":" + name)
  {}

  lemma KeyTells(id1: string, name1: string, id2: string, name2: string)
    requires ':' !in id1 && ':' !in id2 && "detection:" + id1 + ":" + name1 == "detection:" + id2 + ":" + name2
    ensures id1 == id2 && name1 == name2
  {
    Regroup("detection:", id1, name1);
    Regroup("detection:", id2, name2);
    SameSuffix("detection:", id1 + ":" + name1, id2 + ":" + name2);
    SamePrefix(id1, name1, id2, name2);
  }

  /** Ids are UUIDs, which hold no colon: the keys of two attempts, or of two actions, differ. */
  lemma KeysTellAttempts(id1: string, action1: ProtectiveAction, id2: string, action2: ProtectiveAction)
    requires ':' !in id1 && ':' !in id2
    ensures Reason(id1, action1) == Reason(id2, action2) <==> id1 == id2 && action1 == action2
  {
    if Reason(id1, action1) == Reason(id2, action2) {
      SameSuffix("idempotency:", Key(id1, action1), Key(id2, action2));
      KeyTells(id1, ActionName(action1), id2, ActionName(action2));
      NamesDiffer(action1, action2);
    }
  }

  /** So the call for one attempt is not taken for a repeat of another's: it is on record only if it was before. */
  lemma AttemptsDoNotCollide(
    s: Core.Core, step: Core.Step, id: string, other: string, action: ProtectiveAction, user: nat)
    requires ':' !in id && ':' !in other && id != other
    requires step.ActionStep? && step.key == Some(Key(other, step.action))
    ensures Core.Recorded(Core.Apply(s, step).audit, action, user, Reason(id, action)) <==>
            Core.Recorded(s.audit, action, user, Reason(id, action))
  {
    KeysTellAttempts(id, action, other, step.action);
    KeyedActions.RecordedAfterStep(s, step, action, user, Reason(id, action));
  }
}
