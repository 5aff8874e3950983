/** Protective actions under an idempotency key: delivering one again changes nothing. */
module KeyedActions {
  import opened Basics
  import opened Sessions
  import Detection
  import opened Core
  import opened TokenSafety

  // ---------------------------------------------------------------------------
  // Repeats
  // ---------------------------------------------------------------------------

  /** Two deliveries of one keyed action. */
  predicate SameDelivery(a: Step, b: Step) {
    && a.ActionStep? && b.ActionStep? && a.action == b.action && a.user == b.user
    && KeyedReason(a.key).Some? && KeyedReason(a.key) == KeyedReason(b.key)
  }

  /** The keyed action was delivered earlier in the run, when its user existed. */
  predicate IsRepeat(s: Core, earlier: seq<Step>, step: Step) {
    exists j :: 0 <= j < |earlier| && SameDelivery(earlier[j], step) && earlier[j].user in Run(s, earlier[..j]).users
  }

  /** The same steps without the repeats. */
  function Deduplicated(s: Core, steps: seq<Step>): seq<Step> {
    if steps == [] then []
    else
      var earlier, last := steps[..|steps| - 1], steps[|steps| - 1];
      Deduplicated(s, earlier) + (if IsRepeat(s, earlier, last) then [] else [last])
  }

  lemma AuditGrows(s: Core, step: Step)
    ensures s.audit <= Apply(s, step).audit
  {
    var op := OpOf(s, step);
  }

  lemma {:induction false} AuditGrowsOverRuns(s: Core, steps: seq<Step>, j: nat)
    requires j <= |steps|
    ensures Run(s, steps[..j]).audit <= Run(s, steps).audit
  {
    if j == |steps| {
      assert steps[..j] == steps;
    } else {
      var n := |steps| - 1;
      AuditGrowsOverRuns(s, steps[..n], j);
      assert steps[..n][..j] == steps[..j];
      AuditGrows(Run(s, steps[..n]), steps[n]);
    }
  }

  lemma RecordedStays(audit: seq<AuditRow>, after: seq<AuditRow>, action: ProtectiveAction, user: nat, reason: string)
    requires Recorded(audit, action, user, reason) && audit <= after
    ensures Recorded(after, action, user, reason)
  {
    var k :| 0 <= k < |audit| && Records(audit[k], action, user, reason);
    assert Records(after[k], action, user, reason);
  }

  /** A keyed delivery to an existing user is on record afterwards, whether or not it was the first. */
  lemma DeliveryIsRecorded(s: Core, action: ProtectiveAction, user: nat, key: Option<string>, reason: string)
    requires user in s.users && KeyedReason(key).Some?
    ensures Recorded(ApplyAction(s, action, user, key, reason).core.audit, action, user, KeyedReason(key).value)
  {
    var after := ApplyAction(s, action, user, key, reason).core.audit;
    if !Recorded(s.audit, action, user, KeyedReason(key).value) {
      assert Records(after[|s.audit|], action, user, KeyedReason(key).value);
    }
  }

  lemma RecordedFrom(
    s: Core, steps: seq<Step>, j: nat, action: ProtectiveAction, user: nat, key: Option<string>, reason: string)
    requires j < |steps| && steps[j] == ActionStep(action, user, key, reason)
    requires user in Run(s, steps[..j]).users && KeyedReason(key).Some?
    ensures Recorded(Run(s, steps).audit, action, user, KeyedReason(key).value)
  {
    var before := Run(s, steps[..j]);
    DeliveryIsRecorded(before, action, user, key, reason);
    RunSnoc(s, steps[..j], steps[j]);
    assert steps[..j] + [steps[j]] == steps[..j + 1];
    AuditGrowsOverRuns(s, steps, j + 1);
    RecordedStays(ApplyAction(before, action, user, key, reason).core.audit, Run(s, steps).audit, action, user,
                  KeyedReason(key).value);
  }

  lemma RepeatIsRecorded(s: Core, earlier: seq<Step>, step: Step)
    requires IsRepeat(s, earlier, step)
    ensures Recorded(Run(s, earlier).audit, step.action, step.user, KeyedReason(step.key).value)
  {
    var j :| 0 <= j < |earlier| && SameDelivery(earlier[j], step) && earlier[j].user in Run(s, earlier[..j]).users;
    RecordedFrom(s, earlier, j, earlier[j].action, earlier[j].user, earlier[j].key, earlier[j].reason);
  }

  /** A repeat reports that the action is in effect, revokes nothing, and changes nothing at all. */
  lemma RepeatChangesNothing(s: Core, earlier: seq<Step>, step: Step)
    requires IsRepeat(s, earlier, step)
    ensures Take(Run(s, earlier), step) == Outcome(Run(s, earlier), Enforced(true, 0))
            || step.user !in Run(s, earlier).users
    ensures Apply(Run(s, earlier), step) == Run(s, earlier)
  {
    RepeatIsRecorded(s, earlier, step);
  }

  /**
   Exactly once: any run, with keyed deliveries duplicated and interleaved at will, ends
   in the same state as the run without the repeats.
   */
  lemma {:induction false} RepeatsAreIdle(s: Core, steps: seq<Step>)
    ensures Run(s, Deduplicated(s, steps)) == Run(s, steps)
  {
    if steps != [] {
      var earlier, last := steps[..|steps| - 1], steps[|steps| - 1];
      RepeatsAreIdle(s, earlier);
      if IsRepeat(s, earlier, last) {
        RepeatChangesNothing(s, earlier, last);
        assert Deduplicated(s, steps) == Deduplicated(s, earlier);
      } else {
        RunSnoc(s, Deduplicated(s, earlier), last);
      }
    }
  }

  /**
   A delivery that found no such user leaves no record, so deleting every later repeat
   regardless would lose the action: here the user registers between the two.
   */
  lemma RefusedDeliveryIsNoDelivery(s: Core, user: nat, key: string, reason: string)
    requires user !in s.users && key != ""
    requires !Recorded(s.audit, Detection.RequireMfa, user, "idempotency:" + key)
    ensures var act := ActionStep(Detection.RequireMfa, user, Some(key), reason);
            && Run(s, [act, RegisterStep(user)]) == Register(s, user).core
            && !Flagged(Run(s, [act, RegisterStep(user)]), user)
            && Flagged(Run(s, [act, RegisterStep(user), act]), user)
  {
    var act := ActionStep(Detection.RequireMfa, user, Some(key), reason);
    RefusedThenRegistered(s, act, user);
    RunSnoc(s, [act, RegisterStep(user)], act);
    assert [act, RegisterStep(user)] + [act] == [act, RegisterStep(user), act];
    FirstDeliveryActs(Register(s, user).core, user, key, reason);
  }

  lemma RefusedThenRegistered(s: Core, act: Step, user: nat)
    requires act.ActionStep? && act.user == user && user !in s.users
    ensures Run(s, [act, RegisterStep(user)]) == Register(s, user).core
    ensures !Flagged(Register(s, user).core, user)
  {
    RunOfTwo(s, act, RegisterStep(user));
    assert Apply(s, act) == s;
  }

  lemma FirstDeliveryActs(s: Core, user: nat, key: string, reason: string)
    requires user in s.users && key != "" && !Recorded(s.audit, Detection.RequireMfa, user, "idempotency:" + key)
    ensures Flagged(ApplyAction(s, Detection.RequireMfa, user, Some(key), reason).core, user)
  {}

  // ---------------------------------------------------------------------------
  // Exactly one record
  // ---------------------------------------------------------------------------

  function RecordCount(audit: seq<AuditRow>, action: ProtectiveAction, user: nat, reason: string): nat {
    if audit == [] then 0
    else
      RecordCount(audit[..|audit| - 1], action, user, reason)
      + (if Records(audit[|audit| - 1], action, user, reason) then 1 else 0)
  }

  lemma {:induction false} CountMeansRecorded(audit: seq<AuditRow>, action: ProtectiveAction, user: nat, reason: string)
    ensures RecordCount(audit, action, user, reason) > 0 <==> Recorded(audit, action, user, reason)
  {
    if audit != [] {
      var n := |audit| - 1;
      CountMeansRecorded(audit[..n], action, user, reason);
      if Recorded(audit[..n], action, user, reason) {
        RecordedStays(audit[..n], audit, action, user, reason);
      }
      if k: nat :| k < |audit| && Records(audit[k], action, user, reason) {
        if k < n {
          assert Records(audit[..n][k], action, user, reason);
        }
      }
    }
  }

  lemma {:induction false} CountIgnores(
    audit: seq<AuditRow>, after: seq<AuditRow>, action: ProtectiveAction, user: nat, reason: string)
    requires audit <= after && forall k :: |audit| <= k < |after| ==> !Records(after[k], action, user, reason)
    ensures RecordCount(after, action, user, reason) == RecordCount(audit, action, user, reason)
    decreases |after|
  {
    if |audit| < |after| {
      CountIgnores(audit, after[..|after| - 1], action, user, reason);
    } else {
      assert audit == after;
    }
  }

  /** The keyed action reached its user at some point of the run. */
  predicate Delivered(s: Core, steps: seq<Step>, action: ProtectiveAction, user: nat, reason: string) {
    && steps != []
    && var n := |steps| - 1;
    (Delivers(steps[n], action, user, reason) && user in Run(s, steps[..n]).users)
    || Delivered(s, steps[..n], action, user, reason)
  }

  predicate Delivers(step: Step, action: ProtectiveAction, user: nat, reason: string) {
    step.ActionStep? && step.action == action && step.user == user && KeyedReason(step.key) == Some(reason)
  }

  /** The reason column an action writes. */
  function Written(key: Option<string>, reason: string): string {
    if KeyedReason(key).Some? then KeyedReason(key).value else reason
  }

  /** The step would record this action under this reason, with the key or as free text. */
  predicate Writes(step: Step, action: ProtectiveAction, user: nat, reason: string) {
    step.ActionStep? && step.action == action && step.user == user && Written(step.key, step.reason) == reason
  }

  /**
   An un-keyed action passes for the keyed one: the same action on the same user, with
   the key's text as its reason.
   */
  predicate Imitates(step: Step, action: ProtectiveAction, user: nat, reason: string) {
    Writes(step, action, user, reason) && KeyedReason(step.key) == None
  }

  /** No un-keyed action that is carried out passes for the keyed one. */
  predicate NotMistaken(s: Core, steps: seq<Step>, action: ProtectiveAction, user: nat, reason: string) {
    forall j :: 0 <= j < |steps| && Imitates(steps[j], action, user, reason) ==> user !in Run(s, steps[..j]).users
  }

  /** Only protective actions write protective rows. */
  lemma OthersWriteNoRecord(s: Core, step: Step)
    requires !step.ActionStep?
    ensures NoRecordWritten(s.audit, Apply(s, step).audit)
  {
    if Revoking(step) {
      AdministrativeRow(s, step);
    } else {
      var op := OpOf(s, step);
    }
  }

  lemma AdministrativeRow(s: Core, step: Step)
    requires step.LogoutAllStep? || step.AssignRoleStep? || step.RevokeRoleStep? || step.LockStep?
             || step.ToggleMfaStep?
    ensures NoRecordWritten(s.audit, Apply(s, step).audit)
  {}

  lemma ActionAppends(s: Core, action: ProtectiveAction, user: nat, key: Option<string>, reason: string)
    ensures var after := ApplyAction(s, action, user, key, reason).core.audit;
            if user !in s.users || (KeyedReason(key).Some? && Recorded(s.audit, action, user, KeyedReason(key).value))
            then after == s.audit
            else after == s.audit + [Protective(action, user, Written(key, reason), LiveCount(s.book.sessions, user))]
  {}

  lemma CountSnoc(audit: seq<AuditRow>, row: AuditRow, action: ProtectiveAction, user: nat, reason: string)
    ensures RecordCount(audit + [row], action, user, reason) ==
            RecordCount(audit, action, user, reason) + (if Records(row, action, user, reason) then 1 else 0)
  {
    assert (audit + [row])[..|audit|] == audit;
  }

  /** How one delivery changes the count of records under a key. */
  lemma ActionCounts(s: Core, step: Step, action: ProtectiveAction, user: nat, reason: string)
    requires step.ActionStep? && (Imitates(step, action, user, reason) ==> user !in s.users)
    ensures var after := ApplyAction(s, step.action, step.user, step.key, step.reason).core;
            RecordCount(after.audit, action, user, reason) ==
            if Delivers(step, action, user, reason) && user in s.users
               && RecordCount(s.audit, action, user, reason) == 0
            then 1
            else RecordCount(s.audit, action, user, reason)
  {
    CountMeansRecorded(s.audit, action, user, reason);
    ActionAppends(s, step.action, step.user, step.key, step.reason);
    var row := Protective(step.action, step.user, Written(step.key, step.reason),
                          LiveCount(s.book.sessions, step.user));
    CountSnoc(s.audit, row, action, user, reason);
  }

  /** How one step changes the count of records under a key. */
  lemma StepCounts(s: Core, step: Step, action: ProtectiveAction, user: nat, reason: string)
    requires Imitates(step, action, user, reason) ==> user !in s.users
    ensures RecordCount(Apply(s, step).audit, action, user, reason) ==
            if Delivers(step, action, user, reason) && user in s.users
               && RecordCount(s.audit, action, user, reason) == 0
            then 1
            else RecordCount(s.audit, action, user, reason)
  {
    if step.ActionStep? {
      ActionCounts(s, step, action, user, reason);
    } else {
      OthersWriteNoRecord(s, step);
      CountIgnores(s.audit, Apply(s, step).audit, action, user, reason);
    }
  }

  /**
   As long as no un-keyed action that is carried out imitates the key, a keyed action
   leaves exactly one audit row once it has been delivered to an existing user, and none
   before.
   */
  lemma {:induction false} OneRecordPerKey(
    s: Core, steps: seq<Step>, action: ProtectiveAction, user: nat, reason: string)
    requires !Recorded(s.audit, action, user, reason) && NotMistaken(s, steps, action, user, reason)
    ensures RecordCount(Run(s, steps).audit, action, user, reason) ==
            if Delivered(s, steps, action, user, reason) then 1 else 0
  {
    if steps == [] {
      CountMeansRecorded(s.audit, action, user, reason);
    } else {
      var n := |steps| - 1;
      NotMistakenPrefix(s, steps, action, user, reason);
      OneRecordPerKey(s, steps[..n], action, user, reason);
      StepCounts(Run(s, steps[..n]), steps[n], action, user, reason);
    }
  }

  lemma NotMistakenPrefix(s: Core, steps: seq<Step>, action: ProtectiveAction, user: nat, reason: string)
    requires steps != [] && NotMistaken(s, steps, action, user, reason)
    ensures NotMistaken(s, steps[..|steps| - 1], action, user, reason)
    ensures Imitates(steps[|steps| - 1], action, user, reason) ==> user !in Run(s, steps[..|steps| - 1]).users
  {
    var n := |steps| - 1;
    forall j | 0 <= j < n && Imitates(steps[..n][j], action, user, reason)
      ensures user !in Run(s, steps[..n][..j]).users
    {
      assert steps[..n][..j] == steps[..j] && Imitates(steps[j], action, user, reason);
    }
    if Imitates(steps[n], action, user, reason) {
      assert user !in Run(s, steps[..n]).users;
    }
  }

  // ---------------------------------------------------------------------------
  // When a keyed delivery acts
  // ---------------------------------------------------------------------------

  /** One step puts an action on record exactly by recording it, or by finding it there. */
  lemma RecordedAfterStep(s: Core, step: Step, action: ProtectiveAction, user: nat, reason: string)
    ensures Recorded(Apply(s, step).audit, action, user, reason) <==>
            Recorded(s.audit, action, user, reason) || (Writes(step, action, user, reason) && user in s.users)
  {
    if step.ActionStep? {
      RecordedAfterAction(s, step.action, step.user, step.key, step.reason, action, user, reason);
    } else {
      OthersWriteNoRecord(s, step);
      RecordedUnchanged(s.audit, Apply(s, step).audit, action, user, reason);
    }
  }

  lemma RecordedUnchanged(
    audit: seq<AuditRow>, after: seq<AuditRow>, action: ProtectiveAction, user: nat, reason: string)
    requires NoRecordWritten(audit, after)
    ensures Recorded(after, action, user, reason) <==> Recorded(audit, action, user, reason)
  {
    if Recorded(audit, action, user, reason) {
      RecordedStays(audit, after, action, user, reason);
    }
    if k: nat :| k < |after| && Records(after[k], action, user, reason) {
      assert k < |audit| && Records(audit[k], action, user, reason);
    }
  }

  lemma RecordedAfterAction(
    s: Core, action: ProtectiveAction, user: nat, key: Option<string>, text: string,
    other: ProtectiveAction, target: nat, reason: string)
    ensures Recorded(ApplyAction(s, action, user, key, text).core.audit, other, target, reason) <==>
            || Recorded(s.audit, other, target, reason)
            || (action == other && user == target && Written(key, text) == reason && user in s.users)
  {
    ActionAppends(s, action, user, key, text);
    var row := Protective(action, user, Written(key, text), LiveCount(s.book.sessions, user));
    RecordedSnoc(s.audit, row, other, target, reason);
  }

  lemma RecordedSnoc(audit: seq<AuditRow>, row: AuditRow, action: ProtectiveAction, user: nat, reason: string)
    ensures Recorded(audit + [row], action, user, reason) <==>
            Recorded(audit, action, user, reason) || Records(row, action, user, reason)
  {
    if Recorded(audit, action, user, reason) {
      RecordedStays(audit, audit + [row], action, user, reason);
    }
    if Records(row, action, user, reason) {
      assert Records((audit + [row])[|audit|], action, user, reason);
    }
    if k: nat :| k < |audit + [row]| && Records((audit + [row])[k], action, user, reason) {
      if k < |audit| {
        assert Records(audit[k], action, user, reason);
      }
    }
  }

  /** Some step of the run is such an action, carried out or found on record, on a user that existed. */
  predicate WrittenBy(s: Core, steps: seq<Step>, action: ProtectiveAction, user: nat, reason: string) {
    exists j :: 0 <= j < |steps| && Writes(steps[j], action, user, reason) && user in Run(s, steps[..j]).users
  }

  lemma WrittenBySnoc(s: Core, steps: seq<Step>, action: ProtectiveAction, user: nat, reason: string)
    requires steps != []
    ensures var n := |steps| - 1;
            WrittenBy(s, steps, action, user, reason) <==>
            || WrittenBy(s, steps[..n], action, user, reason)
            || (Writes(steps[n], action, user, reason) && user in Run(s, steps[..n]).users)
  {
    var n := |steps| - 1;
    if j :| 0 <= j < n && Writes(steps[..n][j], action, user, reason) && user in Run(s, steps[..n][..j]).users {
      assert steps[..n][..j] == steps[..j] && Writes(steps[j], action, user, reason);
    }
    if j :| 0 <= j < |steps| && Writes(steps[j], action, user, reason) && user in Run(s, steps[..j]).users {
      if j < n {
        assert steps[..n][..j] == steps[..j] && Writes(steps[..n][j], action, user, reason);
      }
    }
  }

  lemma {:induction false} RecordedExactlyWhen(
    s: Core, steps: seq<Step>, action: ProtectiveAction, user: nat, reason: string)
    ensures Recorded(Run(s, steps).audit, action, user, reason) <==>
            Recorded(s.audit, action, user, reason) || WrittenBy(s, steps, action, user, reason)
  {
    if steps != [] {
      var n := |steps| - 1;
      RecordedExactlyWhen(s, steps[..n], action, user, reason);
      RecordedAfterStep(Run(s, steps[..n]), steps[n], action, user, reason);
      WrittenBySnoc(s, steps, action, user, reason);
    }
  }

  /**
   A keyed delivery to an existing user changes nothing if and only if the action was on
   record under the key's text before the run, or some step of the run was an action on the
   user with that text as its written reason: an earlier delivery, or an un-keyed action
   that imitates the key.
   */
  lemma KeyedDeliveryIdleExactlyWhen(
    s: Core, steps: seq<Step>, action: ProtectiveAction, user: nat, key: string, text: string)
    requires key != "" && user in Run(s, steps).users
    ensures var now, reason := Run(s, steps), "idempotency:" + key;
            && (ApplyAction(now, action, user, Some(key), text).core == now <==>
                Recorded(s.audit, action, user, reason) || WrittenBy(s, steps, action, user, reason))
            && (ApplyAction(now, action, user, Some(key), text).core != now ==>
                  ApplyAction(now, action, user, Some(key), text).core.audit ==
                  now.audit + [Protective(action, user, reason, LiveCount(now.book.sessions, user))])
  {
    RecordedExactlyWhen(s, steps, action, user, "idempotency:" + key);
    ActsExactlyWhen(Run(s, steps), action, user, key, text);
  }

  lemma ActsExactlyWhen(s: Core, action: ProtectiveAction, user: nat, key: string, text: string)
    requires key != "" && user in s.users
    ensures var after, reason := ApplyAction(s, action, user, Some(key), text).core, "idempotency:" + key;
            if Recorded(s.audit, action, user, reason) then after == s
            else after.audit == s.audit + [Protective(action, user, reason, LiveCount(s.book.sessions, user))]
  {}

  /** In particular an un-keyed action that imitates the key makes the first keyed delivery idle. */
  lemma ImitatedKeySuppresses(s: Core, action: ProtectiveAction, user: nat, key: string, text: string)
    requires user in s.users && key != ""
    ensures var imitated := ApplyAction(s, action, user, None, "idempotency:" + key).core;
            ApplyAction(imitated, action, user, Some(key), text) == Outcome(imitated, Enforced(true, 0))
  {
    RecordedAfterAction(s, action, user, None, "idempotency:" + key, action, user, "idempotency:" + key);
  }

  // ---------------------------------------------------------------------------
  // What an action achieves
  // ---------------------------------------------------------------------------

  /**
   An action that is carried out leaves its user without a live session, with the flag or
   the lock it asks for, and reports how many sessions it ended.
   */
  lemma ActionTakesHold(s: Core, action: ProtectiveAction, user: nat, key: Option<string>, reason: string)
    requires user in s.users
    requires KeyedReason(key) == None || !Recorded(s.audit, action, user, KeyedReason(key).value)
    ensures var r := ApplyAction(s, action, user, key, reason);
            && (forall i :: 0 <= i < |r.core.book.sessions| ==> !Live(r.core.book.sessions[i], user))
            && (forall i :: 0 <= i < |s.book.sessions| && s.book.sessions[i].user != user ==>
                  r.core.book.sessions[i] == s.book.sessions[i])
            && (forall u :: u in s.users && u != user ==> u in r.core.users && r.core.users[u] == s.users[u])
            && user in r.core.users
            && (action == Detection.RequireMfa ==> r.core.users[user].detectionMfa)
            && (action == Detection.LockUser ==> r.core.users[user].status == Locked)
            && (action != Detection.LockUser ==> r.core.users[user].status == s.users[user].status)
            && r.reply.Enforced? && r.reply.revoked == LiveCount(s.book.sessions, user)
  {}
}
