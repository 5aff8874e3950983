/** Account administration: the last active administrator, and the sessions an administrative change ends. */
module Iam {
  import opened Basics
  import opened Sessions
  import Detection
  import opened Core

  ghost predicate HasAdmin(s: Core) {
    exists u :: u in s.users && ActiveAdmin(s.users[u])
  }

  lemma AnotherMember(members: set<nat>, u: nat)
    requires |members| > 1
    ensures exists v :: v in members && v != u
  {
    if forall v :: v in members ==> v == u {
      assert members <= {u};
      SubsetSize(members, {u});
    }
  }

  lemma SubsetSize(a: set<nat>, b: set<nat>)
    requires a <= b
    ensures |a| <= |b|
  {
    assert a + (b - a) == b;
  }

  /** A change of one account leaves an administrator if another one exists or that account is still one. */
  lemma AdminRemains(s: Core, after: Core, user: nat)
    requires HasAdmin(s) && user in s.users && user in after.users
    requires forall u :: u in s.users && u != user ==> u in after.users && after.users[u] == s.users[u]
    requires |ActiveAdmins(s.users)| > 1 || (ActiveAdmin(s.users[user]) ==> ActiveAdmin(after.users[user]))
    ensures HasAdmin(after)
  {
    if |ActiveAdmins(s.users)| > 1 {
      AnotherMember(ActiveAdmins(s.users), user);
      var v :| v in ActiveAdmins(s.users) && v != user;
      assert ActiveAdmin(after.users[v]);
    } else {
      var v :| v in s.users && ActiveAdmin(s.users[v]);
      assert ActiveAdmin(after.users[v]);
    }
  }

  lemma RevokeRoleKeepsAdmin(s: Core, user: nat, role: Role)
    requires HasAdmin(s)
    ensures HasAdmin(RevokeRole(s, user, role).core)
  {
    if RevokeRole(s, user, role).reply.Done? {
      AdminRemains(s, RevokeRole(s, user, role).core, user);
    }
  }

  lemma LockKeepsAdmin(s: Core, user: nat)
    requires HasAdmin(s)
    ensures HasAdmin(LockAccount(s, user).core)
  {
    if LockAccount(s, user).reply.Done? {
      AdminRemains(s, LockAccount(s, user).core, user);
    }
  }

  /** No account becomes less of an administrator. */
  ghost predicate AdminsKept(s: Core, after: Core) {
    forall u :: u in s.users && ActiveAdmin(s.users[u]) ==> u in after.users && ActiveAdmin(after.users[u])
  }

  lemma KeptHasAdmin(s: Core, after: Core)
    requires HasAdmin(s) && AdminsKept(s, after)
    ensures HasAdmin(after)
  {
    var v :| v in s.users && ActiveAdmin(s.users[v]);
    assert ActiveAdmin(after.users[v]);
  }

  lemma LoginKeepsAdmins(s: Core, peer: Network.Peer, user: nat, passwordOk: bool, hold: bool, code: nat)
    ensures AdminsKept(s, Login(s, peer, user, passwordOk, hold, code).core)
  {}

  lemma VerifyKeepsAdmins(s: Core, h: nat)
    ensures AdminsKept(s, VerifyFinish(s, h).core)
  {}

  lemma CompleteKeepsAdmins(s: Core, h: nat, hold: bool)
    ensures AdminsKept(s, CompleteFinish(s, h, hold).core)
  {}

  lemma AssignKeepsAdmins(s: Core, user: nat, role: Role)
    ensures AdminsKept(s, AssignRole(s, user, role).core)
  {}

  lemma UnlockKeepsAdmins(s: Core, user: nat)
    ensures AdminsKept(s, UnlockAccount(s, user).core)
  {}

  lemma ToggleKeepsAdmins(s: Core, user: nat, required: bool)
    ensures AdminsKept(s, ToggleMfa(s, user, required).core)
  {}

  lemma ActionKeepsAdmins(s: Core, action: ProtectiveAction, user: nat, key: Option<string>, reason: string)
    requires action != Detection.LockUser
    ensures AdminsKept(s, ApplyAction(s, action, user, key, reason).core)
  {}

  /** Detection locks accounts without the guard. */
  predicate DetectionLock(step: Step) {
    step.ActionStep? && step.action == Detection.LockUser
  }

  lemma GuardedKeepsAdmin(s: Core, step: Step)
    requires HasAdmin(s) && (step.RevokeRoleStep? || step.LockStep?)
    ensures HasAdmin(Apply(s, step))
  {
    match step {
      case RevokeRoleStep(user, role) => RevokeRoleKeepsAdmin(s, user, role);
      case LockStep(user) => LockKeepsAdmin(s, user);
    }
  }

  lemma GrantKeepsAdmin(s: Core, step: Step)
    requires HasAdmin(s) && (step.AssignRoleStep? || step.UnlockStep? || step.ToggleMfaStep?)
    ensures HasAdmin(Apply(s, step))
  {
    match step {
      case AssignRoleStep(user, role) =>
        AssignKeepsAdmins(s, user, role);
        KeptHasAdmin(s, AssignRole(s, user, role).core);
      case UnlockStep(user) =>
        UnlockKeepsAdmins(s, user);
        KeptHasAdmin(s, UnlockAccount(s, user).core);
      case ToggleMfaStep(user, required) =>
        ToggleKeepsAdmins(s, user, required);
        KeptHasAdmin(s, ToggleMfa(s, user, required).core);
    }
  }

  lemma FlowKeepsAdmin(s: Core, step: Step)
    requires HasAdmin(s) && !DetectionLock(step)
    requires step.LoginStep? || step.VerifyFinishStep? || step.CompleteFinishStep? || step.ActionStep?
    ensures HasAdmin(Apply(s, step))
  {
    match step {
      case LoginStep(peer, user, passwordOk, hold, code) =>
        LoginKeepsAdmins(s, peer, user, passwordOk, hold, code);
        KeptHasAdmin(s, Login(s, peer, user, passwordOk, hold, code).core);
      case VerifyFinishStep(h) =>
        VerifyKeepsAdmins(s, h);
        KeptHasAdmin(s, VerifyFinish(s, h).core);
      case CompleteFinishStep(h, hold) =>
        CompleteKeepsAdmins(s, h, hold);
        KeptHasAdmin(s, CompleteFinish(s, h, hold).core);
      case ActionStep(action, user, key, reason) =>
        ActionKeepsAdmins(s, action, user, key, reason);
        KeptHasAdmin(s, ApplyAction(s, action, user, key, reason).core);
    }
  }

  lemma StepKeepsAdmin(s: Core, step: Step)
    requires HasAdmin(s) && !DetectionLock(step)
    ensures HasAdmin(Apply(s, step))
  {
    if step.RevokeRoleStep? || step.LockStep? {
      GuardedKeepsAdmin(s, step);
    } else if step.AssignRoleStep? || step.UnlockStep? || step.ToggleMfaStep? {
      GrantKeepsAdmin(s, step);
    } else if step.LoginStep? || step.VerifyFinishStep? || step.CompleteFinishStep? || step.ActionStep? {
      FlowKeepsAdmin(s, step);
    } else {
      KeptHasAdmin(s, Apply(s, step));
    }
  }

  /**
   Once there is an active SECURITY_ADMIN there always is one, whatever administrators,
   users and Detection do, short of Detection locking an account.
   */
  lemma {:induction false} AlwaysAnAdmin(s: Core, steps: seq<Step>)
    requires HasAdmin(s) && forall j :: 0 <= j < |steps| ==> !DetectionLock(steps[j])
    ensures HasAdmin(Run(s, steps))
  {
    if steps != [] {
      AlwaysAnAdmin(s, steps[..|steps| - 1]);
      StepKeepsAdmin(Run(s, steps[..|steps| - 1]), steps[|steps| - 1]);
    }
  }

  /**
   The exception is real: a lock by Detection leaves no administrator if and only if its
   user is the only one and the delivery is not a repeat of a recorded one.
   */
  lemma DetectionLocksLastAdminExactlyWhen(s: Core, user: nat, key: Option<string>, reason: string)
    requires HasAdmin(s)
    ensures !HasAdmin(ApplyAction(s, Detection.LockUser, user, key, reason).core) <==>
            && ActiveAdmins(s.users) == {user}
            && !(KeyedReason(key).Some? && Recorded(s.audit, Detection.LockUser, user, KeyedReason(key).value))
  {
    var after := ApplyAction(s, Detection.LockUser, user, key, reason).core;
    if after != s {
      LockLeavesOthers(s, user, key, reason);
      if v :| v in ActiveAdmins(s.users) && v != user {
        assert ActiveAdmin(after.users[v]);
      } else {
        var u :| u in s.users && ActiveAdmin(s.users[u]);
        assert u in ActiveAdmins(s.users);
        assert ActiveAdmins(s.users) == {user};
        forall w | w in after.users ensures !ActiveAdmin(after.users[w]) {
          assert w != user ==> w !in ActiveAdmins(s.users);
        }
      }
    }
  }

  lemma LockLeavesOthers(s: Core, user: nat, key: Option<string>, reason: string)
    ensures var after := ApplyAction(s, Detection.LockUser, user, key, reason).core;
            || after == s
            || (&& user in s.users && after.users == s.users[user := after.users[user]]
                && user in after.users && after.users[user].status == Locked
                && !(KeyedReason(key).Some? && Recorded(s.audit, Detection.LockUser, user, KeyedReason(key).value)))
  {}

  /** The source does not ask whether the target of a lock is an administrator. */
  predicate LockWouldBeSafe(s: Core, user: nat) {
    exists v :: v in ActiveAdmins(s.users) && v != user
  }

  /**
   The lock guard refuses more than it must: locking an active account would leave an
   administrator, and is refused all the same, exactly when the account is not an
   administrator and there is one administrator in all.
   */
  lemma LockGuardRefusesTooMuchExactlyWhen(s: Core, user: nat)
    requires user in s.users && s.users[user].status == Active
    ensures LockAccount(s, user).reply == Refused(409) && LockWouldBeSafe(s, user) <==>
            !ActiveAdmin(s.users[user]) && |ActiveAdmins(s.users)| == 1
  {
    var admins := ActiveAdmins(s.users);
    if |admins| == 1 {
      var v :| v in admins;
      OnlyMember(admins, v);
      assert ActiveAdmin(s.users[user]) <==> user in admins;
      assert LockWouldBeSafe(s, user) <==> v != user;
    } else if |admins| == 0 {
      assert admins == {};
    }
  }

  lemma OnlyMember(members: set<nat>, v: nat)
    requires |members| == 1 && v in members
    ensures forall w :: w in members ==> w == v
  {
    forall w | w in members ensures w == v {
      if w != v {
        SubsetSize({v, w}, members);
      }
    }
  }

  /** For an administrator's account the guard is exact, and so it is for removing the role. */
  lemma GuardExactForAdmins(s: Core, user: nat)
    requires user in s.users && ActiveAdmin(s.users[user])
    ensures LockAccount(s, user).reply == Refused(409) <==> !LockWouldBeSafe(s, user)
    ensures RevokeRole(s, user, SecurityAdmin).reply == Refused(409) <==> !LockWouldBeSafe(s, user)
  {
    var admins := ActiveAdmins(s.users);
    if |admins| > 1 {
      AnotherMember(admins, user);
    } else if v :| v in admins && v != user {
      SubsetSize({user, v}, admins);
    }
  }
}
