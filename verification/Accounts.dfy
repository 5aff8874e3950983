/** The columns of an account: what each endpoint writes to them, and what the next login makes of them. */
module Accounts {
  import opened Basics
  import opened Network
  import opened Sessions
  import RateLimiter
  import Detection
  import opened Core

  // ---------------------------------------------------------------------------
  // Login
  // ---------------------------------------------------------------------------

  predicate Limited(s: Core, peer: Peer) {
    RateLimiter.Denied(RateRow(s, peer, LoginCounter), s.clock)
  }

  /** A login is answered 429 over the limit, 401 without user or right password, 423 when locked, and else let in. */
  lemma LoginReplies(s: Core, peer: Peer, user: nat, passwordOk: bool, hold: bool, code: nat)
    ensures var r := Login(s, peer, user, passwordOk, hold, code);
            if Limited(s, peer) then r == Outcome(s, Refused(429))
            else if user !in s.users || !passwordOk then r.reply == Refused(401)
            else if s.users[user].status == Locked then r.reply == Refused(423)
            else r.reply.Challenge? || r.reply.Issued?
  {}

  /** The step is a login of this user that reaches the password check. */
  predicate Tries(s: Core, step: Step, user: nat) {
    step.LoginStep? && step.user == user && user in s.users && !Limited(s, step.peer)
  }

  /** What a login writes to the account: the count of failures, the flag of a hold, the last login of a session. */
  lemma LoginWrites(s: Core, peer: Peer, user: nat, passwordOk: bool, hold: bool, code: nat)
    ensures var r := Login(s, peer, user, passwordOk, hold, code);
            && (forall u :: u in s.users && u != user ==> u in r.core.users && r.core.users[u] == s.users[u])
            && (Limited(s, peer) || user !in s.users ==> r.core.users == s.users)
            && (!Limited(s, peer) && user in s.users ==>
                  var x := s.users[user];
                  && user in r.core.users
                  && r.core.users[user] ==
                     if !passwordOk then x.(failedLogins := x.failedLogins + 1)
                     else if x.status == Locked then x
                     else x.(failedLogins := 0, detectionMfa := x.detectionMfa || hold,
                             lastLogin := if r.reply.Issued? then Some(s.clock) else x.lastLogin))
  {}

  /** The failures in a row: each wrong password adds one, and a login that is let in starts again. */
  function Streak(s: Core, steps: seq<Step>, user: nat): nat {
    if steps == [] then (if user in s.users then s.users[user].failedLogins else 0)
    else
      var n := |steps| - 1;
      var before, step, earlier := Run(s, steps[..n]), steps[n], Streak(s, steps[..n], user);
      if !Tries(before, step, user) then earlier
      else if !step.passwordOk then earlier + 1
      else if before.users[user].status == Locked then earlier
      else 0
  }

  ghost predicate SameFailures(s: Core, after: Core, user: nat) {
    && (user in s.users ==> user in after.users && after.users[user].failedLogins == s.users[user].failedLogins)
    && (user !in s.users && user in after.users ==> after.users[user].failedLogins == 0)
  }

  lemma ActionKeepsFailures(s: Core, action: ProtectiveAction, u: nat, key: Option<string>, reason: string, user: nat)
    ensures SameFailures(s, ApplyAction(s, action, u, key, reason).core, user)
  {}

  lemma RoleKeepsFailures(s: Core, step: Step, user: nat)
    requires step.AssignRoleStep? || step.RevokeRoleStep?
    ensures SameFailures(s, Apply(s, step), user)
  {}

  lemma LockKeepsFailures(s: Core, step: Step, user: nat)
    requires step.LockStep? || step.UnlockStep?
    ensures SameFailures(s, Apply(s, step), user)
  {}

  lemma ToggleKeepsFailures(s: Core, step: Step, user: nat)
    requires step.ToggleMfaStep?
    ensures SameFailures(s, Apply(s, step), user)
  {}

  lemma VerifyKeepsFailures(s: Core, step: Step, user: nat)
    requires step.VerifyFinishStep?
    ensures SameFailures(s, Apply(s, step), user)
  {}

  lemma CompletionKeepsFailures(s: Core, step: Step, user: nat)
    requires step.CompleteFinishStep?
    ensures SameFailures(s, Apply(s, step), user)
  {}

  lemma OthersKeepFailures(s: Core, step: Step, user: nat)
    requires !step.LoginStep?
    ensures SameFailures(s, Apply(s, step), user)
  {
    if step.ActionStep? {
      ActionKeepsFailures(s, step.action, step.user, step.key, step.reason, user);
    } else if step.AssignRoleStep? || step.RevokeRoleStep? {
      RoleKeepsFailures(s, step, user);
    } else if step.LockStep? || step.UnlockStep? {
      LockKeepsFailures(s, step, user);
    } else if step.ToggleMfaStep? {
      ToggleKeepsFailures(s, step, user);
    } else if step.VerifyFinishStep? {
      VerifyKeepsFailures(s, step, user);
    } else if step.CompleteFinishStep? {
      CompletionKeepsFailures(s, step, user);
    }
  }

  /** Over every run the failed-login column is the number of failures in a row. */
  lemma {:induction false} FailuresInARow(s: Core, steps: seq<Step>, user: nat)
    requires user in Run(s, steps).users
    ensures Run(s, steps).users[user].failedLogins == Streak(s, steps, user)
  {
    FailuresOrAbsent(s, steps, user);
  }

  lemma {:induction false} FailuresOrAbsent(s: Core, steps: seq<Step>, user: nat)
    ensures if user in Run(s, steps).users then Run(s, steps).users[user].failedLogins == Streak(s, steps, user)
            else Streak(s, steps, user) == 0
  {
    if steps != [] {
      var n := |steps| - 1;
      var before, step := Run(s, steps[..n]), steps[n];
      FailuresOrAbsent(s, steps[..n], user);
      if step.LoginStep? {
        LoginWrites(before, step.peer, step.user, step.passwordOk, step.hold, step.code);
        LoginAddsNoUser(before, step.peer, step.user, step.passwordOk, step.hold, step.code);
      } else {
        OthersKeepFailures(before, step, user);
      }
    }
  }

  lemma LoginAddsNoUser(s: Core, peer: Peer, user: nat, passwordOk: bool, hold: bool, code: nat)
    ensures Login(s, peer, user, passwordOk, hold, code).core.users.Keys == s.users.Keys
  {}

  /** A registered user is active, has the base role alone and no flag, and gets a session from the right password. */
  lemma RegisteredUserLogsIn(s: Core, user: nat, peer: Peer, code: nat)
    ensures var r := Register(s, user);
            && (user in s.users ==> r == Outcome(s, Refused(409)))
            && (user !in s.users ==>
                  && r.reply == Done
                  && r.core == s.(users := s.users[user := r.core.users[user]],
                                  audit := s.audit + [Note(Registered, user)])
                  && r.core.users[user].roles == {BaseUser} && r.core.users[user].failedLogins == 0
                  && r.core.users[user].status == Active && r.core.users[user].lockedAt == None
                  && (!Limited(r.core, peer) ==>
                        Login(r.core, peer, user, true, false, code).reply == Issued(|s.book.sessions|)))
  {}

  // ---------------------------------------------------------------------------
  // Administration
  // ---------------------------------------------------------------------------

  /** The user's unrevoked sessions. */
  ghost function LiveSessions(s: Core, user: nat): set<nat> {
    set i: nat | i < |s.book.sessions| && s.book.sessions[i].user == user && s.book.sessions[i].revokedAt == None
  }

  lemma {:induction false} LiveCountIsSize(sessions: seq<Session>, user: nat)
    ensures LiveCount(sessions, user) ==
            |set i: nat | i < |sessions| && sessions[i].user == user && sessions[i].revokedAt == None|
  {
    var all := set i: nat | i < |sessions| && sessions[i].user == user && sessions[i].revokedAt == None;
    if sessions == [] {
      assert all == {};
    } else {
      var n: nat := |sessions| - 1;
      LiveCountIsSize(sessions[..n], user);
      var earlier := set i: nat | i < n && sessions[..n][i].user == user && sessions[..n][i].revokedAt == None;
      assert forall i :: i in earlier <==> i in all && i != n;
      if Live(sessions[n], user) {
        assert all == earlier + {n};
      } else {
        assert all == earlier;
      }
    }
  }

  /** Exactly the user's live sessions end now, and the audit trail gains one row with the cause and their number. */
  ghost predicate Ousts(s: Core, after: Core, user: nat, cause: Cause) {
    && |after.book.sessions| == |s.book.sessions|
    && (forall k: nat :: k < |s.book.sessions| ==>
          if k in LiveSessions(s, user) then after.book.sessions[k].revokedAt == Some(s.clock)
          else after.book.sessions[k] == s.book.sessions[k])
    && after.audit == s.audit + [Administrative(cause, user, |LiveSessions(s, user)|)]
    && after.txns == s.txns && after.devices == s.devices
  }

  lemma RevocationOusts(s: Core, changed: Core, cause: Cause, user: nat)
    requires changed == s.(users := changed.users)
    ensures Ousts(s, Revocation(changed, cause, user), user, cause)
  {
    LiveCountIsSize(s.book.sessions, user);
  }

  /** Only this account's row changes. */
  ghost predicate OnlyAccount(s: Core, after: Core, user: nat) {
    user in s.users && user in after.users && after.users == s.users[user := after.users[user]]
  }

  /** Assigning: the account gets the role and keeps the others, and its sessions end; a role it has changes nothing. */
  lemma AssignMeaning(s: Core, user: nat, role: Role)
    ensures var r := AssignRole(s, user, role);
            && (user !in s.users ==> r == Outcome(s, Refused(404)))
            && (user in s.users && role in s.users[user].roles ==> r == Outcome(s, Done))
            && (user in s.users && role !in s.users[user].roles ==>
                  && r.reply == Done && OnlyAccount(s, r.core, user) && Ousts(s, r.core, user, RoleAssigned)
                  && role in r.core.users[user].roles
                  && r.core.users[user].(roles := r.core.users[user].roles - {role}) == s.users[user])
  {
    if user in s.users {
      var u := s.users[user];
      if role !in u.roles {
        assert u.roles + {role} - {role} == u.roles;
        RevocationOusts(s, s.(users := s.users[user := u.(roles := u.roles + {role})]), RoleAssigned, user);
      }
    }
  }

  /** Removing: 422 for the base role, 404 without it, 409 by the guard; else the account loses exactly that role. */
  lemma RevokeMeaning(s: Core, user: nat, role: Role)
    ensures var r := RevokeRole(s, user, role);
            if role == BaseUser then r == Outcome(s, Refused(422))
            else if user !in s.users || role !in s.users[user].roles then r == Outcome(s, Refused(404))
            else if role == SecurityAdmin && s.users[user].status == Active && |ActiveAdmins(s.users)| <= 1
            then r == Outcome(s, Refused(409))
            else
              && r.reply == Done && OnlyAccount(s, r.core, user) && Ousts(s, r.core, user, RoleRevoked)
              && role !in r.core.users[user].roles
              && r.core.users[user].(roles := r.core.users[user].roles + {role}) == s.users[user]
  {
    if RevokeRole(s, user, role).reply.Done? {
      var u := s.users[user];
      assert u.roles - {role} + {role} == u.roles;
      RevocationOusts(s, s.(users := s.users[user := u.(roles := u.roles - {role})]), RoleRevoked, user);
    }
  }

  /** A role assigned and removed again leaves the account as it was. */
  lemma AssignThenRevoke(s: Core, user: nat, role: Role)
    requires user in s.users && role !in s.users[user].roles
    requires RevokeRole(AssignRole(s, user, role).core, user, role).reply == Done
    ensures RevokeRole(AssignRole(s, user, role).core, user, role).core.users == s.users
  {
    AssignMeaning(s, user, role);
    var given := AssignRole(s, user, role).core;
    RevokeMeaning(given, user, role);
    var taken := RevokeRole(given, user, role).core;
    assert taken.users[user].roles == given.users[user].roles - {role};
    assert taken.users[user] == s.users[user];
    assert taken.users == s.users[user := s.users[user]];
  }

  /** Locking: the account is locked as of now and its sessions end; a locked one changes nothing. */
  lemma LockMeaning(s: Core, user: nat)
    ensures var r := LockAccount(s, user);
            if user !in s.users then r == Outcome(s, Refused(404))
            else if s.users[user].status == Locked then r == Outcome(s, Done)
            else if s.users[user].status == Active && |ActiveAdmins(s.users)| <= 1 then r == Outcome(s, Refused(409))
            else
              && r.reply == Done && OnlyAccount(s, r.core, user) && Ousts(s, r.core, user, AccountLocked)
              && r.core.users[user] == s.users[user].(status := Locked, lockedAt := Some(s.clock))
  {
    if user in s.users {
      var u := s.users[user];
      var locked := s.(users := s.users[user := u.(status := Locked, lockedAt := Some(s.clock))]);
      RevocationOusts(s, locked, AccountLocked, user);
    }
  }

  /** Unlocking: the account is active again, whatever it was, and no session is touched. */
  lemma UnlockMeaning(s: Core, user: nat)
    ensures var r := UnlockAccount(s, user);
            if user !in s.users then r == Outcome(s, Refused(404))
            else
              && r.reply == Done && OnlyAccount(s, r.core, user) && r.core.book == s.book && r.core.txns == s.txns
              && r.core.users[user] == s.users[user].(status := Active, lockedAt := None)
              && r.core.audit == s.audit + [Note(AccountUnlocked, user)]
  {}

  /** A locked account is refused its right password, and after unlocking it no longer is. */
  lemma LockBarsLogin(s: Core, user: nat, peer: Peer, hold: bool, code: nat)
    requires user in s.users && LockAccount(s, user).reply == Done && !Limited(s, peer)
    ensures var locked := LockAccount(s, user).core;
            var unlocked := UnlockAccount(locked, user).core;
            && Login(locked, peer, user, true, hold, code).reply == Refused(423)
            && !Login(unlocked, peer, user, true, hold, code).reply.Refused?
  {
    LockMeaning(s, user);
    var locked := LockAccount(s, user).core;
    UnlockMeaning(locked, user);
    var unlocked := UnlockAccount(locked, user).core;
    assert RateRow(locked, peer, LoginCounter) == RateRow(s, peer, LoginCounter);
    LoginReplies(locked, peer, user, true, hold, code);
    LoginReplies(unlocked, peer, user, true, hold, code);
  }

  /** Locking an active account and unlocking it again leaves every account as it was. */
  lemma LockThenUnlock(s: Core, user: nat)
    requires user in s.users && s.users[user].status == Active && s.users[user].lockedAt == None
    requires LockAccount(s, user).reply == Done
    ensures UnlockAccount(LockAccount(s, user).core, user).core.users == s.users
  {
    LockMeaning(s, user);
    var locked := LockAccount(s, user).core;
    UnlockMeaning(locked, user);
    assert UnlockAccount(locked, user).core.users[user] == s.users[user];
  }

  /** Logging out everywhere reports itself, with its user and the number of sessions that went. */
  lemma LogoutAllAudited(s: Core, token: nat)
    requires Authenticate(s, token).Some?
    ensures var i := Authenticate(s, token).value;
            i < |s.book.sessions| && Ousts(s, LogoutAll(s, token).core, s.book.sessions[i].user, LoggedOutEverywhere)
  {
    RevocationOusts(s, s, LoggedOutEverywhere, s.book.sessions[Authenticate(s, token).value].user);
  }

  /** Toggling: the flag is what was asked for, and the sessions end either way. */
  lemma ToggleMeaning(s: Core, user: nat, required: bool)
    ensures var r := ToggleMfa(s, user, required);
            if user !in s.users then r == Outcome(s, Refused(404))
            else
              && r.reply == Done && OnlyAccount(s, r.core, user) && Ousts(s, r.core, user, MfaToggled)
              && r.core.users[user] == s.users[user].(adminMfa := required)
  {
    if user in s.users {
      RevocationOusts(s, s.(users := s.users[user := s.users[user].(adminMfa := required)]), MfaToggled, user);
    }
  }

  /** The next right-password login gets an OTP challenge if MFA was required, and a session if it was lifted. */
  lemma ToggleDecidesLogin(s: Core, user: nat, required: bool, peer: Peer, code: nat)
    requires user in s.users && s.users[user].status != Locked && !s.users[user].detectionMfa && !Limited(s, peer)
    ensures var after := ToggleMfa(s, user, required).core;
            var r := Login(after, peer, user, true, false, code);
            && (r.reply == Challenge(|s.txns|) <==> required)
            && (r.reply == Issued(|s.book.sessions|) <==> !required)
  {
    ToggleMeaning(s, user, required);
    var after := ToggleMfa(s, user, required).core;
    assert RateRow(after, peer, LoginCounter) == RateRow(s, peer, LoginCounter);
    assert after.users[user].adminMfa == required && !after.users[user].detectionMfa;
  }

  // ---------------------------------------------------------------------------
  // Protective actions
  // ---------------------------------------------------------------------------

  /** The action is already in effect on the account. */
  ghost predicate HadEffect(s: Core, action: ProtectiveAction, user: nat)
    requires user in s.users
  {
    match action
    case RequireMfa => s.users[user].detectionMfa
    case LockUser => s.users[user].status == Locked
    case _ => LiveSessions(s, user) == {}
  }

  /**
   A delivery is answered as already applied exactly when it is a repeat or the action was
   in effect before, and reports the sessions it ended.
   */
  lemma AnsweredAs(s: Core, action: ProtectiveAction, user: nat, key: Option<string>, reason: string)
    ensures var r := ApplyAction(s, action, user, key, reason);
            if user !in s.users then r == Outcome(s, Refused(404))
            else if key.Some? && key.value != "" && Recorded(s.audit, action, user, "idempotency:" + key.value)
            then r == Outcome(s, Enforced(true, 0))
            else
              && r.reply == Enforced(HadEffect(s, action, user), |LiveSessions(s, user)|)
              && var given := if key.Some? && key.value != "" then "idempotency:" + key.value else reason;
                 r.core.audit == s.audit + [Protective(action, user, given, |LiveSessions(s, user)|)]
  {
    LiveCountIsSize(s.book.sessions, user);
  }

  /** What the action does to the account: MFA is required once, the account is locked as of now, or nothing. */
  lemma ActionWrites(s: Core, action: ProtectiveAction, user: nat, key: Option<string>, reason: string)
    requires user in s.users && !(key.Some? && key.value != ""
                                  && Recorded(s.audit, action, user, "idempotency:" + key.value))
    ensures var r, x := ApplyAction(s, action, user, key, reason), s.users[user];
            && OnlyAccount(s, r.core, user)
            && (action == Detection.RequireMfa ==> r.core.users[user] == x.(detectionMfa := true))
            && (action == Detection.LockUser && x.status != Locked ==>
                  r.core.users[user] == x.(status := Locked, lockedAt := Some(s.clock)))
            && (action == Detection.LockUser && x.status == Locked ==> r.core.users[user] == x)
            && (action == Detection.RevokeSessions || action == Detection.ForceLogout ==> r.core.users == s.users)
  {}
}
