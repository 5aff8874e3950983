/** What a token lets its holder do: exactly when it opens, renews or ends a session, and whose. */
module Bearer {
  import opened Basics
  import opened Network
  import opened Sessions
  import opened Core
  import opened TokenSafety

  // ---------------------------------------------------------------------------
  // Whose session a token opens
  // ---------------------------------------------------------------------------

  /** Session i holds this access token, was not revoked, has not expired, and belongs to an active user. */
  predicate OpenTo(s: Core, token: nat, i: nat) {
    && i < |s.book.sessions|
    && var x := s.book.sessions[i];
    && x.access == token && x.revokedAt == None && s.clock < x.expiresAt
    && x.user in s.users && s.users[x.user].status == Active
  }

  /** No two sessions hold one token, so the one found is the only one there is. */
  lemma AuthenticateExactlyWhen(s: Core, token: nat, i: nat)
    requires BookOk(s.book)
    ensures Authenticate(s, token) == Some(i) <==> OpenTo(s, token, i)
  {
    FindAccessFinds(s.book.sessions, token, s.clock);
    if OpenTo(s, token, i) {
      var found := FindAccess(s.book.sessions, token, s.clock);
      assert SessionOk(s.book, i) && SessionOk(s.book, found.value);
    }
  }

  /** The peer whose request opens the session. */
  function Opener(s: Core, step: Step): Peer {
    match step
    case LoginStep(peer, _, _, _, _) => peer
    case VerifyFinishStep(h) =>
      if h in s.handlers && s.handlers[h].Verifying? then s.handlers[h].peer else Unknown
    case CompleteFinishStep(h, _) =>
      if h in s.handlers && s.handlers[h].Gating? then s.handlers[h].peer else Unknown
    case _ => Unknown
  }

  lemma AddedFor(s: Core, step: Step) returns (user: nat, origin: Origin)
    requires |Apply(s, step).book.sessions| > |s.book.sessions|
    ensures Apply(s, step).book == Add(s.book, user, s.clock, SessionIp(Opener(s, step)), origin)
  {
    var op := OpOf(s, step);
    if step.LoginStep? {
      LoginAddsFor(s, step.peer, step.user, step.passwordOk, step.hold, step.code);
      user, origin := step.user, Direct;
    } else if step.VerifyFinishStep? {
      VerifyAddsFor(s, step.h);
      user, origin := s.handlers[step.h].seen.user, Otp(s.handlers[step.h].txn);
    } else {
      CompleteAddsFor(s, step.h, step.hold);
      user, origin := s.txns[s.handlers[step.h].txn].user, Trusted(s.handlers[step.h].txn);
    }
  }

  lemma LoginAddsFor(s: Core, peer: Peer, user: nat, passwordOk: bool, hold: bool, code: nat)
    ensures var after := Login(s, peer, user, passwordOk, hold, code).core;
            after.book == s.book || after.book == Add(s.book, user, s.clock, SessionIp(peer), Direct)
  {}

  lemma VerifyAddsFor(s: Core, h: nat)
    ensures var after := VerifyFinish(s, h).core;
            || after.book == s.book
            || (h in s.handlers && s.handlers[h].Verifying?
                && var me := s.handlers[h];
                after.book == Add(s.book, me.seen.user, s.clock, SessionIp(me.peer), Otp(me.txn)))
  {}

  lemma CompleteAddsFor(s: Core, h: nat, hold: bool)
    ensures var after := CompleteFinish(s, h, hold).core;
            || after.book == s.book
            || (h in s.handlers && s.handlers[h].Gating? && s.handlers[h].txn < |s.txns|
                && var me := s.handlers[h];
                after.book == Add(s.book, s.txns[me.txn].user, s.clock, SessionIp(me.peer), Trusted(me.txn)))
  {}

  /**
   A new session begins now, for the peer that asked, lasts an hour, and opens to its access
   token on the spot when its user is active.
   */
  lemma NewSessionOpens(s: Core, step: Step)
    requires BookOk(s.book) && |Apply(s, step).book.sessions| > |s.book.sessions|
    ensures var after, n := Apply(s, step), |s.book.sessions|;
            && |after.book.sessions| == n + 1 && after.book.sessions[..n] == s.book.sessions
            && var x := after.book.sessions[n];
            && x.createdAt == after.clock && x.expiresAt == after.clock + 60 * MINUTE && x.revokedAt == None
            && (if Opener(s, step) == Unknown then x.ip == None else x.ip == Some(Opener(s, step)))
            && (Authenticate(after, x.access) == Some(n) <==>
                  x.user in after.users && after.users[x.user].status == Active)
  {
    var op := OpOf(s, step);
    ClockAdvances(s, step);
    DoKeepsBook(s.book, op);
    var user, origin := AddedFor(s, step);
    var after, n := Apply(s, step), |s.book.sessions|;
    AuthenticateExactlyWhen(after, after.book.sessions[n].access, n);
  }

  // ---------------------------------------------------------------------------
  // Refresh
  // ---------------------------------------------------------------------------

  /** Session i holds this refresh token, was not revoked and has not expired. */
  predicate Renewable(s: Core, token: nat, i: nat) {
    && i < |s.book.sessions|
    && var x := s.book.sessions[i];
    x.refresh == token && x.revokedAt == None && s.clock < x.expiresAt
  }

  /**
   A refresh is accepted exactly for the token of a renewable session. It replaces both its
   tokens by ones never issued before and changes nothing else; any other is refused and
   changes nothing at all.
   */
  lemma RefreshExactlyWhen(s: Core, token: nat, i: nat)
    requires BookOk(s.book)
    ensures var r := Refresh(s, token);
            && (r.reply == Issued(i) <==> Renewable(s, token, i))
            && (r.reply.Issued? || r == Outcome(s, Refused(401)))
            && (r.reply == Issued(i) ==>
                  && i < |r.core.book.sessions|
                  && var x, y := s.book.sessions[i], r.core.book.sessions[i];
                  && r.core.book.sessions == s.book.sessions[i := x.(access := y.access, refresh := y.refresh)]
                  && y.access >= |s.book.issued| && y.refresh >= |s.book.issued| && y.access != y.refresh
                  && r.core.users == s.users)
  {
    FindRefreshFinds(s.book.sessions, token);
    var found := FindRefresh(s.book.sessions, token);
    if Renewable(s, token, i) {
      assert SessionOk(s.book, i) && SessionOk(s.book, found.value);
    }
  }

  /** The tokens a refresh hands out work: the access token opens the session, the refresh token renews it again. */
  lemma RefreshedTokensWork(s: Core, token: nat, i: nat)
    requires BookOk(s.book) && Refresh(s, token).reply == Issued(i)
    requires s.book.sessions[i].user in s.users && s.users[s.book.sessions[i].user].status == Active
    ensures var after := Refresh(s, token).core;
            && i < |after.book.sessions| && Authenticate(after, after.book.sessions[i].access) == Some(i)
            && Refresh(after, after.book.sessions[i].refresh).reply == Issued(i)
  {
    var after := Refresh(s, token).core;
    RefreshExactlyWhen(s, token, i);
    RotateKeepsBook(s.book, i);
    AuthenticateExactlyWhen(after, after.book.sessions[i].access, i);
    RefreshExactlyWhen(after, after.book.sessions[i].refresh, i);
  }

  // ---------------------------------------------------------------------------
  // Ending sessions
  // ---------------------------------------------------------------------------

  /** Session k is ended now; everything else in the table is as it was. */
  ghost predicate EndsOnly(s: Core, after: Core, k: nat) {
    && k < |s.book.sessions|
    && after.book.sessions == s.book.sessions[k := s.book.sessions[k].(revokedAt := Some(s.clock))]
    && after.users == s.users && after.txns == s.txns
  }

  /** Logging out ends exactly the session the token opens. */
  lemma LogoutExactlyWhen(s: Core, token: nat)
    ensures var r, i := Logout(s, token), Authenticate(s, token);
            && (i.Some? ==> r.reply == Done && EndsOnly(s, r.core, i.value))
            && (i == None ==> r == Outcome(s, Refused(401)))
  {
    FindAccessFinds(s.book.sessions, token, s.clock);
  }

  /** Logging out everywhere ends exactly the live sessions of the token's user, under an audit row of its own. */
  lemma LogoutAllExactlyWhen(s: Core, token: nat)
    ensures var r, i := LogoutAll(s, token), Authenticate(s, token);
            && (i == None ==> r == Outcome(s, Refused(401)))
            && (i.Some? ==>
                  && i.value < |s.book.sessions| && r.reply == Done && r.core.users == s.users
                  && |r.core.book.sessions| == |s.book.sessions|
                  && forall k :: 0 <= k < |s.book.sessions| ==>
                       var x, y := s.book.sessions[k], r.core.book.sessions[k];
                       y == if x.user == s.book.sessions[i.value].user && x.revokedAt == None
                            then x.(revokedAt := Some(s.clock), revokedBy := Some(|s.audit|)) else x)
  {
    FindAccessFinds(s.book.sessions, token, s.clock);
  }

  /**
   One of the caller's own sessions can be ended, and no other: 404 when there is none,
   403 when it is someone else's.
   */
  lemma RevokeExactlyWhen(s: Core, token: nat, target: nat)
    ensures var r, i := RevokeSession(s, token, target), Authenticate(s, token);
            if i == None then r == Outcome(s, Refused(401))
            else
              && i.value < |s.book.sessions|
              && if target >= |s.book.sessions| then r == Outcome(s, Refused(404))
                 else if s.book.sessions[target].user != s.book.sessions[i.value].user
                      then r == Outcome(s, Refused(403))
                 else r.reply == Done && EndsOnly(s, r.core, target)
  {
    FindAccessFinds(s.book.sessions, token, s.clock);
  }

  predicate BearerStep(step: Step) {
    step.LogoutStep? || step.LogoutAllStep? || step.RevokeSessionStep?
  }

  /** Whatever a holder does with an access token, the sessions of other users stay as they are. */
  lemma OthersSessionsAreSafe(s: Core, step: Step, k: nat)
    requires BearerStep(step) && k < |s.book.sessions|
    ensures k < |Apply(s, step).book.sessions|
    ensures Apply(s, step).book.sessions[k] != s.book.sessions[k] ==>
              && Authenticate(s, step.token).Some? && Authenticate(s, step.token).value < |s.book.sessions|
              && s.book.sessions[k].user == s.book.sessions[Authenticate(s, step.token).value].user
  {
    match step {
      case LogoutStep(token) => LogoutExactlyWhen(s, token);
      case LogoutAllStep(token) => LogoutAllExactlyWhen(s, token);
      case RevokeSessionStep(token, target) => RevokeExactlyWhen(s, token, target);
    }
  }

  /** And an ended session's token no longer opens it, now or in any continuation. */
  lemma EndedStaysEnded(s: Core, after: Core, k: nat, steps: seq<Step>)
    requires BookOk(s.book) && EndsOnly(s, after, k) && BookOk(after.book)
    ensures Authenticate(Run(after, steps), s.book.sessions[k].access) == None
  {
    assert SessionOk(after.book, k);
    assert after.book.sessions[k].access == s.book.sessions[k].access;
    DeadTokensStayDead(after, steps, s.book.sessions[k].access);
  }
}
