/**
 The audit trail against the tables. A note names what happened and the row it happened
 to; over every run the notes tell exactly what the sessions and the device requests hold.
 */
module AuditTrail {
  import opened Basics
  import opened Network
  import opened Sessions
  import opened Core
  import opened TokenSafety
  import opened Challenges
  import opened Provenance

  function Times(audit: seq<AuditRow>, what: Happening, n: nat): nat {
    multiset(audit)[Note(what, n)]
  }

  /**
   What is told of a session: that it was opened, once; each exchange of its tokens, with
   the two new ones; and, unless an audit row of its own reports the bulk revocation, that
   it was ended.
   */
  ghost predicate SessionTold(audit: seq<AuditRow>, book: Book, n: nat) {
    && Times(audit, LoginSuccess, n) == (if n < |book.sessions| then 1 else 0)
    && multiset(book.issued)[n] == 2 * Times(audit, LoginSuccess, n) + 2 * Times(audit, SessionRefreshed, n)
    && (n < |book.sessions| && book.sessions[n].revokedAt.Some? <==>
        || (n < |book.sessions| && book.sessions[n].revokedBy.Some?)
        || Times(audit, LoggedOut, n) + Times(audit, SessionRevoked, n) > 0)
  }

  /** What is told of a device request: that it was filed, approved, and used for a login. */
  ghost predicate RequestTold(audit: seq<AuditRow>, txns: seq<Txn>, n: nat) {
    && Times(audit, DeviceRequested, n) == (if n < |txns| && txns[n].kind == TrustedDevice then 1 else 0)
    && (Times(audit, DeviceApproved, n) > 0 <==> n < |txns| && txns[n].approval.Some?)
    && Times(audit, DeviceLogin, n) == (if n < |txns| && txns[n].consumedAt.Some? then 1 else 0)
  }

  ghost predicate SessionsTold(audit: seq<AuditRow>, book: Book) {
    forall n: nat :: SessionTold(audit, book, n)
  }

  ghost predicate RequestsTold(audit: seq<AuditRow>, txns: seq<Txn>) {
    forall n: nat :: RequestTold(audit, txns, n)
  }

  ghost predicate Told(s: Core) {
    SessionsTold(s.audit, s.book) && RequestsTold(s.audit, s.txns)
  }

  /** What is told of an account: its registration, once, unless it was there from the start. */
  predicate AccountTold(audit: seq<AuditRow>, users: set<nat>, first: set<nat>, u: nat) {
    Times(audit, Registered, u) == if u in users && u !in first then 1 else 0
  }

  // ---------------------------------------------------------------------------
  // Appending rows
  // ---------------------------------------------------------------------------

  predicate OfSessions(row: AuditRow) {
    row.Note? && row.what in {LoginSuccess, SessionRefreshed, LoggedOut, SessionRevoked}
  }

  predicate OfRequests(row: AuditRow) {
    row.Note? && row.what in {DeviceRequested, DeviceApproved, DeviceLogin}
  }

  lemma OneMoreRow(audit: seq<AuditRow>, row: AuditRow, what: Happening, n: nat)
    ensures Times(audit + [row], what, n) == Times(audit, what, n) + if row == Note(what, n) then 1 else 0
  {}

  lemma OtherRow(audit: seq<AuditRow>, row: AuditRow, book: Book)
    requires SessionsTold(audit, book) && !OfSessions(row)
    ensures SessionsTold(audit + [row], book)
  {
    forall n: nat ensures SessionTold(audit + [row], book, n) {
      assert SessionTold(audit, book, n);
    }
  }

  /** Rows may be added that are no device requests, and columns changed of which nothing is told. */
  ghost predicate SameFacts(txns: seq<Txn>, after: seq<Txn>) {
    && |txns| <= |after|
    && (forall t :: 0 <= t < |txns| ==>
          && after[t].kind == txns[t].kind && after[t].approval.Some? == txns[t].approval.Some?
          && after[t].consumedAt.Some? == txns[t].consumedAt.Some?)
    && (forall t :: |txns| <= t < |after| ==> after[t].kind != TrustedDevice && Untouched(after[t]))
  }

  predicate Untouched(x: Txn) {
    x.approval == None && x.consumedAt == None
  }

  lemma FactsKept(audit: seq<AuditRow>, txns: seq<Txn>, after: seq<Txn>)
    requires RequestsTold(audit, txns) && SameFacts(txns, after)
    ensures RequestsTold(audit, after)
  {
    forall n: nat ensures RequestTold(audit, after, n) {
      assert RequestTold(audit, txns, n);
    }
  }

  lemma UnrelatedRow(audit: seq<AuditRow>, row: AuditRow, txns: seq<Txn>)
    requires RequestsTold(audit, txns) && !OfRequests(row)
    ensures RequestsTold(audit + [row], txns)
  {
    forall n: nat ensures RequestTold(audit + [row], txns, n) {
      assert RequestTold(audit, txns, n);
    }
  }

  // ---------------------------------------------------------------------------
  // The sessions table
  // ---------------------------------------------------------------------------

  lemma AddTold(audit: seq<AuditRow>, book: Book, user: nat, now: Time, ip: Option<Peer>, origin: Origin)
    requires SessionsTold(audit, book)
    ensures SessionsTold(audit + [Note(LoginSuccess, |book.sessions|)], Add(book, user, now, ip, origin))
  {
    var id := |book.sessions|;
    var later, after := audit + [Note(LoginSuccess, id)], Add(book, user, now, ip, origin);
    forall n: nat ensures SessionTold(later, after, n) {
      assert SessionTold(audit, book, n);
      OneMoreRow(audit, Note(LoginSuccess, id), LoginSuccess, n);
    }
  }

  lemma RotateTold(audit: seq<AuditRow>, book: Book, i: nat)
    requires SessionsTold(audit, book) && i < |book.sessions|
    ensures SessionsTold(audit + [Note(SessionRefreshed, i)], Rotate(book, i))
  {
    var later, after := audit + [Note(SessionRefreshed, i)], Rotate(book, i);
    forall n: nat ensures SessionTold(later, after, n) {
      assert SessionTold(audit, book, n);
      OneMoreRow(audit, Note(SessionRefreshed, i), SessionRefreshed, n);
    }
  }

  lemma EndTold(audit: seq<AuditRow>, book: Book, i: nat, now: Time, what: Happening)
    requires SessionsTold(audit, book) && i < |book.sessions| && (what == LoggedOut || what == SessionRevoked)
    ensures SessionsTold(audit + [Note(what, i)], End(book, i, now))
  {
    forall n: nat ensures SessionTold(audit + [Note(what, i)], End(book, i, now), n) {
      assert SessionTold(audit, book, n);
    }
  }

  lemma EndAllTold(audit: seq<AuditRow>, book: Book, user: nat, now: Time, row: AuditRow)
    requires SessionsTold(audit, book) && !row.Note?
    ensures SessionsTold(audit + [row], EndAll(book, user, now, |audit|))
  {
    OtherRow(audit, row, book);
    forall n: nat ensures SessionTold(audit + [row], EndAll(book, user, now, |audit|), n) {
      assert SessionTold(audit + [row], book, n);
    }
  }

  // ---------------------------------------------------------------------------
  // The device requests
  // ---------------------------------------------------------------------------

  lemma FilingTold(audit: seq<AuditRow>, txns: seq<Txn>, row: Txn)
    requires RequestsTold(audit, txns) && row.kind == TrustedDevice && Untouched(row)
    ensures RequestsTold(audit + [Note(DeviceRequested, |txns|)], txns + [row])
  {
    forall n: nat ensures RequestTold(audit + [Note(DeviceRequested, |txns|)], txns + [row], n) {
      assert RequestTold(audit, txns, n);
    }
  }

  lemma ApprovalTold(audit: seq<AuditRow>, txns: seq<Txn>, t: nat, now: Time, session: nat)
    requires RequestsTold(audit, txns) && t < |txns|
    ensures RequestsTold(audit + [Note(DeviceApproved, t)], txns[t := Approved(txns[t], now, session)])
  {
    var later, after := audit + [Note(DeviceApproved, t)], txns[t := Approved(txns[t], now, session)];
    forall n: nat ensures RequestTold(later, after, n) {
      assert RequestTold(audit, txns, n);
    }
  }

  lemma UseTold(audit: seq<AuditRow>, txns: seq<Txn>, t: nat, at: Time, session: nat)
    requires RequestsTold(audit, txns) && t < |txns| && txns[t].consumedAt == None
    ensures RequestsTold(audit + [Note(DeviceLogin, t)], txns[t := Consumed(txns[t], at, session)])
  {
    var later, after := audit + [Note(DeviceLogin, t)], txns[t := Consumed(txns[t], at, session)];
    forall n: nat ensures RequestTold(later, after, n) {
      assert RequestTold(audit, txns, n);
    }
  }

  // ---------------------------------------------------------------------------
  // What each step notes
  // ---------------------------------------------------------------------------

  /** A direct login notes its session, and is the only note of a login. */
  lemma LoginNotes(s: Core, peer: Peer, user: nat, passwordOk: bool, hold: bool, code: nat)
    ensures var r := Login(s, peer, user, passwordOk, hold, code);
            if r.reply.Issued? then
              && r.core.audit == s.audit + [Note(LoginSuccess, |s.book.sessions|)]
              && r.core.book == Add(s.book, user, s.clock, SessionIp(peer), Direct)
            else r.core.audit == s.audit && r.core.book == s.book
  {}

  lemma VerifyNotes(s: Core, h: nat)
    ensures var r := VerifyFinish(s, h);
            if r.reply.Issued? then
              && h in s.handlers && s.handlers[h].Verifying?
              && r.core.audit == s.audit + [Note(LoginSuccess, |s.book.sessions|)]
              && var me := s.handlers[h];
              r.core.book == Add(s.book, me.seen.user, s.clock, SessionIp(me.peer), Otp(me.txn))
            else r.core.audit == s.audit && r.core.book == s.book
  {}

  /** A completed device login is noted twice: as a session and as the use of its request. */
  lemma CompletionNotes(s: Core, h: nat, hold: bool)
    ensures var r := CompleteFinish(s, h, hold);
            if r.reply.Issued? then
              && h in s.handlers && s.handlers[h].Gating? && s.handlers[h].txn < |s.txns|
              && var t := s.handlers[h].txn;
              && r.core.audit == s.audit + [Note(LoginSuccess, |s.book.sessions|)] + [Note(DeviceLogin, t)]
              && r.core.book ==
                 Add(s.book, s.txns[t].user, s.clock, SessionIp(s.handlers[h].peer), Trusted(t))
            else r.core.audit == s.audit && r.core.book == s.book
  {}

  lemma RefreshNotes(s: Core, token: nat)
    ensures var r := Refresh(s, token);
            if r.reply.Issued? then
              && r.reply.session < |s.book.sessions|
              && r.core == s.(book := Rotate(s.book, r.reply.session),
                              audit := s.audit + [Note(SessionRefreshed, r.reply.session)])
            else r.core == s
  {}

  lemma LogoutNotes(s: Core, token: nat)
    ensures var r, i := Logout(s, token), Authenticate(s, token);
            if r.reply.Done? then
              && i.Some? && i.value < |s.book.sessions|
              && r.core == s.(book := End(s.book, i.value, s.clock), audit := s.audit + [Note(LoggedOut, i.value)])
            else r.core == s
  {}

  lemma RevocationNotes(s: Core, token: nat, target: nat)
    ensures var r := RevokeSession(s, token, target);
            if r.reply.Done? then
              && target < |s.book.sessions|
              && r.core == s.(book := End(s.book, target, s.clock), audit := s.audit + [Note(SessionRevoked, target)])
            else r.core == s
  {}

  /** A request is filed, with its note, or nothing is. */
  ghost predicate FiledOrNot(s: Core, after: Core) {
    if |after.txns| == |s.txns| + 1 then
      && after.audit == s.audit + [Note(DeviceRequested, |s.txns|)]
      && SameFacts(s.txns, after.txns[..|s.txns|])
      && after.txns[|s.txns|].kind == TrustedDevice && Untouched(after.txns[|s.txns|])
    else after.audit == s.audit && after.txns == s.txns
  }

  lemma FilingNotes(s: Core, peer: Peer, user: nat, fingerprint: nat)
    ensures FiledOrNot(s, FileApproval(s, peer, user, fingerprint).core)
  {}

  /** A new request is noted under its own row; a refused or reused one is not. */
  lemma RequestNotes(s: Core, peer: Peer, user: nat, passwordOk: bool, hold: bool, fingerprint: nat)
    ensures FiledOrNot(s, RequestApproval(s, peer, user, passwordOk, hold, fingerprint).core)
  {
    FilingNotes(Counted(s, peer, ApprovalCounter), peer, user, fingerprint);
  }

  /** An approval is noted as often as it is given; whatever is refused is not. */
  lemma ApproveNotes(s: Core, token: nat, t: nat, peer: Peer)
    ensures var r := Approve(s, token, t, peer);
            r.core.audit == if r.reply.Done? then s.audit + [Note(DeviceApproved, t)] else s.audit
    ensures Approve(s, token, t, peer).core.book == s.book
  {}

  lemma ApproveFacts(s: Core, token: nat, t: nat, peer: Peer)
    requires Approve(s, token, t, peer).reply.Done?
    ensures var after, i := Approve(s, token, t, peer).core, Authenticate(s, token);
            i.Some? && t < |s.txns| && after.txns == s.txns[t := Approved(s.txns[t], s.clock, i.value)]
  {}

  lemma RefusedApprovalFacts(s: Core, token: nat, t: nat, peer: Peer)
    requires !Approve(s, token, t, peer).reply.Done?
    ensures SameFacts(s.txns, Approve(s, token, t, peer).core.txns)
  {}

  // ---------------------------------------------------------------------------
  // Every step
  // ---------------------------------------------------------------------------

  lemma LoginTold(s: Core, peer: Peer, user: nat, passwordOk: bool, hold: bool, code: nat)
    requires Told(s)
    ensures Told(Login(s, peer, user, passwordOk, hold, code).core)
  {
    var r := Login(s, peer, user, passwordOk, hold, code);
    LoginNotes(s, peer, user, passwordOk, hold, code);
    LoginDesk(s, peer, user, passwordOk, hold, code);
    FactsKept(s.audit, s.txns, r.core.txns);
    if r.reply.Issued? {
      AddTold(s.audit, s.book, user, s.clock, SessionIp(peer), Direct);
      UnrelatedRow(s.audit, Note(LoginSuccess, |s.book.sessions|), r.core.txns);
    }
  }

  lemma VerifyTold(s: Core, h: nat)
    requires Inv(s) && Told(s)
    ensures Told(VerifyFinish(s, h).core)
  {
    var r := VerifyFinish(s, h);
    VerifyNotes(s, h);
    VerifyFacts(s, h);
    FactsKept(s.audit, s.txns, r.core.txns);
    if r.reply.Issued? {
      var me := s.handlers[h];
      AddTold(s.audit, s.book, me.seen.user, s.clock, SessionIp(me.peer), Otp(me.txn));
      UnrelatedRow(s.audit, Note(LoginSuccess, |s.book.sessions|), r.core.txns);
    }
  }

  lemma VerifyFacts(s: Core, h: nat)
    requires Inv(s)
    ensures SameFacts(s.txns, VerifyFinish(s, h).core.txns)
  {
    if h in s.handlers && s.handlers[h].Verifying? {
      var me := s.handlers[h];
      assert HandlerOk(s, h, me);
      assert TxnOk(s, me.seen);
      if Judge(me.seen, me.peer, me.code, me.at).Accept? {
        VerifyAccepts(s, h);
      } else {
        VerifyRejects(s, h);
      }
    }
  }

  lemma CompletionTold(s: Core, h: nat, hold: bool)
    requires Inv(s) && Told(s)
    ensures Told(CompleteFinish(s, h, hold).core)
  {
    var r := CompleteFinish(s, h, hold);
    CompletionNotes(s, h, hold);
    if r.reply.Issued? {
      var t, noted := s.handlers[h].txn, s.audit + [Note(LoginSuccess, |s.book.sessions|)];
      assert HandlerOk(s, h, s.handlers[h]);
      assert TxnOk(s, s.txns[t]);
      CompleteShape(s, h, hold);
      AddTold(s.audit, s.book, s.txns[t].user, s.clock, SessionIp(s.handlers[h].peer), Trusted(t));
      OtherRow(noted, Note(DeviceLogin, t), r.core.book);
      UnrelatedRow(s.audit, Note(LoginSuccess, |s.book.sessions|), s.txns);
      UseTold(noted, s.txns, t, s.handlers[h].at, |s.book.sessions|);
    } else {
      RefusalFacts(s, h, hold);
      FactsKept(s.audit, s.txns, r.core.txns);
    }
  }

  lemma RefusalFacts(s: Core, h: nat, hold: bool)
    requires !CompleteFinish(s, h, hold).reply.Issued?
    ensures SameFacts(s.txns, CompleteFinish(s, h, hold).core.txns)
  {}

  lemma BearerTold(s: Core, step: Step)
    requires Told(s) && (step.RefreshStep? || step.LogoutStep? || step.RevokeSessionStep?)
    ensures Told(Apply(s, step))
  {
    var reply := Take(s, step).reply;
    match step {
      case RefreshStep(token) =>
        RefreshNotes(s, token);
        if reply.Issued? {
          RotateTold(s.audit, s.book, reply.session);
          UnrelatedRow(s.audit, Note(SessionRefreshed, reply.session), s.txns);
        }
      case LogoutStep(token) =>
        LogoutNotes(s, token);
        if reply.Done? {
          EndTold(s.audit, s.book, Authenticate(s, token).value, s.clock, LoggedOut);
          UnrelatedRow(s.audit, Note(LoggedOut, Authenticate(s, token).value), s.txns);
        }
      case RevokeSessionStep(token, target) =>
        RevocationNotes(s, token, target);
        if reply.Done? {
          EndTold(s.audit, s.book, target, s.clock, SessionRevoked);
          UnrelatedRow(s.audit, Note(SessionRevoked, target), s.txns);
        }
    }
  }

  /** A bulk revocation, and the row that reports it. */
  ghost predicate Ends(s: Core, after: Core) {
    && |after.audit| == |s.audit| + 1 && after.audit[..|s.audit|] == s.audit && !after.audit[|s.audit|].Note?
    && exists user :: after.book == EndAll(s.book, user, s.clock, |s.audit|)
  }

  lemma BulkEnds(s: Core, step: Step)
    requires Revoking(step)
    ensures var after := Apply(s, step);
            after.txns == s.txns && ((after.audit == s.audit && after.book == s.book) || Ends(s, after))
  {
    ElsewhereFrame(s, step);
    BulkRow(s, step);
    BulkBook(s, step);
  }

  lemma BulkBook(s: Core, step: Step)
    requires Revoking(step)
    requires Apply(s, step).audit == s.audit || !OnlyNotes(s.audit, Apply(s, step).audit)
    ensures var after := Apply(s, step);
            || (after.audit == s.audit && after.book == s.book)
            || (&& |after.audit| == |s.audit| + 1 && after.audit[..|s.audit|] == s.audit
                && exists user :: after.book == EndAll(s.book, user, s.clock, |s.audit|))
  {
    var op := OpOf(s, step);
    OthersAddNothing(s, step);
  }

  lemma BulkRow(s: Core, step: Step)
    requires Revoking(step)
    ensures var after := Apply(s, step);
            after.audit == s.audit || (|after.audit| > |s.audit| && !after.audit[|s.audit|].Note?)
  {}

  lemma BulkTold(s: Core, step: Step)
    requires Told(s) && Revoking(step)
    ensures Told(Apply(s, step))
  {
    var after := Apply(s, step);
    BulkEnds(s, step);
    if Ends(s, after) {
      var user :| after.book == EndAll(s.book, user, s.clock, |s.audit|);
      var row := after.audit[|s.audit|];
      assert after.audit == s.audit + [row];
      EndAllTold(s.audit, s.book, user, s.clock, row);
      UnrelatedRow(s.audit, row, s.txns);
    }
  }

  lemma RequestStepTold(s: Core, peer: Peer, user: nat, passwordOk: bool, hold: bool, fingerprint: nat)
    requires Told(s)
    ensures Told(RequestApproval(s, peer, user, passwordOk, hold, fingerprint).core)
  {
    var after := RequestApproval(s, peer, user, passwordOk, hold, fingerprint).core;
    RequestNotes(s, peer, user, passwordOk, hold, fingerprint);
    if |after.txns| == |s.txns| + 1 {
      var earlier, row := after.txns[..|s.txns|], after.txns[|s.txns|];
      FactsKept(s.audit, s.txns, earlier);
      FilingTold(s.audit, earlier, row);
      assert after.txns == earlier + [row];
      OtherRow(s.audit, Note(DeviceRequested, |s.txns|), s.book);
    }
  }

  lemma ApproveStepTold(s: Core, token: nat, t: nat, peer: Peer)
    requires Told(s)
    ensures Told(Approve(s, token, t, peer).core)
  {
    var r := Approve(s, token, t, peer);
    ApproveNotes(s, token, t, peer);
    if r.reply.Done? {
      ApproveFacts(s, token, t, peer);
      ApprovalTold(s.audit, s.txns, t, s.clock, Authenticate(s, token).value);
      OtherRow(s.audit, Note(DeviceApproved, t), s.book);
    } else {
      RefusedApprovalFacts(s, token, t, peer);
      FactsKept(s.audit, s.txns, r.core.txns);
    }
  }

  lemma UnlockTold(s: Core, user: nat)
    requires Told(s)
    ensures Told(UnlockAccount(s, user).core)
  {
    if user in s.users {
      OtherRow(s.audit, Note(AccountUnlocked, user), s.book);
      UnrelatedRow(s.audit, Note(AccountUnlocked, user), s.txns);
    }
  }

  lemma RegisterTold(s: Core, user: nat)
    requires Told(s)
    ensures Told(Register(s, user).core)
  {
    if user !in s.users {
      OtherRow(s.audit, Note(Registered, user), s.book);
      UnrelatedRow(s.audit, Note(Registered, user), s.txns);
    }
  }

  lemma CompleteLockTold(s: Core, h: nat)
    requires Told(s)
    ensures Told(CompleteLock(s, h).core)
  {
    CompleteLockNotes(s, h);
    FactsKept(s.audit, s.txns, CompleteLock(s, h).core.txns);
  }

  lemma CompleteLockNotes(s: Core, h: nat)
    ensures CompleteLock(s, h).core.audit == s.audit && SameFacts(s.txns, CompleteLock(s, h).core.txns)
  {}

  /** The remaining steps note nothing. */
  predicate Unnoted(step: Step) {
    || step.Tick? || step.EditDevices? || step.VerifyArriveStep? || step.VerifyLockStep?
    || step.CompleteArriveStep? || step.CrashStep?
  }

  lemma SilentNotes(s: Core, step: Step)
    requires Unnoted(step)
    ensures var after := Apply(s, step); after.book == s.book && after.txns == s.txns && after.audit == s.audit
  {}

  lemma StepKeepsTold(s: Core, step: Step)
    requires Inv(s) && Told(s)
    ensures Told(Apply(s, step))
  {
    if step.RefreshStep? || step.LogoutStep? || step.RevokeSessionStep? {
      BearerTold(s, step);
    } else if Revoking(step) {
      BulkTold(s, step);
    } else if Unnoted(step) {
      SilentNotes(s, step);
    } else {
      FlowTold(s, step);
    }
  }

  lemma FlowTold(s: Core, step: Step)
    requires Inv(s) && Told(s)
    requires !step.RefreshStep? && !step.LogoutStep? && !step.RevokeSessionStep? && !Revoking(step) && !Unnoted(step)
    ensures Told(Apply(s, step))
  {
    match step {
      case LoginStep(peer, user, passwordOk, hold, code) => LoginTold(s, peer, user, passwordOk, hold, code);
      case VerifyFinishStep(h) => VerifyTold(s, h);
      case CompleteFinishStep(h, hold) => CompletionTold(s, h, hold);
      case RequestStep(peer, user, passwordOk, hold, fingerprint) =>
        RequestStepTold(s, peer, user, passwordOk, hold, fingerprint);
      case ApproveStep(token, t, peer) => ApproveStepTold(s, token, t, peer);
      case CompleteLockStep(h) => CompleteLockTold(s, h);
      case UnlockStep(user) => UnlockTold(s, user);
      case RegisterStep(user) => RegisterTold(s, user);
    }
  }

  lemma {:induction false} RunKeepsTold(s: Core, steps: seq<Step>)
    requires Inv(s) && Told(s)
    ensures Told(Run(s, steps))
  {
    if steps != [] {
      var before := steps[..|steps| - 1];
      RunKeepsTold(s, before);
      RunKeepsInv(s, before);
      StepKeepsTold(Run(s, before), steps[|steps| - 1]);
    }
  }

  // ---------------------------------------------------------------------------
  // Registrations
  // ---------------------------------------------------------------------------

  /** Nothing but a registration adds an account, and nothing removes one. */
  ghost predicate SameAccounts(s: Core, after: Core) {
    after.users.Keys == s.users.Keys
  }

  lemma LoginKeepsAccounts(s: Core, step: Step)
    requires step.LoginStep?
    ensures SameAccounts(s, Apply(s, step))
  {}

  lemma VerifyKeepsAccounts(s: Core, step: Step)
    requires step.VerifyFinishStep?
    ensures SameAccounts(s, Apply(s, step))
  {}

  lemma CompletionKeepsAccounts(s: Core, step: Step)
    requires step.CompleteFinishStep?
    ensures SameAccounts(s, Apply(s, step))
  {}

  lemma ActionKeepsAccounts(s: Core, step: Step)
    requires step.ActionStep?
    ensures SameAccounts(s, Apply(s, step))
  {}

  lemma RoleKeepsAccounts(s: Core, step: Step)
    requires step.AssignRoleStep? || step.RevokeRoleStep?
    ensures SameAccounts(s, Apply(s, step))
  {}

  lemma AdminKeepsAccounts(s: Core, step: Step)
    requires step.LockStep? || step.UnlockStep? || step.ToggleMfaStep?
    ensures SameAccounts(s, Apply(s, step))
  {}

  lemma StepKeepsAccounts(s: Core, step: Step)
    requires !step.RegisterStep?
    ensures SameAccounts(s, Apply(s, step))
  {
    if step.LoginStep? {
      LoginKeepsAccounts(s, step);
    } else if step.VerifyFinishStep? {
      VerifyKeepsAccounts(s, step);
    } else if step.CompleteFinishStep? {
      CompletionKeepsAccounts(s, step);
    } else if step.ActionStep? {
      ActionKeepsAccounts(s, step);
    } else if step.AssignRoleStep? || step.RevokeRoleStep? {
      RoleKeepsAccounts(s, step);
    } else if step.LockStep? || step.UnlockStep? || step.ToggleMfaStep? {
      AdminKeepsAccounts(s, step);
    }
  }

  /** The rows added by this step are no registration of u. */
  ghost predicate NoRegistration(s: Core, after: Core, u: nat) {
    Times(after.audit, Registered, u) == Times(s.audit, Registered, u)
  }

  /** No other step writes a registration. */
  lemma OnlyRegisterNotes(s: Core, step: Step, u: nat)
    requires !step.RegisterStep?
    ensures NoRegistration(s, Apply(s, step), u)
  {
    if step.LoginStep? || step.VerifyFinishStep? || step.CompleteFinishStep? {
      LoginRegisterNotes(s, step, u);
    } else if Revoking(step) {
      BulkRegisterNotes(s, step, u);
    } else {
      QuietRegisterNotes(s, step, u);
    }
  }

  lemma LoginRegisterNotes(s: Core, step: Step, u: nat)
    requires step.LoginStep? || step.VerifyFinishStep? || step.CompleteFinishStep?
    ensures NoRegistration(s, Apply(s, step), u)
  {
    match step {
      case LoginStep(peer, user, passwordOk, hold, code) => LoginNotes(s, peer, user, passwordOk, hold, code);
      case VerifyFinishStep(h) => VerifyNotes(s, h);
      case CompleteFinishStep(h, hold) => CompletionNotes(s, h, hold);
    }
  }

  lemma BulkRegisterNotes(s: Core, step: Step, u: nat)
    requires Revoking(step)
    ensures NoRegistration(s, Apply(s, step), u)
  {
    BulkEnds(s, step);
    EndsWithoutRegistration(s, Apply(s, step), u);
  }

  lemma EndsWithoutRegistration(s: Core, after: Core, u: nat)
    requires after.audit == s.audit || Ends(s, after)
    ensures NoRegistration(s, after, u)
  {
    if after.audit != s.audit {
      assert after.audit == s.audit + [after.audit[|s.audit|]];
    }
  }

  lemma QuietRegisterNotes(s: Core, step: Step, u: nat)
    requires !step.RegisterStep? && !step.LoginStep? && !step.VerifyFinishStep? && !step.CompleteFinishStep?
    requires !Revoking(step)
    ensures NoRegistration(s, Apply(s, step), u)
  {
    if step.RequestStep? || step.ApproveStep? || step.CompleteLockStep? {
      DeviceRegisterNotes(s, step, u);
    } else if step.RefreshStep? || step.LogoutStep? || step.RevokeSessionStep? {
      BearerRegisterNotes(s, step, u);
    } else if Unnoted(step) {
      SilentNotes(s, step);
    }
  }

  lemma DeviceRegisterNotes(s: Core, step: Step, u: nat)
    requires step.RequestStep? || step.ApproveStep? || step.CompleteLockStep?
    ensures NoRegistration(s, Apply(s, step), u)
  {
    match step {
      case RequestStep(peer, user, passwordOk, hold, fingerprint) =>
        RequestNotes(s, peer, user, passwordOk, hold, fingerprint);
      case ApproveStep(token, t, peer) => ApproveNotes(s, token, t, peer);
      case CompleteLockStep(h) => CompleteLockNotes(s, h);
    }
  }

  lemma BearerRegisterNotes(s: Core, step: Step, u: nat)
    requires step.RefreshStep? || step.LogoutStep? || step.RevokeSessionStep?
    ensures NoRegistration(s, Apply(s, step), u)
  {
    match step {
      case RefreshStep(token) => RefreshNotes(s, token);
      case LogoutStep(token) => LogoutNotes(s, token);
      case RevokeSessionStep(token, target) => RevocationNotes(s, token, target);
    }
  }

  lemma {:induction false} AccountsTold(s: Core, steps: seq<Step>, first: set<nat>, u: nat)
    requires AccountTold(s.audit, s.users.Keys, first, u) && first <= s.users.Keys
    ensures AccountTold(Run(s, steps).audit, Run(s, steps).users.Keys, first, u) && first <= Run(s, steps).users.Keys
  {
    if steps != [] {
      var before, step := Run(s, steps[..|steps| - 1]), steps[|steps| - 1];
      AccountsTold(s, steps[..|steps| - 1], first, u);
      if !step.RegisterStep? {
        StepKeepsAccounts(before, step);
        OnlyRegisterNotes(before, step, u);
      } else {
        RegisterKeepsAccountTold(before, step.user, first, u);
      }
    }
  }

  lemma RegisterKeepsAccountTold(s: Core, user: nat, first: set<nat>, u: nat)
    requires AccountTold(s.audit, s.users.Keys, first, u)
    requires user !in s.users ==> user !in first
    ensures AccountTold(Register(s, user).core.audit, Register(s, user).core.users.Keys, first, u)
  {
    OneMoreRow(s.audit, Note(Registered, user), Registered, u);
  }

  /** Over every run from an empty service the trail tells what the tables hold. */
  lemma TrailTellsTables(clock: Time, users: map<nat, User>, steps: seq<Step>, n: nat)
    ensures var s := Run(Start(clock, users), steps);
            && SessionTold(s.audit, s.book, n) && RequestTold(s.audit, s.txns, n)
            && AccountTold(s.audit, s.users.Keys, users.Keys, n)
  {
    StartOk(clock, users);
    RunKeepsTold(Start(clock, users), steps);
    AccountsTold(Start(clock, users), steps, users.Keys, n);
  }
}
