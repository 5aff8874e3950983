/**
 The rows of mfa_transactions over every run: OTP challenges and trusted-device
 requests, under any interleaving of the locking handlers.
 */
module Challenges {
  import opened Basics
  import opened Network
  import opened Sessions
  import opened Core
  import opened TokenSafety

  // ---------------------------------------------------------------------------
  // One row
  // ---------------------------------------------------------------------------

  function Rank(status: TxnStatus): nat {
    match status
    case Pending => 0
    case Completed => 1
    case Failed => 2
    case Expired => 3
  }

  /** What may happen to a row between two moments of a run. */
  ghost predicate RowMoves(x: Txn, y: Txn) {
    && y.user == x.user && y.kind == x.kind && y.boundIp == x.boundIp && y.fingerprint == x.fingerprint
    && y.createdAt == x.createdAt && y.expiresAt == x.expiresAt && y.code == x.code
    && Rank(x.status) <= Rank(y.status)
    && (x.kind != TrustedDevice && x.status != Pending ==> y == x)
    && x.failCount <= y.failCount
    && (x.consumedAt.Some? ==> y.consumedAt == x.consumedAt)
    && (x.approval.Some? ==> y.approval == x.approval)
    && (x.session.Some? ==> y.session == x.session)
  }

  /** An OTP challenge: three wrong codes fail it, and it is completed exactly when its code was used. */
  ghost predicate OtpOk(x: Txn) {
    && x.failCount <= MAX_FAILURES
    && (x.status == Failed <==> x.failCount == MAX_FAILURES)
    && (x.status == Completed <==> x.verifiedAt.Some?)
    && (x.verifiedAt.Some? ==> x.verifiedAt.value < x.expiresAt)
    && (x.session.Some? <==> x.status == Completed)
    && x.approval == None && x.consumedAt == None
  }

  /** A trusted-device request: approved before it is consumed, both while it is valid. */
  ghost predicate DeviceOk(x: Txn) {
    && x.failCount == 0 && x.verifiedAt == None
    && x.boundIp.Some? && x.boundIp.value != Unknown
    && (x.status == Pending ==> x.approval == None)
    && (x.status == Completed ==> x.approval.Some?)
    && (x.approval.Some? ==> x.createdAt <= x.approval.value.at < x.expiresAt)
    && (x.consumedAt.Some? ==> x.approval.Some? && x.approval.value.at <= x.consumedAt.value < x.expiresAt)
    && (x.session.Some? <==> x.consumedAt.Some?)
  }

  ghost predicate TxnOk(s: Core, x: Txn) {
    && x.user in s.users
    && x.expiresAt == x.createdAt + VALIDITY && x.createdAt <= s.clock
    && (if x.kind == TrustedDevice then DeviceOk(x) else OtpOk(x))
    && (x.approval.Some? ==>
          && x.approval.value.session < |s.book.sessions|
          && s.book.sessions[x.approval.value.session].user == x.user
          && x.approval.value.at <= s.clock)
  }

  // ---------------------------------------------------------------------------
  // Locks
  // ---------------------------------------------------------------------------

  /** The handler is between taking the row lock and its commit. */
  predicate Holding(now: Handler) {
    now.Verifying? || now.Gating?
  }

  /** What a handler that holds a row may rely on: the row is still as it read it. */
  ghost predicate HandlerOk(s: Core, h: nat, now: Handler) {
    match now
    case Verifying(t, _, _, _, seen) =>
      t in s.locks && s.locks[t] == h && t < |s.txns| && seen == s.txns[t] && seen.kind != TrustedDevice
    case Gating(t, peer, at) =>
      && t in s.locks && s.locks[t] == h && t < |s.txns|
      && s.txns[t].kind == TrustedDevice && s.txns[t].status == Completed && s.txns[t].consumedAt == None
      && s.txns[t].approval.Some? && s.txns[t].approval.value.at <= at < s.txns[t].expiresAt
      && SameIp(s.txns[t].boundIp, peer)
    case _ => true
  }

  ghost predicate LockOk(s: Core, t: nat) {
    && t in s.locks && s.locks[t] in s.handlers
    && Holding(s.handlers[s.locks[t]]) && s.handlers[s.locks[t]].txn == t
  }

  ghost predicate OnePending(txns: seq<Txn>) {
    forall i, j :: 0 <= i < j < |txns| ==> !Rivals(txns[i], txns[j])
  }

  /** Two pending requests of the same user and device. */
  predicate Rivals(x: Txn, y: Txn) {
    Asks(x, x.user, x.fingerprint) && Asks(y, x.user, x.fingerprint)
  }

  ghost predicate DeskOk(s: Core) {
    && (forall t :: 0 <= t < |s.txns| ==> TxnOk(s, s.txns[t]))
    && (forall h :: h in s.handlers ==> HandlerOk(s, h, s.handlers[h]))
    && (forall t :: t in s.locks ==> LockOk(s, t))
    && OnePending(s.txns)
  }

  // ---------------------------------------------------------------------------
  // Frames
  // ---------------------------------------------------------------------------

  ghost predicate Grows(s: Core, after: Core) {
    s.clock <= after.clock && s.users.Keys <= after.users.Keys && Continues(s.book, after.book)
  }

  ghost predicate TxnsMove(txns: seq<Txn>, after: seq<Txn>) {
    |txns| <= |after| && forall t :: 0 <= t < |txns| ==> RowMoves(txns[t], after[t])
  }

  lemma TxnFrame(s: Core, after: Core, x: Txn)
    requires TxnOk(s, x) && Grows(s, after)
    ensures TxnOk(after, x)
  {
    if x.approval.Some? {
      assert SameSession(s.book.sessions[x.approval.value.session], after.book.sessions[x.approval.value.session],
                         |s.book.issued|);
    }
  }

  /** A step away from the desk. */
  lemma ElsewhereKeeps(s: Core, after: Core)
    requires DeskOk(s) && Grows(s, after) && SameDesk(s, after)
    ensures DeskOk(after) && TxnsMove(s.txns, after.txns)
  {
    forall t | 0 <= t < |after.txns| ensures TxnOk(after, after.txns[t]) {
      TxnFrame(s, after, s.txns[t]);
    }
    forall h | h in after.handlers ensures HandlerOk(after, h, after.handlers[h]) {
      assert HandlerOk(s, h, s.handlers[h]);
    }
    forall t | t in after.locks ensures LockOk(after, t) {
      assert LockOk(s, t);
    }
  }

  lemma PendingFrame(txns: seq<Txn>, after: seq<Txn>)
    requires OnePending(txns) && TxnsMove(txns, after) && |after| == |txns|
    ensures OnePending(after)
  {
    forall i, j | 0 <= i < j < |after| ensures !Rivals(after[i], after[j]) {
      assert RowMoves(txns[i], after[i]) && RowMoves(txns[j], after[j]) && !Rivals(txns[i], txns[j]);
    }
  }

  /** Handler h, holding or taking the lock of row t, writes that row. */
  lemma Touch(s: Core, after: Core, h: nat, t: nat)
    requires DeskOk(s) && Grows(s, after)
    requires t < |s.txns| && |after.txns| == |s.txns|
    requires forall i :: 0 <= i < |s.txns| && i != t ==> after.txns[i] == s.txns[i]
    requires TxnOk(after, after.txns[t]) && RowMoves(s.txns[t], after.txns[t])
    requires h in s.handlers && (Holding(s.handlers[h]) ==> s.handlers[h].txn == t)
    requires t in s.locks ==> s.locks[t] == h
    requires h in after.handlers && after.handlers == s.handlers[h := after.handlers[h]]
             && HandlerOk(after, h, after.handlers[h])
    requires if Holding(after.handlers[h]) then after.locks == s.locks[t := h] && after.handlers[h].txn == t
             else after.locks == s.locks - {t}
    ensures DeskOk(after) && TxnsMove(s.txns, after.txns)
  {
    forall i | 0 <= i < |after.txns| ensures TxnOk(after, after.txns[i]) {
      if i != t {
        TxnFrame(s, after, s.txns[i]);
      }
    }
    forall p | p in after.handlers ensures HandlerOk(after, p, after.handlers[p]) {
      if p != h {
        assert HandlerOk(s, p, s.handlers[p]);
      }
    }
    forall i | i in after.locks ensures LockOk(after, i) {
      if i != t {
        assert LockOk(s, i);
        assert s.locks[i] != h;
      }
    }
    forall i | 0 <= i < |s.txns| ensures RowMoves(s.txns[i], after.txns[i]) {}
    PendingFrame(s.txns, after.txns);
  }

  /** A handler without a lock moves to another position without one. */
  lemma Moves(s: Core, after: Core, h: nat)
    requires DeskOk(s) && after == s.(handlers := after.handlers) && h in after.handlers
    requires after.handlers == s.handlers[h := after.handlers[h]]
    requires !Holding(after.handlers[h]) && (h in s.handlers ==> !Holding(s.handlers[h]))
    ensures DeskOk(after) && TxnsMove(s.txns, after.txns)
  {
    forall p | p in after.handlers ensures HandlerOk(after, p, after.handlers[p]) {
      if p != h {
        assert HandlerOk(s, p, s.handlers[p]);
      }
    }
    forall t | t in after.locks ensures LockOk(after, t) {
      assert LockOk(s, t);
    }
    forall t | 0 <= t < |after.txns| ensures TxnOk(after, after.txns[t]) {
      assert TxnOk(s, s.txns[t]);
    }
  }

  lemma SameGrows(s: Core, after: Core)
    requires s.clock <= after.clock && s.users.Keys <= after.users.Keys && after.book == s.book
    ensures Grows(s, after)
  {}

  /** A new row, possibly after another row was written, none of them locked. */
  lemma Appends(s: Core, after: Core, t: nat)
    requires DeskOk(s) && Grows(s, after) && after.locks == s.locks && after.handlers == s.handlers
    requires |after.txns| == |s.txns| + 1 && (t < |s.txns| ==> t !in s.locks)
    requires forall i :: 0 <= i < |s.txns| && i != t ==> after.txns[i] == s.txns[i]
    requires t < |s.txns| ==> TxnOk(after, after.txns[t]) && RowMoves(s.txns[t], after.txns[t])
    requires TxnOk(after, after.txns[|s.txns|]) && OnePending(after.txns)
    ensures DeskOk(after) && TxnsMove(s.txns, after.txns)
  {
    forall i | 0 <= i < |after.txns| ensures TxnOk(after, after.txns[i]) {
      if i != t && i < |s.txns| {
        TxnFrame(s, after, s.txns[i]);
      }
    }
    forall h | h in after.handlers ensures HandlerOk(after, h, after.handlers[h]) {
      assert HandlerOk(s, h, s.handlers[h]);
    }
    forall i | i in after.locks ensures LockOk(after, i) {
      assert LockOk(s, i);
    }
    forall i | 0 <= i < |s.txns| ensures RowMoves(s.txns[i], after.txns[i]) {}
  }

  // ---------------------------------------------------------------------------
  // Handlers
  // ---------------------------------------------------------------------------

  /** Login opens an OTP challenge. */
  lemma ChallengeOpens(s: Core, after: Core, x: Txn)
    requires DeskOk(s) && Grows(s, after) && after.locks == s.locks && after.handlers == s.handlers
    requires x.kind != TrustedDevice && TxnOk(after, x) && after.txns == s.txns + [x]
    ensures DeskOk(after) && TxnsMove(s.txns, after.txns)
  {
    Appends(s, after, |s.txns|);
  }

  lemma LoginGrows(s: Core, peer: Peer, user: nat, passwordOk: bool, hold: bool, code: nat)
    requires BookOk(s.book)
    ensures Grows(s, Login(s, peer, user, passwordOk, hold, code).core)
  {
    var op := LoginOp(s, peer, user, passwordOk, hold, code);
    DoContinues(s.book, op);
  }

  lemma LoginDesk(s: Core, peer: Peer, user: nat, passwordOk: bool, hold: bool, code: nat)
    ensures var after := Login(s, peer, user, passwordOk, hold, code).core;
            || after.txns == s.txns
            || (user in s.users
                && after.txns == s.txns + [Opened(user, OtpKind(s.users[user]), OtpBinding(peer), 0, code, s.clock)])
  {}

  lemma LoginKeeps(s: Core, after: Core, peer: Peer, user: nat, passwordOk: bool, hold: bool, code: nat)
    requires DeskOk(s) && BookOk(s.book) && after == Login(s, peer, user, passwordOk, hold, code).core
    ensures DeskOk(after) && TxnsMove(s.txns, after.txns)
  {
    LoginGrows(s, peer, user, passwordOk, hold, code);
    LoginDesk(s, peer, user, passwordOk, hold, code);
    if after.txns == s.txns {
      ElsewhereKeeps(s, after);
    } else {
      ChallengeOpens(s, after, Opened(user, OtpKind(s.users[user]), OtpBinding(peer), 0, code, s.clock));
    }
  }

  lemma VerifyLockKeeps(s: Core, h: nat)
    requires DeskOk(s)
    ensures var after := VerifyLock(s, h).core; DeskOk(after) && TxnsMove(s.txns, after.txns)
  {
    var after := VerifyLock(s, h).core;
    SameGrows(s, after);
    if after == s {
      ElsewhereKeeps(s, after);
    } else if Holding(after.handlers[h]) {
      var t := s.handlers[h].txn;
      TxnFrame(s, after, s.txns[t]);
      Touch(s, after, h, t);
    } else {
      Moves(s, after, h);
    }
  }

  /** What the verdict writes to the row it was reached on. */
  function Judged(x: Txn, verdict: Verdict, at: Time, session: nat): Txn {
    match verdict
    case Reject(_) => x
    case MarkExpired => x.(status := Expired)
    case WrongCode => Missed(x, x)
    case Accept => Verified(x, at, session)
  }

  lemma JudgedOk(x: Txn, peer: Peer, code: nat, at: Time, session: nat)
    requires OtpOk(x) && x.kind != TrustedDevice
    ensures var y := Judged(x, Judge(x, peer, code, at), at, session); OtpOk(y) && RowMoves(x, y)
  {}

  /** A verifying handler whose row still exists ends by writing its verdict and dropping its lock. */
  ghost predicate VerdictWritten(s: Core, h: nat, after: Core) {
    && h in s.handlers && s.handlers[h].Verifying? && s.handlers[h].txn < |s.txns|
    && var me := s.handlers[h];
    && after.txns == s.txns[me.txn := Judged(me.seen, Judge(me.seen, me.peer, me.code, me.at), me.at,
                                             |s.book.sessions|)]
    && after.locks == s.locks - {me.txn}
    && h in after.handlers && after.handlers[h].Answered? && after.handlers == s.handlers[h := after.handlers[h]]
  }

  lemma VerifyAccepts(s: Core, h: nat)
    requires h in s.handlers && s.handlers[h].Verifying?
    requires var me := s.handlers[h]; me.txn < |s.txns| && me.seen == s.txns[me.txn] && me.seen.user in s.users
    requires var me := s.handlers[h]; Judge(me.seen, me.peer, me.code, me.at).Accept?
    ensures VerdictWritten(s, h, VerifyFinish(s, h).core)
  {}

  lemma VerifyRejects(s: Core, h: nat)
    requires h in s.handlers && s.handlers[h].Verifying?
    requires var me := s.handlers[h]; me.txn < |s.txns| && me.seen == s.txns[me.txn] && me.seen.user in s.users
    requires var me := s.handlers[h]; !Judge(me.seen, me.peer, me.code, me.at).Accept?
    ensures VerdictWritten(s, h, VerifyFinish(s, h).core)
  {}

  lemma VerifyGrows(s: Core, h: nat)
    requires BookOk(s.book)
    ensures Grows(s, VerifyFinish(s, h).core)
  {
    var op := VerifyOp(s, h);
    DoContinues(s.book, op);
  }

  lemma VerifyFinishKeeps(s: Core, after: Core, h: nat)
    requires DeskOk(s) && BookOk(s.book) && after == VerifyFinish(s, h).core
    ensures DeskOk(after) && TxnsMove(s.txns, after.txns)
  {
    VerifyGrows(s, h);
    if h in s.handlers && s.handlers[h].Verifying? {
      var me := s.handlers[h];
      assert HandlerOk(s, h, me);
      assert TxnOk(s, me.seen);
      if Judge(me.seen, me.peer, me.code, me.at).Accept? {
        VerifyAccepts(s, h);
      } else {
        VerifyRejects(s, h);
      }
      TxnFrame(s, after, me.seen);
      JudgedOk(me.seen, me.peer, me.code, me.at, |s.book.sessions|);
      Touch(s, after, h, me.txn);
    } else {
      ElsewhereKeeps(s, after);
    }
  }

  lemma {:induction false} FindPendingFinds(txns: seq<Txn>, user: nat, fingerprint: nat)
    ensures var p := FindPending(txns, user, fingerprint);
            p.Some? ==> p.value < |txns| && Asks(txns[p.value], user, fingerprint)
    ensures FindPending(txns, user, fingerprint) == None ==>
              forall i :: 0 <= i < |txns| ==> !Asks(txns[i], user, fingerprint)
  {
    if txns != [] {
      var prefix := txns[..|txns| - 1];
      FindPendingFinds(prefix, user, fingerprint);
      assert forall i :: 0 <= i < |prefix| ==> txns[i] == prefix[i];
    }
  }

  lemma RequestDesk(s: Core, peer: Peer, user: nat, passwordOk: bool, hold: bool, fingerprint: nat)
    ensures var after := RequestApproval(s, peer, user, passwordOk, hold, fingerprint).core;
            && after.locks == s.locks && after.handlers == s.handlers
            && (after.txns == s.txns || Requested(s, after.txns, peer, user, fingerprint))
  {
    FindPendingFinds(s.txns, user, fingerprint);
  }

  /** A request is filed: an expired one of the same user and device makes way. */
  predicate Requested(s: Core, after: seq<Txn>, peer: Peer, user: nat, fingerprint: nat) {
    && user in s.users && peer != Unknown
    && var x := Opened(user, TrustedDevice, Some(DeviceBinding(peer)), fingerprint, 0, s.clock);
       var p := FindPending(s.txns, user, fingerprint);
    if p == None then after == s.txns + [x]
    else
      && p.value < |s.txns| && p.value !in s.locks
      && after == s.txns[p.value := s.txns[p.value].(status := Expired)] + [x]
  }

  lemma RequestFiled(s: Core, after: Core, peer: Peer, user: nat, fingerprint: nat)
    requires DeskOk(s) && Requested(s, after.txns, peer, user, fingerprint)
    requires Grows(s, after) && after.locks == s.locks && after.handlers == s.handlers
    ensures DeskOk(after) && TxnsMove(s.txns, after.txns)
  {
    FindPendingFinds(s.txns, user, fingerprint);
    var p := FindPending(s.txns, user, fingerprint);
    if p.Some? {
      TxnFrame(s, after, s.txns[p.value]);
      OthersDoNotAsk(s.txns, p.value, user, fingerprint);
      RequestLeavesOne(s.txns, after.txns, p.value, user, fingerprint);
      Appends(s, after, p.value);
    } else {
      RequestLeavesOne(s.txns, after.txns, |s.txns|, user, fingerprint);
      Appends(s, after, |s.txns|);
    }
  }

  lemma RequestKeeps(s: Core, after: Core, peer: Peer, user: nat, passwordOk: bool, hold: bool, fingerprint: nat)
    requires DeskOk(s) && after == RequestApproval(s, peer, user, passwordOk, hold, fingerprint).core
    ensures DeskOk(after) && TxnsMove(s.txns, after.txns)
  {
    SameGrows(s, after);
    RequestDesk(s, peer, user, passwordOk, hold, fingerprint);
    if after.txns == s.txns {
      ElsewhereKeeps(s, after);
    } else {
      RequestFiled(s, after, peer, user, fingerprint);
    }
  }

  lemma RequestLeavesOne(txns: seq<Txn>, after: seq<Txn>, t: nat, user: nat, fingerprint: nat)
    requires OnePending(txns) && |after| == |txns| + 1
    requires forall i :: 0 <= i < |txns| && i != t ==> after[i] == txns[i] && !Asks(txns[i], user, fingerprint)
    requires t < |txns| ==> after[t].status == Expired
    requires after[|txns|].user == user && after[|txns|].fingerprint == fingerprint
    ensures OnePending(after)
  {
    forall i, j | 0 <= i < j < |after| ensures !Rivals(after[i], after[j]) {
      if j < |txns| {
        assert !Rivals(txns[i], txns[j]);
      }
    }
  }

  /** A request that is still pending has one asker; the others of the same user and device are not pending. */
  lemma OthersDoNotAsk(txns: seq<Txn>, t: nat, user: nat, fingerprint: nat)
    requires OnePending(txns) && t < |txns| && Asks(txns[t], user, fingerprint)
    ensures forall i :: 0 <= i < |txns| && i != t ==> !Asks(txns[i], user, fingerprint)
  {
    forall i | 0 <= i < |txns| && i != t ensures !Asks(txns[i], user, fingerprint) {
      assert if i < t then !Rivals(txns[i], txns[t]) else !Rivals(txns[t], txns[i]);
    }
  }

  lemma ApproveDesk(s: Core, token: nat, t: nat, peer: Peer)
    ensures var after := Approve(s, token, t, peer).core;
            && after.locks == s.locks && after.handlers == s.handlers
            && (|| after.txns == s.txns
                || (t < |s.txns| && t !in s.locks && s.txns[t].kind == TrustedDevice
                    && after.txns == s.txns[t := s.txns[t].(status := Expired)])
                || (exists i :: 0 <= i < |s.book.sessions| && Approves(s, i, t)
                                && after.txns == s.txns[t := Approved(s.txns[t], s.clock, i)]))
  {
    var i := Authenticate(s, token);
    if Approve(s, token, t, peer).reply.Done? {
      assert Approves(s, i.value, t);
    }
  }

  /** Session i belongs to the requester and the request can still be approved. */
  predicate Approves(s: Core, i: nat, t: nat) {
    && i < |s.book.sessions| && t < |s.txns| && t !in s.locks && s.txns[t].kind == TrustedDevice
    && s.book.sessions[i].user == s.txns[t].user && s.clock < s.txns[t].expiresAt
    && s.txns[t].status != Expired && s.txns[t].status != Failed
  }

  /** An unlocked row is written without a handler. */
  lemma WriteUnlocked(s: Core, after: Core, t: nat)
    requires DeskOk(s) && Grows(s, after) && after.locks == s.locks && after.handlers == s.handlers
    requires t < |s.txns| && t !in s.locks && |after.txns| == |s.txns| && after.txns == s.txns[t := after.txns[t]]
    requires TxnOk(after, after.txns[t]) && RowMoves(s.txns[t], after.txns[t])
    ensures DeskOk(after) && TxnsMove(s.txns, after.txns)
  {
    forall i | 0 <= i < |after.txns| ensures TxnOk(after, after.txns[i]) {
      if i != t {
        TxnFrame(s, after, s.txns[i]);
      }
    }
    forall h | h in after.handlers ensures HandlerOk(after, h, after.handlers[h]) {
      assert HandlerOk(s, h, s.handlers[h]);
    }
    forall i | i in after.locks ensures LockOk(after, i) {
      assert LockOk(s, i);
    }
    forall i | 0 <= i < |s.txns| ensures RowMoves(s.txns[i], after.txns[i]) {}
    PendingFrame(s.txns, after.txns);
  }

  lemma ApproveKeeps(s: Core, after: Core, token: nat, t: nat, peer: Peer)
    requires DeskOk(s) && after == Approve(s, token, t, peer).core
    ensures DeskOk(after) && TxnsMove(s.txns, after.txns)
  {
    SameGrows(s, after);
    ApproveDesk(s, token, t, peer);
    if after.txns == s.txns {
      ElsewhereKeeps(s, after);
    } else {
      TxnFrame(s, after, s.txns[t]);
      WriteUnlocked(s, after, t);
    }
  }

  lemma CompleteLockDesk(s: Core, h: nat)
    requires h in s.handlers && s.handlers[h].CompleteArrived?
    ensures var me, after := s.handlers[h], CompleteLock(s, h).core;
            && h in after.handlers && after.handlers == s.handlers[h := after.handlers[h]]
            && after.clock == s.clock && after.users == s.users && after.book == s.book
            && (|| after == s
                || (after == s.(handlers := after.handlers) && after.handlers[h].Answered?)
                || (me.txn < |s.txns| && me.txn !in s.locks && s.txns[me.txn].kind == TrustedDevice
                    && var obstacle := Obstacle(s, s.txns[me.txn], me.peer, me.fingerprint);
                    if obstacle.Some?
                    then after.txns == s.txns[me.txn := s.txns[me.txn].(status := obstacle.value.1)]
                         && after.locks == s.locks && after.handlers[h].Answered?
                    else after.txns == s.txns && after.locks == s.locks[me.txn := h]
                         && after.handlers[h] == Gating(me.txn, me.peer, s.clock)))
  {}

  /** The checks write the row of their obstacle, or take the lock and go to the gate. */
  lemma ChecksKeep(s: Core, after: Core, h: nat)
    requires DeskOk(s) && Grows(s, after) && h in s.handlers && s.handlers[h].CompleteArrived?
    requires h in after.handlers && after.handlers == s.handlers[h := after.handlers[h]]
    requires var me := s.handlers[h];
             && me.txn < |s.txns| && me.txn !in s.locks && s.txns[me.txn].kind == TrustedDevice
             && var obstacle := Obstacle(s, s.txns[me.txn], me.peer, me.fingerprint);
             if obstacle.Some?
             then after.txns == s.txns[me.txn := s.txns[me.txn].(status := obstacle.value.1)]
                  && after.locks == s.locks && after.handlers[h].Answered?
             else after.txns == s.txns && after.locks == s.locks[me.txn := h]
                  && after.handlers[h] == Gating(me.txn, me.peer, s.clock)
    ensures DeskOk(after) && TxnsMove(s.txns, after.txns)
  {
    var t := s.handlers[h].txn;
    assert s.locks - {t} == s.locks;
    TxnFrame(s, after, s.txns[t]);
    Touch(s, after, h, t);
  }

  lemma CompleteLockKeeps(s: Core, after: Core, h: nat)
    requires DeskOk(s) && after == CompleteLock(s, h).core
    ensures DeskOk(after) && TxnsMove(s.txns, after.txns)
  {
    SameGrows(s, after);
    if h in s.handlers && s.handlers[h].CompleteArrived? {
      CompleteLockDesk(s, h);
      if after == s {
        ElsewhereKeeps(s, after);
      } else if after == s.(handlers := after.handlers) && after.handlers[h].Answered? {
        Moves(s, after, h);
      } else {
        ChecksKeep(s, after, h);
      }
    } else {
      ElsewhereKeeps(s, after);
    }
  }

  lemma CompleteShape(s: Core, h: nat, hold: bool)
    requires h in s.handlers && s.handlers[h].Gating?
    requires s.handlers[h].txn < |s.txns| && s.txns[s.handlers[h].txn].user in s.users
    ensures var me, after := s.handlers[h], CompleteFinish(s, h, hold).core;
            && after.txns == s.txns[me.txn := if hold then s.txns[me.txn].(status := Failed)
                                              else Consumed(s.txns[me.txn], me.at, |s.book.sessions|)]
            && after.locks == s.locks - {me.txn}
            && h in after.handlers && after.handlers[h].Answered?
            && after.handlers == s.handlers[h := after.handlers[h]]
  {}

  lemma CompleteGrows(s: Core, h: nat, hold: bool)
    requires BookOk(s.book)
    ensures Grows(s, CompleteFinish(s, h, hold).core)
  {
    var op := CompleteOp(s, h, hold);
    DoContinues(s.book, op);
  }

  lemma CompleteFinishKeeps(s: Core, after: Core, h: nat, hold: bool)
    requires DeskOk(s) && BookOk(s.book) && after == CompleteFinish(s, h, hold).core
    ensures DeskOk(after) && TxnsMove(s.txns, after.txns)
  {
    CompleteGrows(s, h, hold);
    if h in s.handlers && s.handlers[h].Gating? {
      var me := s.handlers[h];
      assert HandlerOk(s, h, me);
      assert TxnOk(s, s.txns[me.txn]);
      CompleteShape(s, h, hold);
      TxnFrame(s, after, s.txns[me.txn]);
      Touch(s, after, h, me.txn);
    } else {
      ElsewhereKeeps(s, after);
    }
  }

  lemma CrashKeeps(s: Core, after: Core, h: nat)
    requires DeskOk(s) && after == Crash(s, h).core
    ensures DeskOk(after) && TxnsMove(s.txns, after.txns)
  {
    SameGrows(s, after);
    if h in s.handlers && Holding(s.handlers[h]) {
      var t := s.handlers[h].txn;
      assert HandlerOk(s, h, s.handlers[h]);
      TxnFrame(s, after, s.txns[t]);
      Touch(s, after, h, t);
    } else if h in s.handlers {
      Moves(s, after, h);
    } else {
      ElsewhereKeeps(s, after);
    }
  }

  lemma ArriveKeeps(s: Core, after: Core, step: Step)
    requires DeskOk(s) && (step.VerifyArriveStep? || step.CompleteArriveStep?) && after == Apply(s, step)
    ensures DeskOk(after) && TxnsMove(s.txns, after.txns)
  {
    SameGrows(s, after);
    if step.h in s.handlers {
      ElsewhereKeeps(s, after);
    } else {
      Moves(s, after, step.h);
    }
  }

  /** The steps of other services and pages: none of them touches a transaction, a lock or a waiting handler. */
  predicate Elsewhere(step: Step) {
    || step.Tick? || step.RegisterStep? || step.EditDevices? || step.RefreshStep? || step.LogoutStep?
    || step.LogoutAllStep? || step.RevokeSessionStep? || step.ActionStep? || step.AssignRoleStep?
    || step.RevokeRoleStep? || step.LockStep? || step.UnlockStep? || step.ToggleMfaStep?
  }

  lemma ElsewhereFrame(s: Core, step: Step)
    requires Elsewhere(step)
    ensures SameDesk(s, Apply(s, step))
  {}

  lemma UsersStay(s: Core, step: Step)
    ensures s.users.Keys <= Apply(s, step).users.Keys && s.clock <= Apply(s, step).clock
  {}

  lemma StepGrows(s: Core, step: Step)
    requires BookOk(s.book)
    ensures Grows(s, Apply(s, step)) && BookOk(Apply(s, step).book)
  {
    var op := OpOf(s, step);
    DoContinues(s.book, op);
    DoKeepsBook(s.book, op);
    UsersStay(s, step);
  }

  lemma StepKeepsDesk(s: Core, step: Step)
    requires DeskOk(s) && BookOk(s.book)
    ensures DeskOk(Apply(s, step)) && TxnsMove(s.txns, Apply(s, step).txns)
  {
    if Elsewhere(step) {
      ElsewhereFrame(s, step);
      StepGrows(s, step);
      ElsewhereKeeps(s, Apply(s, step));
    } else if step.VerifyArriveStep? || step.CompleteArriveStep? {
      ArriveKeeps(s, Apply(s, step), step);
    } else {
      FlowKeepsDesk(s, step);
    }
  }

  lemma FlowKeepsDesk(s: Core, step: Step)
    requires DeskOk(s) && BookOk(s.book)
    requires !Elsewhere(step) && !step.VerifyArriveStep? && !step.CompleteArriveStep?
    ensures DeskOk(Apply(s, step)) && TxnsMove(s.txns, Apply(s, step).txns)
  {
    match step {
      case LoginStep(peer, user, passwordOk, hold, code) =>
        LoginKeeps(s, Apply(s, step), peer, user, passwordOk, hold, code);
      case VerifyLockStep(h) => VerifyLockKeeps(s, h);
      case VerifyFinishStep(h) => VerifyFinishKeeps(s, Apply(s, step), h);
      case RequestStep(peer, user, passwordOk, hold, fingerprint) =>
        RequestKeeps(s, Apply(s, step), peer, user, passwordOk, hold, fingerprint);
      case ApproveStep(token, t, peer) => ApproveKeeps(s, Apply(s, step), token, t, peer);
      case CompleteLockStep(h) => CompleteLockKeeps(s, Apply(s, step), h);
      case CompleteFinishStep(h, hold) => CompleteFinishKeeps(s, Apply(s, step), h, hold);
      case CrashStep(h) => CrashKeeps(s, Apply(s, step), h);
    }
  }

  /** Everything that holds of tokens, transactions and locks between two steps. */
  ghost predicate Inv(s: Core) {
    BookOk(s.book) && DeskOk(s)
  }

  lemma StartOk(clock: Time, users: map<nat, User>)
    ensures Inv(Start(clock, users))
  {}

  lemma TxnsMoveTransitive(a: seq<Txn>, b: seq<Txn>, c: seq<Txn>)
    requires TxnsMove(a, b) && TxnsMove(b, c)
    ensures TxnsMove(a, c)
  {
    forall t | 0 <= t < |a| ensures RowMoves(a[t], c[t]) {
      assert RowMoves(a[t], b[t]) && RowMoves(b[t], c[t]);
    }
  }

  lemma {:induction false} RunKeepsInv(s: Core, steps: seq<Step>)
    requires Inv(s)
    ensures Inv(Run(s, steps)) && TxnsMove(s.txns, Run(s, steps).txns)
  {
    if steps != [] {
      var before, step := Run(s, steps[..|steps| - 1]), steps[|steps| - 1];
      RunKeepsInv(s, steps[..|steps| - 1]);
      StepKeepsDesk(before, step);
      StepGrows(before, step);
      TxnsMoveTransitive(s.txns, before.txns, Apply(before, step).txns);
    }
  }

  // ---------------------------------------------------------------------------
  // OTP challenges over whole runs
  // ---------------------------------------------------------------------------

  /**
   Over every run: at most three wrong codes; failed exactly at the third; completed
   exactly when the notification carries a verification time, which lies before expiry.
   */
  lemma OtpInvariant(clock: Time, users: map<nat, User>, steps: seq<Step>, t: nat)
    requires t < |Run(Start(clock, users), steps).txns| && Run(Start(clock, users), steps).txns[t].kind != TrustedDevice
    ensures var x := Run(Start(clock, users), steps).txns[t];
            && x.failCount <= 3
            && (x.status == Failed <==> x.failCount == 3)
            && (x.status == Completed <==> x.verifiedAt.Some?)
            && (x.verifiedAt.Some? ==> x.verifiedAt.value < x.expiresAt == x.createdAt + 5 * MINUTE)
  {
    StartOk(clock, users);
    RunKeepsInv(Start(clock, users), steps);
    assert TxnOk(Run(Start(clock, users), steps), Run(Start(clock, users), steps).txns[t]);
  }

  /** A completed, failed or expired challenge never changes again in any column. */
  lemma OtpOutcomesAbsorb(s: Core, steps: seq<Step>, t: nat)
    requires Inv(s) && t < |s.txns| && s.txns[t].kind != TrustedDevice && s.txns[t].status != Pending
    ensures t < |Run(s, steps).txns| && Run(s, steps).txns[t] == s.txns[t]
  {
    RunKeepsInv(s, steps);
    assert RowMoves(s.txns[t], Run(s, steps).txns[t]);
  }

  /** The verdict a handler is about to commit on row t. */
  predicate AboutToAccept(s: Core, step: Step, t: nat) {
    && step.VerifyFinishStep? && step.h in s.handlers && s.handlers[step.h].Verifying? && s.handlers[step.h].txn == t
    && t < |s.txns|
    && var me := s.handlers[step.h];
    && me.at < s.txns[t].expiresAt && me.code == s.txns[t].code && OtpIpAccepted(s.txns[t].boundIp, me.peer)
  }

  lemma RequestSpares(s: Core, t: nat, peer: Peer, user: nat, passwordOk: bool, hold: bool, fingerprint: nat)
    requires t < |s.txns| && s.txns[t].kind != TrustedDevice
    ensures var after := RequestApproval(s, peer, user, passwordOk, hold, fingerprint).core;
            t < |after.txns| && after.txns[t] == s.txns[t]
  {
    RequestDesk(s, peer, user, passwordOk, hold, fingerprint);
    FindPendingFinds(s.txns, user, fingerprint);
  }

  lemma CompleteLockSpares(s: Core, t: nat, h: nat)
    requires t < |s.txns| && s.txns[t].kind != TrustedDevice
    ensures var after := CompleteLock(s, h).core; t < |after.txns| && after.txns[t] == s.txns[t]
  {
    if h in s.handlers && s.handlers[h].CompleteArrived? {
      CompleteLockDesk(s, h);
    }
  }

  lemma CompleteSpares(s: Core, t: nat, h: nat, hold: bool)
    requires Inv(s) && t < |s.txns| && s.txns[t].kind != TrustedDevice
    ensures var after := CompleteFinish(s, h, hold).core; t < |after.txns| && after.txns[t] == s.txns[t]
  {
    if h in s.handlers && s.handlers[h].Gating? {
      assert HandlerOk(s, h, s.handlers[h]);
      assert TxnOk(s, s.txns[s.handlers[h].txn]);
      CompleteShape(s, h, hold);
    }
  }

  lemma ApproveSpares(s: Core, t: nat, token: nat, u: nat, peer: Peer)
    requires t < |s.txns| && s.txns[t].kind != TrustedDevice
    ensures var after := Approve(s, token, u, peer).core; t < |after.txns| && after.txns[t] == s.txns[t]
  {
    ApproveDesk(s, token, u, peer);
  }

  lemma LoginSpares(s: Core, t: nat, peer: Peer, user: nat, passwordOk: bool, hold: bool, code: nat)
    requires t < |s.txns|
    ensures var after := Login(s, peer, user, passwordOk, hold, code).core;
            t < |after.txns| && after.txns[t] == s.txns[t]
  {
    LoginDesk(s, peer, user, passwordOk, hold, code);
  }

  lemma FlowSpares(s: Core, step: Step, t: nat)
    requires Inv(s) && t < |s.txns| && s.txns[t].kind != TrustedDevice
    requires step.LoginStep? || step.RequestStep? || step.ApproveStep? || step.CompleteLockStep?
             || step.CompleteFinishStep?
    ensures t < |Apply(s, step).txns| && Apply(s, step).txns[t] == s.txns[t]
  {
    match step {
      case LoginStep(peer, user, passwordOk, hold, code) => LoginSpares(s, t, peer, user, passwordOk, hold, code);
      case RequestStep(peer, user, passwordOk, hold, fingerprint) =>
        RequestSpares(s, t, peer, user, passwordOk, hold, fingerprint);
      case ApproveStep(token, u, peer) => ApproveSpares(s, t, token, u, peer);
      case CompleteLockStep(h) => CompleteLockSpares(s, t, h);
      case CompleteFinishStep(h, hold) => CompleteSpares(s, t, h, hold);
    }
  }

  /** Arriving, waiting for an OTP row and crashing write no row. */
  lemma WaitingWritesNothing(s: Core, step: Step)
    requires step.VerifyArriveStep? || step.VerifyLockStep? || step.CompleteArriveStep? || step.CrashStep?
    ensures Apply(s, step).txns == s.txns
  {}

  /** Only OTP verification writes an existing OTP challenge. */
  lemma OthersSpareOtp(s: Core, step: Step, t: nat)
    requires Inv(s) && t < |s.txns| && s.txns[t].kind != TrustedDevice && !step.VerifyFinishStep?
    ensures t < |Apply(s, step).txns| && Apply(s, step).txns[t] == s.txns[t]
  {
    if Elsewhere(step) {
      ElsewhereFrame(s, step);
    } else if step.VerifyArriveStep? || step.VerifyLockStep? || step.CompleteArriveStep? || step.CrashStep? {
      WaitingWritesNothing(s, step);
    } else {
      FlowSpares(s, step, t);
    }
  }

  /**
   A pending challenge is completed by a step exactly when that step commits a
   verification whose handler arrived before expiry, with the right code and, when an IP
   is bound, from that IP.
   */
  lemma OtpCompletesExactlyWhen(s: Core, step: Step, t: nat)
    requires Inv(s) && t < |s.txns| && s.txns[t].kind != TrustedDevice && s.txns[t].status == Pending
    ensures t < |Apply(s, step).txns|
    ensures Apply(s, step).txns[t].status == Completed <==> AboutToAccept(s, step, t)
    ensures AboutToAccept(s, step, t) ==> Apply(s, step).txns[t].verifiedAt == Some(s.handlers[step.h].at)
  {
    if step.VerifyFinishStep? {
      VerifyDecides(s, step.h, t);
    } else {
      OthersSpareOtp(s, step, t);
    }
  }

  lemma VerifyDecides(s: Core, h: nat, t: nat)
    requires Inv(s) && t < |s.txns| && s.txns[t].kind != TrustedDevice && s.txns[t].status == Pending
    ensures var after := VerifyFinish(s, h).core;
            && t < |after.txns|
            && (after.txns[t].status == Completed <==> AboutToAccept(s, VerifyFinishStep(h), t))
            && (AboutToAccept(s, VerifyFinishStep(h), t) ==> after.txns[t].verifiedAt == Some(s.handlers[h].at))
  {
    if h in s.handlers && s.handlers[h].Verifying? {
      var me := s.handlers[h];
      assert HandlerOk(s, h, me);
      assert TxnOk(s, me.seen) && TxnOk(s, s.txns[t]);
      if Judge(me.seen, me.peer, me.code, me.at).Accept? {
        VerifyAccepts(s, h);
      } else {
        VerifyRejects(s, h);
      }
    }
  }

  /** At any moment at most one handler works on a locked row, and the row is still what it read. */
  lemma LockExcludes(s: Core, h: nat, k: nat)
    requires Inv(s) && h in s.handlers && k in s.handlers && Holding(s.handlers[h]) && Holding(s.handlers[k])
    ensures s.handlers[h].txn == s.handlers[k].txn ==> h == k
    ensures s.handlers[h].txn < |s.txns|
    ensures s.handlers[h].Verifying? ==> s.handlers[h].seen == s.txns[s.handlers[h].txn]
  {
    assert HandlerOk(s, h, s.handlers[h]) && HandlerOk(s, k, s.handlers[k]);
  }

  // ---------------------------------------------------------------------------
  // Trusted-device requests over whole runs
  // ---------------------------------------------------------------------------

  /** Status only moves forward, though completed is not the end; consumption is recorded once and kept. */
  lemma RequestOnlyAdvances(s: Core, steps: seq<Step>, t: nat)
    requires Inv(s) && t < |s.txns|
    ensures t < |Run(s, steps).txns|
    ensures Rank(s.txns[t].status) <= Rank(Run(s, steps).txns[t].status)
    ensures s.txns[t].consumedAt.Some? ==> Run(s, steps).txns[t].consumedAt == s.txns[t].consumedAt
    ensures s.txns[t].approval.Some? ==> Run(s, steps).txns[t].approval == s.txns[t].approval
  {
    RunKeepsInv(s, steps);
    assert RowMoves(s.txns[t], Run(s, steps).txns[t]);
  }

  /** Every consumption follows an approval by a session of the same user, both strictly inside the five minutes. */
  lemma ConsumedOnlyAfterApproval(clock: Time, users: map<nat, User>, steps: seq<Step>, t: nat)
    requires var s := Run(Start(clock, users), steps); t < |s.txns| && s.txns[t].consumedAt.Some?
    ensures var s := Run(Start(clock, users), steps);
            var x := s.txns[t];
            && x.kind == TrustedDevice && x.approval.Some?
            && x.createdAt <= x.approval.value.at <= x.consumedAt.value < x.createdAt + 5 * MINUTE
            && x.approval.value.session < |s.book.sessions|
            && s.book.sessions[x.approval.value.session].user == x.user
  {
    StartOk(clock, users);
    RunKeepsInv(Start(clock, users), steps);
    assert TxnOk(Run(Start(clock, users), steps), Run(Start(clock, users), steps).txns[t]);
  }

  /** No user ever has two pending requests for one device. */
  lemma OnePendingPerDevice(
    clock: Time, users: map<nat, User>, steps: seq<Step>, user: nat, fingerprint: nat, i: nat, j: nat)
    requires i < j < |Run(Start(clock, users), steps).txns|
    ensures var txns := Run(Start(clock, users), steps).txns;
            !(Asks(txns[i], user, fingerprint) && Asks(txns[j], user, fingerprint))
  {
    StartOk(clock, users);
    RunKeepsInv(Start(clock, users), steps);
    assert !Rivals(Run(Start(clock, users), steps).txns[i], Run(Start(clock, users), steps).txns[j]);
  }

  // ---------------------------------------------------------------------------
  // From arrival to commit
  // ---------------------------------------------------------------------------

  predicate Locking(step: Step) {
    || step.VerifyArriveStep? || step.VerifyLockStep? || step.VerifyFinishStep? || step.CrashStep?
    || step.CompleteArriveStep? || step.CompleteLockStep? || step.CompleteFinishStep?
  }

  /** Whether the handler is about to accept the code. */
  predicate Accepting(now: Handler) {
    now.Verifying? && Judge(now.seen, now.peer, now.code, now.at).Accept?
  }

  /** Exactly the accepted verification adds a session. */
  lemma VerifyIssues(s: Core, h: nat)
    requires h in s.handlers && s.handlers[h].Verifying?
    requires s.handlers[h].txn < |s.txns| && s.handlers[h].seen.user in s.users
    ensures var me, after := s.handlers[h], VerifyFinish(s, h).core;
            if Judge(me.seen, me.peer, me.code, me.at).Accept?
            then after.book == Add(s.book, me.seen.user, s.clock, SessionIp(me.peer), Otp(me.txn))
            else after.book == s.book
  {}

  lemma VerifyAnswers(s: Core, h: nat)
    ensures var r := VerifyFinish(s, h);
            r.core.handlers == s.handlers || r.core.handlers == s.handlers[h := Answered(r.reply)]
  {}

  lemma LockingMovesOwn(s: Core, step: Step)
    requires Locking(step)
    ensures MovesOwn(s, Apply(s, step), step.h)
  {}

  lemma HandlerStays(s: Core, step: Step, h: nat)
    requires h in s.handlers && !(Locking(step) && step.h == h)
    ensures h in Apply(s, step).handlers && Apply(s, step).handlers[h] == s.handlers[h]
  {
    if Elsewhere(step) {
      ElsewhereFrame(s, step);
    } else if step.LoginStep? {
      LoginDesk(s, step.peer, step.user, step.passwordOk, step.hold, step.code);
    } else if step.RequestStep? {
      RequestDesk(s, step.peer, step.user, step.passwordOk, step.hold, step.fingerprint);
    } else if step.ApproveStep? {
      ApproveDesk(s, step.token, step.txn, step.peer);
    } else {
      LockingMovesOwn(s, step);
    }
  }

  /** The handler is still on this verification, with the instant it arrived at, or has answered. */
  predicate Verifies(now: Handler, txn: nat, at: Time) {
    ((now.VerifyArrived? || now.Verifying?) && now.txn == txn && now.at == at) || now.Answered?
  }

  lemma WaitingVerifies(s: Core, h: nat, txn: nat, at: Time)
    requires h in s.handlers && Verifies(s.handlers[h], txn, at)
    ensures var after := VerifyLock(s, h).core; h in after.handlers && Verifies(after.handlers[h], txn, at)
  {}

  lemma CrashVerifies(s: Core, h: nat, txn: nat, at: Time)
    requires h in s.handlers && Verifies(s.handlers[h], txn, at)
    ensures var after := Crash(s, h).core; h in after.handlers && Verifies(after.handlers[h], txn, at)
  {}

  lemma VerifyMoves(s: Core, step: Step, h: nat, txn: nat, at: Time)
    requires Locking(step) && step.h == h && h in s.handlers && Verifies(s.handlers[h], txn, at)
    ensures h in Apply(s, step).handlers && Verifies(Apply(s, step).handlers[h], txn, at)
  {
    if step.VerifyLockStep? {
      WaitingVerifies(s, h, txn, at);
    } else if step.VerifyFinishStep? {
      VerifyAnswers(s, h);
    } else if step.CrashStep? {
      CrashVerifies(s, h, txn, at);
    } else {
      NotItsStep(s, step, h);
    }
  }

  /** Arriving again, or a step of the other kind of handler, leaves it where it is. */
  lemma NotItsStep(s: Core, step: Step, h: nat)
    requires h in s.handlers && !s.handlers[h].CompleteArrived? && !s.handlers[h].Gating?
    requires step.VerifyArriveStep? || step.CompleteArriveStep? || step.CompleteLockStep? || step.CompleteFinishStep?
    requires step.h == h
    ensures Apply(s, step) == s
  {}

  lemma {:induction false} VerifyKeepsInstant(s: Core, steps: seq<Step>, h: nat, txn: nat, at: Time)
    requires h in s.handlers && Verifies(s.handlers[h], txn, at)
    ensures h in Run(s, steps).handlers && Verifies(Run(s, steps).handlers[h], txn, at)
  {
    if steps != [] {
      var before, step := Run(s, steps[..|steps| - 1]), steps[|steps| - 1];
      VerifyKeepsInstant(s, steps[..|steps| - 1], h, txn, at);
      if Locking(step) && step.h == h {
        VerifyMoves(before, step, h, txn, at);
      } else {
        HandlerStays(before, step, h);
      }
    }
  }

  /** The time that goes by during these steps. */
  function Elapsed(steps: seq<Step>): nat {
    if steps == [] then 0
    else
      var n := |steps| - 1;
      Elapsed(steps[..n]) + (if steps[n].Tick? then steps[n].elapsed else 0)
  }

  lemma {:induction false} ClockOfRun(s: Core, steps: seq<Step>)
    ensures Run(s, steps).clock == s.clock + Elapsed(steps)
  {
    if steps != [] {
      var n := |steps| - 1;
      ClockOfRun(s, steps[..n]);
      ClockAdvances(Run(s, steps[..n]), steps[n]);
    }
  }

  /**
   A verification arrives and, after any steps of any handlers, is about to accept the
   code. The session it then opens is created before the challenge expires by the clock
   exactly when the steps in between take less time than the challenge had left on arrival.
   */
  lemma OnTimeExactlyWhen(s: Core, h: nat, txn: nat, peer: Peer, code: nat, between: seq<Step>)
    requires Inv(s) && h !in s.handlers
    requires var before := Run(VerifyArrive(s, h, txn, peer, code).core, between);
             h in before.handlers && Accepting(before.handlers[h])
    ensures var before := Run(VerifyArrive(s, h, txn, peer, code).core, between);
            var after, n := VerifyFinish(before, h).core, |before.book.sessions|;
            && txn < |before.txns| && |after.book.sessions| == n + 1 && after.book.sessions[n].origin == Otp(txn)
            && (after.book.sessions[n].createdAt < before.txns[txn].expiresAt <==>
                Elapsed(between) < before.txns[txn].expiresAt - s.clock)
            && s.clock < before.txns[txn].expiresAt
  {
    var arrived := VerifyArrive(s, h, txn, peer, code).core;
    ArriveKeeps(s, arrived, VerifyArriveStep(h, txn, peer, code));
    RunKeepsInv(arrived, between);
    ClockOfRun(arrived, between);
    VerifyKeepsInstant(arrived, between, h, txn, s.clock);
    CommitInstant(Run(arrived, between), h);
  }

  lemma CommitInstant(s: Core, h: nat)
    requires Inv(s) && h in s.handlers && Accepting(s.handlers[h])
    ensures var me, after, n := s.handlers[h], VerifyFinish(s, h).core, |s.book.sessions|;
            && me.txn < |s.txns| && |after.book.sessions| == n + 1
            && after.book.sessions[n].origin == Otp(me.txn) && after.book.sessions[n].createdAt == s.clock
            && me.at < s.txns[me.txn].expiresAt
  {
    assert HandlerOk(s, h, s.handlers[h]);
    assert TxnOk(s, s.handlers[h].seen);
    VerifyIssues(s, h);
  }

  /** Hence a verification for which no time goes by between arrival and commit is always on time. */
  lemma PromptVerificationOnTime(s: Core, h: nat, txn: nat, peer: Peer, code: nat, between: seq<Step>)
    requires Inv(s) && h !in s.handlers
    requires var before := Run(VerifyArrive(s, h, txn, peer, code).core, between);
             h in before.handlers && Accepting(before.handlers[h]) && Elapsed(between) == 0
    ensures var before := Run(VerifyArrive(s, h, txn, peer, code).core, between);
            var after, n := VerifyFinish(before, h).core, |before.book.sessions|;
            && txn < |before.txns| && |after.book.sessions| == n + 1
            && after.book.sessions[n].createdAt < before.txns[txn].expiresAt
  {
    OnTimeExactlyWhen(s, h, txn, peer, code, between);
  }

  // ---------------------------------------------------------------------------
  // A handler that waited for the lock
  // ---------------------------------------------------------------------------

  const LatePeer := Address(1, 0)
  const LateUsers: map<nat, User> := map[1 := NewUser.(adminMfa := true)]
  const LateArrivals: seq<Step> :=
    [LoginStep(LatePeer, 1, true, false, 77), VerifyArriveStep(1, 0, LatePeer, 77), VerifyArriveStep(2, 0, LatePeer, 0)]
  const LateWaiting: seq<Step> := [VerifyLockStep(2), Tick(6 * MINUTE)]
  const LateFinishes: seq<Step> := [VerifyFinishStep(2), VerifyLockStep(1), VerifyFinishStep(1)]

  function Arrivals(s: Core): Core {
    var challenged := Login(s, LatePeer, 1, true, false, 77).core;
    VerifyArrive(VerifyArrive(challenged, 1, 0, LatePeer, 77).core, 2, 0, LatePeer, 0).core
  }

  /** The second handler takes the row first and keeps it for six minutes. */
  function Wait(s: Core): Core {
    VerifyLock(s, 2).core.(clock := VerifyLock(s, 2).core.clock + 6 * MINUTE)
  }

  function Finishes(s: Core): Core {
    VerifyFinish(VerifyLock(VerifyFinish(s, 2).core, 1).core, 1).core
  }

  lemma LateWaitMeaning()
    ensures var s := Wait(Arrivals(Start(0, LateUsers)));
            && s.clock == 6 * MINUTE && s.users.Keys == {1} && s.book.sessions == []
            && s.txns == [Opened(1, Persistent, Some(LatePeer), 0, 77, 0)]
            && s.locks == map[0 := 2]
            && s.handlers == map[1 := VerifyArrived(0, LatePeer, 77, 0), 2 := Verifying(0, LatePeer, 0, 0, s.txns[0])]
  {}

  /** The second handler's wrong code is counted and the row is free again. */
  lemma LateFirstFinish(s: Core)
    requires s.txns == [Opened(1, Persistent, Some(LatePeer), 0, 77, 0)] && s.locks == map[0 := 2]
             && s.users.Keys == {1}
    requires 2 in s.handlers && s.handlers[2] == Verifying(0, LatePeer, 0, 0, s.txns[0])
    ensures var after := VerifyFinish(s, 2).core;
            && after.txns == [s.txns[0].(failCount := 1)] && after.locks == map[] && after.users == s.users
            && after.clock == s.clock && after.book == s.book
            && after.handlers == s.handlers[2 := Answered(Refused(401))]
  {}

  /** The first handler takes it and commits what it judges by the instant it arrived. */
  lemma LateSecondFinish(s: Core)
    requires |s.txns| == 1 && s.txns[0] == Opened(1, Persistent, Some(LatePeer), 0, 77, 0).(failCount := 1)
    requires s.locks == map[] && 1 in s.users && s.book.sessions == [] && s.clock == 6 * MINUTE
    requires 1 in s.handlers && s.handlers[1] == VerifyArrived(0, LatePeer, 77, 0)
    ensures var after := VerifyFinish(VerifyLock(s, 1).core, 1).core;
            && |after.txns| == 1 && after.txns[0].status == Completed && after.txns[0].verifiedAt == Some(0)
            && |after.book.sessions| == 1 && after.book.sessions[0].createdAt > after.txns[0].expiresAt
  {
    var locked := VerifyLock(s, 1).core;
    assert locked.handlers[1] == Verifying(0, LatePeer, 77, 0, s.txns[0]) && locked.txns == s.txns;
    VerifyIssues(locked, 1);
  }

  lemma LateEndMeaning()
    ensures var s := Finishes(Wait(Arrivals(Start(0, LateUsers))));
            && |s.txns| == 1 && s.txns[0].status == Completed && s.txns[0].verifiedAt == Some(0)
            && |s.book.sessions| == 1 && s.book.sessions[0].createdAt > s.txns[0].expiresAt
  {
    LateWaitMeaning();
    var s := Wait(Arrivals(Start(0, LateUsers)));
    LateFirstFinish(s);
    LateSecondFinish(VerifyFinish(s, 2).core);
  }

  lemma ArrivalsRun(s: Core)
    ensures Run(s, LateArrivals) == Arrivals(s)
  {
    RunOfThree(s, LateArrivals[0], LateArrivals[1], LateArrivals[2]);
  }

  lemma WaitRuns(s: Core)
    ensures Run(s, LateWaiting) == Wait(s)
  {
    RunOfTwo(s, LateWaiting[0], LateWaiting[1]);
  }

  lemma FinishesRun(s: Core)
    ensures Run(s, LateFinishes) == Finishes(s)
  {
    RunOfThree(s, LateFinishes[0], LateFinishes[1], LateFinishes[2]);
  }

  /**
   "Before expiry" is judged by the instant the handler arrived. A verification that
   waits for the row behind another one can commit, and open a session, after the
   challenge has expired by the clock.
   */
  lemma LateCommit()
    ensures var s := Run(Start(0, LateUsers), LateArrivals + LateWaiting + LateFinishes);
            && |s.txns| == 1 && |s.book.sessions| == 1
            && s.txns[0].status == Completed && s.txns[0].verifiedAt == Some(0)
            && s.book.sessions[0].createdAt > s.txns[0].expiresAt
  {
    RunInParts(Start(0, LateUsers), LateArrivals, LateWaiting, LateFinishes);
    ArrivalsRun(Start(0, LateUsers));
    WaitRuns(Arrivals(Start(0, LateUsers)));
    FinishesRun(Wait(Arrivals(Start(0, LateUsers))));
    LateEndMeaning();
  }
}
