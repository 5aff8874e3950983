/** Filing a trusted-device request: exactly when, with what in it, and what every other caller is answered. */
module DeviceRequests {
  import opened Basics
  import opened Network
  import RateLimiter
  import opened Core
  import opened Challenges

  /**
   The caller may use a trusted device: a known peer within its limit, an existing user with
   the right password, an account that is not locked, both MFA flags down and no hold.
   */
  predicate Cleared(s: Core, peer: Peer, user: nat, passwordOk: bool, hold: bool) {
    && peer != Unknown && !RateLimiter.Denied(RateRow(s, peer, ApprovalCounter), s.clock)
    && user in s.users && passwordOk && s.users[user].status != Locked
    && !s.users[user].adminMfa && !s.users[user].detectionMfa && !hold
  }

  /** The device is trusted, still is, and was last used from the same address. */
  predicate Trusts(s: Core, peer: Peer, user: nat, fingerprint: nat) {
    && (user, fingerprint) in s.devices
    && var d := s.devices[(user, fingerprint)];
    && (d.expiresAt.Some? ==> s.clock < d.expiresAt.value)
    && SameIp(d.lastIp, peer)
  }

  /** Row p is a pending request of this user and device. */
  predicate PendingAt(s: Core, p: nat, user: nat, fingerprint: nat) {
    && p < |s.txns| && s.txns[p].kind == TrustedDevice && s.txns[p].status == Pending
    && s.txns[p].user == user && s.txns[p].fingerprint == fingerprint
  }

  /** A pending request that stands in the way of a new one: a handler works on it, or it is still valid. */
  predicate Stands(s: Core, p: nat, user: nat, fingerprint: nat) {
    PendingAt(s, p, user, fingerprint) && (p in s.locks || s.clock < s.txns[p].expiresAt)
  }

  /** The row found is the one pending request there is. */
  lemma FoundIsPending(s: Core, user: nat, fingerprint: nat)
    requires OnePending(s.txns)
    ensures var p := FindPending(s.txns, user, fingerprint);
            && (p.Some? ==> PendingAt(s, p.value, user, fingerprint))
            && forall q: nat :: PendingAt(s, q, user, fingerprint) ==> p == Some(q)
  {
    var p := FindPending(s.txns, user, fingerprint);
    FindPendingFinds(s.txns, user, fingerprint);
    forall q: nat | PendingAt(s, q, user, fingerprint) ensures p == Some(q) {
      assert Asks(s.txns[q], user, fingerprint);
      if p != Some(q) && p.Some? {
        OthersDoNotAsk(s.txns, p.value, user, fingerprint);
      }
    }
  }

  /** With the request found: it is waited for, reused, or replaced. */
  lemma FilingOnPending(s: Core, peer: Peer, user: nat, fingerprint: nat, q: nat)
    requires FindPending(s.txns, user, fingerprint) == Some(q) && PendingAt(s, q, user, fingerprint)
    requires forall p: nat :: PendingAt(s, p, user, fingerprint) ==> p == q
    ensures var r, n := FileApproval(s, peer, user, fingerprint), |s.txns|;
            if q in s.locks then r == Outcome(s, Waiting)
            else if s.clock < s.txns[q].expiresAt then r == Outcome(s, ApprovalPending(q))
            else r.reply == ApprovalPending(n) && Filed(s, r.core.txns, peer, user, fingerprint)
  {}

  lemma FilingOnNone(s: Core, peer: Peer, user: nat, fingerprint: nat)
    requires FindPending(s.txns, user, fingerprint) == None
    requires forall p: nat :: !PendingAt(s, p, user, fingerprint)
    ensures var r, n := FileApproval(s, peer, user, fingerprint), |s.txns|;
            r.reply == ApprovalPending(n) && Filed(s, r.core.txns, peer, user, fingerprint)
  {}

  /** Filing alone, for a caller that is cleared. */
  lemma FilingMeaning(s: Core, peer: Peer, user: nat, fingerprint: nat)
    requires OnePending(s.txns)
    ensures var r, n := FileApproval(s, peer, user, fingerprint), |s.txns|;
            && (|r.core.txns| == n + 1 <==> forall p: nat :: !Stands(s, p, user, fingerprint))
            && (|r.core.txns| != n + 1 ==> r.core == s)
            && (|r.core.txns| == n + 1 ==>
                  r.reply == ApprovalPending(n) && Filed(s, r.core.txns, peer, user, fingerprint))
            && (r.reply == Waiting <==> exists p: nat :: PendingAt(s, p, user, fingerprint) && p in s.locks)
            && (forall p: nat :: p < n ==>
                  (r.reply == ApprovalPending(p) <==>
                   PendingAt(s, p, user, fingerprint) && p !in s.locks && s.clock < s.txns[p].expiresAt))
  {
    FoundIsPending(s, user, fingerprint);
    var p := FindPending(s.txns, user, fingerprint);
    if p.Some? {
      FilingOnPending(s, peer, user, fingerprint, p.value);
      assert Stands(s, p.value, user, fingerprint) <==> p.value in s.locks || s.clock < s.txns[p.value].expiresAt;
    } else {
      FilingOnNone(s, peer, user, fingerprint);
    }
  }

  /** The new row, behind the old ones; only an expired pending request of the same user and device is marked. */
  ghost predicate Filed(s: Core, after: seq<Txn>, peer: Peer, user: nat, fingerprint: nat) {
    && |after| == |s.txns| + 1
    && (forall t :: 0 <= t < |s.txns| ==>
          after[t] == if PendingAt(s, t, user, fingerprint) then s.txns[t].(status := Expired) else s.txns[t])
    && var x := after[|s.txns|];
    && x.user == user && x.kind == TrustedDevice && x.fingerprint == fingerprint && x.status == Pending
    && x.createdAt == s.clock && x.expiresAt == s.clock + 5 * MINUTE
    && x.boundIp == Some(if peer.Address? then Address(peer.value, 0) else peer)
    && x.approval == None && x.consumedAt == None && x.session == None && x.failCount == 0
  }

  /**
   A request is filed exactly for a caller that is cleared, whose device is not yet trusted
   from that address, and for which no pending request stands; then the new row carries
   the user, the device, the address and five minutes.
   */
  lemma FiledExactlyWhen(s: Core, peer: Peer, user: nat, passwordOk: bool, hold: bool, fingerprint: nat)
    requires OnePending(s.txns)
    ensures var r, n := RequestApproval(s, peer, user, passwordOk, hold, fingerprint), |s.txns|;
            && (|r.core.txns| == n + 1 <==>
                && Cleared(s, peer, user, passwordOk, hold) && !Trusts(s, peer, user, fingerprint)
                && forall p: nat :: !Stands(s, p, user, fingerprint))
            && (|r.core.txns| == n + 1 ==>
                  r.reply == ApprovalPending(n) && Filed(s, r.core.txns, peer, user, fingerprint))
            && (|r.core.txns| != n + 1 ==> r.core.txns == s.txns && r.core.audit == s.audit)
            && r.core.devices == s.devices
  {
    RequestRoutes(s, peer, user, passwordOk, hold, fingerprint);
    if Cleared(s, peer, user, passwordOk, hold) && !Trusts(s, peer, user, fingerprint) {
      FilingMeaning(Counted(s, peer, ApprovalCounter), peer, user, fingerprint);
      SameRequests(s, Counted(s, peer, ApprovalCounter), peer, user, fingerprint);
    }
  }

  lemma SameRequests(s: Core, counted: Core, peer: Peer, user: nat, fingerprint: nat)
    requires counted == s.(rates := counted.rates)
    ensures forall p: nat :: PendingAt(counted, p, user, fingerprint) <==> PendingAt(s, p, user, fingerprint)
    ensures forall p: nat :: Stands(counted, p, user, fingerprint) <==> Stands(s, p, user, fingerprint)
    ensures forall after :: Filed(counted, after, peer, user, fingerprint) ==> Filed(s, after, peer, user, fingerprint)
  {}

  /** A caller that is not cleared, or whose device is trusted, changes no request. */
  lemma RequestRoutes(s: Core, peer: Peer, user: nat, passwordOk: bool, hold: bool, fingerprint: nat)
    ensures var r := RequestApproval(s, peer, user, passwordOk, hold, fingerprint);
            && (r.reply.Refused? <==> !Cleared(s, peer, user, passwordOk, hold))
            && (r.reply == AlreadyTrusted <==>
                Cleared(s, peer, user, passwordOk, hold) && Trusts(s, peer, user, fingerprint))
            && (if Cleared(s, peer, user, passwordOk, hold) && !Trusts(s, peer, user, fingerprint)
                then r == FileApproval(Counted(s, peer, ApprovalCounter), peer, user, fingerprint)
                else r.core == s.(rates := r.core.rates))
  {}

  /** A valid pending request is answered instead of a new one, and while a handler works on it the caller waits. */
  lemma ReusedExactlyWhen(s: Core, peer: Peer, user: nat, passwordOk: bool, hold: bool, fingerprint: nat, p: nat)
    requires OnePending(s.txns) && p < |s.txns|
    ensures var r := RequestApproval(s, peer, user, passwordOk, hold, fingerprint);
            && (r.reply == ApprovalPending(p) <==>
                && Cleared(s, peer, user, passwordOk, hold) && !Trusts(s, peer, user, fingerprint)
                && PendingAt(s, p, user, fingerprint) && p !in s.locks && s.clock < s.txns[p].expiresAt)
            && (r.reply == Waiting <==>
                && Cleared(s, peer, user, passwordOk, hold) && !Trusts(s, peer, user, fingerprint)
                && exists q: nat :: PendingAt(s, q, user, fingerprint) && q in s.locks)
  {
    RequestRoutes(s, peer, user, passwordOk, hold, fingerprint);
    if Cleared(s, peer, user, passwordOk, hold) && !Trusts(s, peer, user, fingerprint) {
      FilingMeaning(Counted(s, peer, ApprovalCounter), peer, user, fingerprint);
      SameRequests(s, Counted(s, peer, ApprovalCounter), peer, user, fingerprint);
    }
  }

  /** The refusals, in order: no peer, over the limit, no user or wrong password, locked, MFA or a hold. */
  lemma RefusedAs(s: Core, peer: Peer, user: nat, passwordOk: bool, hold: bool, fingerprint: nat)
    ensures var r := RequestApproval(s, peer, user, passwordOk, hold, fingerprint);
            if peer == Unknown then r == Outcome(s, Refused(400))
            else if RateLimiter.Denied(RateRow(s, peer, ApprovalCounter), s.clock) then r == Outcome(s, Refused(429))
            else if user !in s.users || !passwordOk then r.reply == Refused(401)
            else if s.users[user].status == Locked then r.reply == Refused(423)
            else (r.reply == Refused(409) <==> s.users[user].adminMfa || s.users[user].detectionMfa || hold)
  {}

  /**
   What approving answers, in order: no session, no such request of the caller's own, a
   handler at work on it, an expired one, which it marks, a failed or expired one, another
   address, and otherwise done; an approved request keeps its first approval.
   */
  lemma ApprovalAnswers(s: Core, token: nat, t: nat, peer: Peer, i: nat)
    requires Authenticate(s, token) == Some(i) && i < |s.book.sessions|
    ensures var r, me := Approve(s, token, t, peer), s.book.sessions[i];
            if t >= |s.txns| || s.txns[t].kind != TrustedDevice then r == Outcome(s, Refused(404))
            else if t in s.locks then r == Outcome(s, Waiting)
            else
              var x := s.txns[t];
              if x.user != me.user then r == Outcome(s, Refused(404))
              else if s.clock >= x.expiresAt then
                r == Outcome(s.(txns := s.txns[t := x.(status := Expired)]), Refused(410))
              else if x.status == Expired || x.status == Failed then r == Outcome(s, Refused(410))
              else if !SameIp(me.ip, peer) then r == Outcome(s, Refused(403))
              else
                && r.reply == Done
                && (x.approval.Some? ==> r.core.txns == s.txns[t := x.(status := Completed)])
                && (x.approval == None ==>
                      r.core.txns == s.txns[t := x.(status := Completed, approval := Some(Approval(s.clock, i)))])
  {}
}
