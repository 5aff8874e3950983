/**
 The handlers of the Core service, updating the tables in place. Each leaves the tables and
 the reply that its step describes, so that serving any requests, in any order, is a run of
 steps and keeps everything that runs keep.
 */
module CoreApp {
  import opened Basics
  import opened Network
  import opened Sessions
  import RateLimiter
  import Detection
  import opened Core
  import opened Challenges
  import opened Provenance

  class App {
    var clock: Time
    var users: map<nat, User>
    var sessions: seq<Session>
    var issued: seq<nat>
    var accepted: seq<nat>
    var txns: seq<Txn>
    var devices: map<(nat, nat), Device>
    var audit: seq<AuditRow>
    var rates: map<(Peer, Counter), RateLimiter.Row>
    var locks: map<nat, nat>
    var handlers: map<nat, Handler>

    ghost function State(): Core
      reads this
    {
      Core(clock, users, Book(sessions, issued, accepted), txns, devices, audit, rates, locks, handlers)
    }

    /** Tokens are tied to their sessions, rows, locks and handlers agree, sessions and transactions are paired. */
    ghost predicate Valid()
      reads this
    {
      Inv(State()) && Linked(State())
    }

    constructor (clock: Time, users: map<nat, User>)
      ensures State() == Start(clock, users) && Valid()
    {
      this.clock, this.users := clock, users;
      sessions, issued, accepted, txns, audit := [], [], [], [], [];
      devices, rates, locks, handlers := map[], map[], map[], map[];
    }

    // -------------------------------------------------------------------------
    // Sessions
    // -------------------------------------------------------------------------

    /** Flushes a new session and its audit row; the tokens are the next two. */
    method CreateSession(user: nat, peer: Peer, origin: Origin) returns (id: nat)
      requires user in users
      modifies this
      ensures State() == Issue(old(State()), user, peer, origin) && id == old(|sessions|)
    {
      var now := clock;
      id := |sessions|;
      var access := |issued|;
      var refresh := access + 1;
      issued := issued + [id, id];
      sessions := sessions + [Session(user, access, refresh, now, now + LIFETIME, None, None, SessionIp(peer), origin)];
      users := users[user := users[user].(lastLogin := Some(now))];
      audit := audit + [Note(LoginSuccess, id)];
    }

    /** The dependency of every bearer endpoint. */
    method GetAuthContext(token: nat) returns (session: Option<nat>)
      ensures session == Authenticate(State(), token)
      ensures session.Some? ==> session.value < |sessions| && sessions[session.value].user in users
    {
      session := FindAccess(sessions, token, clock);
      if session == None || session.value >= |sessions| {
        return None;
      }
      var owner := sessions[session.value].user;
      if owner !in users || users[owner].status != Active {
        return None;
      }
    }

    method RefreshToken(token: nat) returns (reply: Reply)
      modifies this
      ensures Outcome(State(), reply) == Refresh(old(State()), token)
    {
      var found := FindRefresh(sessions, token);
      if found == None || found.value >= |sessions| {
        return Refused(401);
      }
      var i := found.value;
      if sessions[i].expiresAt <= clock {
        return Refused(401);
      }
      accepted := accepted + [sessions[i].refresh];
      sessions := sessions[i := sessions[i].(access := |issued|)];
      sessions := sessions[i := sessions[i].(refresh := |issued| + 1)];
      issued := issued + [i, i];
      audit := audit + [Note(SessionRefreshed, i)];
      reply := Issued(i);
    }

    method LogoutCurrent(token: nat) returns (reply: Reply)
      modifies this
      ensures Outcome(State(), reply) == Logout(old(State()), token)
    {
      var me := GetAuthContext(token);
      if me == None {
        return Refused(401);
      }
      sessions := sessions[me.value := sessions[me.value].(revokedAt := Some(clock))];
      audit := audit + [Note(LoggedOut, me.value)];
      reply := Done;
    }

    /** The bulk update: every live session of the user, in one statement. */
    method RevokeSessions(user: nat) returns (revoked: nat)
      modifies this`sessions
      ensures sessions == EndAll(old(State()).book, user, clock, |audit|).sessions
      ensures revoked == LiveCount(old(sessions), user)
    {
      revoked := LiveCount(sessions, user);
      sessions := EndAll(Book(sessions, issued, accepted), user, clock, |audit|).sessions;
    }

    method LogoutEverywhere(token: nat) returns (reply: Reply)
      modifies this
      ensures Outcome(State(), reply) == LogoutAll(old(State()), token)
    {
      var me := GetAuthContext(token);
      if me == None {
        return Refused(401);
      }
      var user := sessions[me.value].user;
      var revoked := RevokeSessions(user);
      audit := audit + [Administrative(LoggedOutEverywhere, user, revoked)];
      reply := Done;
    }

    method RevokeOne(token: nat, target: nat) returns (reply: Reply)
      modifies this
      ensures Outcome(State(), reply) == RevokeSession(old(State()), token, target)
    {
      var me := GetAuthContext(token);
      if me == None {
        return Refused(401);
      }
      if target >= |sessions| {
        return Refused(404);
      }
      if sessions[target].user != sessions[me.value].user {
        return Refused(403);
      }
      sessions := sessions[target := sessions[target].(revokedAt := Some(clock))];
      audit := audit + [Note(SessionRevoked, target)];
      reply := Done;
    }

    // -------------------------------------------------------------------------
    // Login and OTP
    // -------------------------------------------------------------------------

    method RegisterUser(user: nat) returns (reply: Reply)
      modifies this
      ensures Outcome(State(), reply) == Register(old(State()), user)
    {
      if user in users {
        return Refused(409);
      }
      users := users[user := NewUser];
      audit := audit + [Note(Registered, user)];
      reply := Done;
    }

    /** Counts the request in its window, or refuses it without counting. */
    method CountRequest(peer: Peer, counter: Counter) returns (admitted: bool)
      modifies this`rates
      ensures admitted <==> !RateLimiter.Denied(RateRow(old(State()), peer, counter), clock)
      ensures State() == if admitted then Counted(old(State()), peer, counter) else old(State())
    {
      var key := (Merged(peer), counter);
      var row := if key in rates then Some(rates[key]) else None;
      if row.Some? && row.value.windowStart >= clock - MINUTE && row.value.count >= row.value.maxCount {
        return false;
      }
      if row.Some? {
        if row.value.windowStart < clock - MINUTE {
          rates := rates[key := row.value.(windowStart := clock, count := 1)];
        } else {
          rates := rates[key := row.value.(count := row.value.count + 1)];
        }
      } else {
        rates := rates[key := RateLimiter.Row(clock, 1, RateLimiter.DEFAULT_MAX)];
      }
      admitted := true;
    }

    method LoginUser(peer: Peer, user: nat, passwordOk: bool, hold: bool, code: nat) returns (reply: Reply)
      modifies this
      ensures Outcome(State(), reply) == Login(old(State()), peer, user, passwordOk, hold, code)
    {
      var admitted := CountRequest(peer, LoginCounter);
      if !admitted {
        return Refused(429);
      }
      if user !in users {
        return Refused(401);
      }
      if !passwordOk {
        users := users[user := users[user].(failedLogins := users[user].failedLogins + 1)];
        return Refused(401);
      }
      if users[user].status == Locked {
        return Refused(423);
      }
      users := users[user := users[user].(failedLogins := 0)];
      if hold {
        users := users[user := users[user].(detectionMfa := true)];
      }
      assert users == old(users)[user := Cleared(old(users)[user], hold)];
      reply := EnterAccount(peer, user, code);
    }

    /** The challenge, or the session on the spot. */
    method EnterAccount(peer: Peer, user: nat, code: nat) returns (reply: Reply)
      requires user in users
      modifies this
      ensures Outcome(State(), reply) == Enter(old(State()), peer, user, code)
    {
      if users[user].adminMfa || users[user].detectionMfa {
        var kind := if users[user].adminMfa then Persistent else OneTime;
        txns := txns + [Opened(user, kind, OtpBinding(peer), 0, code, clock)];
        return Challenge(|txns| - 1);
      }
      var id := CreateSession(user, peer, Direct);
      reply := Issued(id);
    }

    method VerifyBegin(h: nat, txn: nat, peer: Peer, code: nat) returns (reply: Reply)
      modifies this
      ensures Outcome(State(), reply) == VerifyArrive(old(State()), h, txn, peer, code)
    {
      reply := Waiting;
      if h !in handlers {
        handlers := handlers[h := VerifyArrived(txn, peer, code, clock)];
      }
    }

    method VerifyAcquire(h: nat) returns (reply: Reply)
      modifies this
      ensures Outcome(State(), reply) == VerifyLock(old(State()), h)
    {
      if h !in handlers || !handlers[h].VerifyArrived? {
        return Waiting;
      }
      var me := handlers[h];
      if me.txn >= |txns| {
        reply := Refused(404);
      } else if me.txn in locks {
        return Waiting;
      } else if txns[me.txn].kind == TrustedDevice {
        reply := Refused(409);
      } else {
        locks := locks[me.txn := h];
        handlers := handlers[h := Verifying(me.txn, me.peer, me.code, me.at, txns[me.txn])];
        return Waiting;
      }
      handlers := handlers[h := Answered(reply)];
    }

    /** Ends the transaction: the lock is dropped and the handler is done. */
    method Finish(h: nat, txn: nat, reply: Reply)
      modifies this`locks, this`handlers
      ensures State() == Release(old(State()), h, txn, reply)
    {
      locks := locks - {txn};
      handlers := handlers[h := Answered(reply)];
    }

    method ConsumeCode(t: nat, seen: Txn, peer: Peer, at: Time) returns (id: nat)
      requires t < |txns| && seen.user in users
      modifies this
      ensures State() == Consume(old(State()), t, seen, peer, at) && id == old(|sessions|)
    {
      txns := txns[t := txns[t].(status := Completed)];
      txns := txns[t := txns[t].(verifiedAt := Some(at))];
      if seen.kind == OneTime {
        users := users[seen.user := users[seen.user].(detectionMfa := false)];
      }
      id := CreateSession(seen.user, peer, Otp(t));
      txns := txns[t := txns[t].(session := Some(id))];
    }

    /** Everything `mfa_verify` does while it holds the row, up to the commit. */
    method VerifyCommit(h: nat) returns (reply: Reply)
      modifies this
      ensures Outcome(State(), reply) == VerifyFinish(old(State()), h)
    {
      if h !in handlers || !handlers[h].Verifying? {
        return Waiting;
      }
      var me := handlers[h];
      var t, seen := me.txn, me.seen;
      if t >= |txns| || seen.user !in users {
        reply := Refused(404);
      } else if seen.status == Completed || seen.status == Failed {
        reply := Refused(409);
      } else if seen.status == Expired {
        reply := Refused(401);
      } else if seen.expiresAt <= me.at {
        txns := txns[t := txns[t].(status := Expired)];
        reply := Refused(401);
      } else if seen.verifiedAt.Some? {
        reply := Refused(409);
      } else if me.code != seen.code {
        txns := txns[t := txns[t].(failCount := seen.failCount + 1)];
        if seen.failCount + 1 >= MAX_FAILURES {
          txns := txns[t := txns[t].(status := Failed)];
        }
        reply := Refused(401);
      } else if !OtpIpAccepted(seen.boundIp, me.peer) {
        reply := Refused(403);
      } else {
        var id := ConsumeCode(t, seen, me.peer, me.at);
        reply := Issued(id);
      }
      Finish(h, t, reply);
    }

    // -------------------------------------------------------------------------
    // Trusted devices
    // -------------------------------------------------------------------------

    method RequestTrust(peer: Peer, user: nat, passwordOk: bool, hold: bool, fingerprint: nat) returns (reply: Reply)
      modifies this
      ensures Outcome(State(), reply) == RequestApproval(old(State()), peer, user, passwordOk, hold, fingerprint)
    {
      if peer == Unknown {
        return Refused(400);
      }
      var admitted := CountRequest(peer, ApprovalCounter);
      if !admitted {
        return Refused(429);
      }
      if user !in users || !passwordOk {
        return Refused(401);
      }
      if users[user].status == Locked {
        return Refused(423);
      }
      if users[user].adminMfa || users[user].detectionMfa {
        return Refused(409);
      }
      if hold {
        return Refused(409);
      }
      if (user, fingerprint) in devices {
        var d := devices[(user, fingerprint)];
        if (d.expiresAt == None || d.expiresAt.value > clock) && SameIp(d.lastIp, peer) {
          return AlreadyTrusted;
        }
      }
      reply := FileRequest(peer, user, fingerprint);
    }

    /** Reuses a pending request of the same device or files a new one, expiring the old. */
    method FileRequest(peer: Peer, user: nat, fingerprint: nat) returns (reply: Reply)
      modifies this
      ensures Outcome(State(), reply) == FileApproval(old(State()), peer, user, fingerprint)
    {
      var pending := FindPending(txns, user, fingerprint);
      if pending.Some? && pending.value < |txns| {
        if pending.value in locks {
          return Waiting;
        }
        if txns[pending.value].expiresAt > clock {
          return ApprovalPending(pending.value);
        }
        txns := txns[pending.value := txns[pending.value].(status := Expired)];
      }
      txns := txns + [Opened(user, TrustedDevice, Some(DeviceBinding(peer)), fingerprint, 0, clock)];
      audit := audit + [Note(DeviceRequested, |txns| - 1)];
      reply := ApprovalPending(|txns| - 1);
    }

    method ApproveDevice(token: nat, t: nat, peer: Peer) returns (reply: Reply)
      modifies this
      ensures Outcome(State(), reply) == Approve(old(State()), token, t, peer)
    {
      var me := GetAuthContext(token);
      if me == None {
        return Refused(401);
      }
      var current := sessions[me.value];
      if t >= |txns| || txns[t].kind != TrustedDevice {
        return Refused(404);
      }
      if t in locks {
        return Waiting;
      }
      if txns[t].user != current.user {
        return Refused(404);
      }
      var now := clock;
      if txns[t].expiresAt <= now {
        txns := txns[t := txns[t].(status := Expired)];
        return Refused(410);
      }
      if txns[t].status == Expired || txns[t].status == Failed {
        return Refused(410);
      }
      if !SameIp(current.ip, peer) {
        return Refused(403);
      }
      devices := devices[(current.user, txns[t].fingerprint) := Device(txns[t].boundIp, Some(now + DEVICE_LIFETIME))];
      txns := txns[t := txns[t].(status := Completed)];
      if txns[t].approval == None {
        txns := txns[t := txns[t].(approval := Some(Approval(now, me.value)))];
      }
      audit := audit + [Note(DeviceApproved, t)];
      reply := Done;
    }

    method CompleteBegin(h: nat, txn: nat, peer: Peer, fingerprint: nat) returns (reply: Reply)
      modifies this
      ensures Outcome(State(), reply) == CompleteArrive(old(State()), h, txn, peer, fingerprint)
    {
      reply := Waiting;
      if h !in handlers {
        handlers := handlers[h := CompleteArrived(txn, peer, fingerprint)];
      }
    }

    /** Up to the gate call, which is made with the row locked. */
    method CompleteAcquire(h: nat) returns (reply: Reply)
      modifies this
      ensures Outcome(State(), reply) == CompleteLock(old(State()), h)
    {
      if h !in handlers || !handlers[h].CompleteArrived? {
        return Waiting;
      }
      var me := handlers[h];
      var t := me.txn;
      if t >= |txns| || txns[t].kind != TrustedDevice {
        reply := Refused(404);
      } else if t in locks {
        return Waiting;
      } else if txns[t].status == Pending {
        reply := Refused(409);
      } else if txns[t].status == Expired || txns[t].status == Failed {
        reply := Refused(410);
      } else if txns[t].consumedAt.Some? {
        reply := Refused(409);
      } else if txns[t].expiresAt <= clock {
        txns := txns[t := txns[t].(status := Expired)];
        reply := Refused(410);
      } else if !SameIp(txns[t].boundIp, me.peer) {
        reply := Refused(403);
      } else if me.fingerprint != txns[t].fingerprint {
        reply := Refused(403);
      } else if txns[t].user !in users || users[txns[t].user].status != Active {
        reply := Refused(401);
      } else if users[txns[t].user].adminMfa || users[txns[t].user].detectionMfa {
        txns := txns[t := txns[t].(status := Failed)];
        reply := Refused(409);
      } else {
        locks := locks[t := h];
        handlers := handlers[h := Gating(t, me.peer, clock)];
        return Waiting;
      }
      handlers := handlers[h := Answered(reply)];
    }

    method CompleteCommit(h: nat, hold: bool) returns (reply: Reply)
      modifies this
      ensures Outcome(State(), reply) == CompleteFinish(old(State()), h, hold)
    {
      if h !in handlers || !handlers[h].Gating? {
        return Waiting;
      }
      var me := handlers[h];
      var t := me.txn;
      if t >= |txns| || txns[t].user !in users {
        reply := Refused(401);
      } else if hold {
        txns := txns[t := txns[t].(status := Failed)];
        reply := Refused(409);
      } else {
        txns := txns[t := txns[t].(consumedAt := Some(me.at))];
        var id := CreateSession(txns[t].user, me.peer, Trusted(t));
        txns := txns[t := txns[t].(session := Some(id))];
        audit := audit + [Note(DeviceLogin, t)];
        reply := Issued(id);
      }
      Finish(h, t, reply);
    }

    // -------------------------------------------------------------------------
    // Protective actions
    // -------------------------------------------------------------------------

    /** The four actions on the account and its sessions. */
    method CarryOut(action: ProtectiveAction, user: nat) returns (already: bool, revoked: nat)
      requires user in users
      modifies this`users, this`sessions
      ensures users == old(users)[user := Protected(old(users)[user], action, clock)]
      ensures sessions == EndAll(old(State()).book, user, clock, |audit|).sessions
      ensures revoked == LiveCount(old(sessions), user) && already == InEffect(old(users)[user], action, revoked)
    {
      already, revoked := false, 0;
      match action {
        case RequireMfa =>
          already := users[user].detectionMfa;
          users := users[user := users[user].(detectionMfa := true)];
          revoked := RevokeSessions(user);
        case RevokeSessions =>
          revoked := RevokeSessions(user);
          already := revoked == 0;
        case LockUser =>
          already := users[user].status == Locked;
          if !already {
            users := users[user := users[user].(status := Locked, lockedAt := Some(clock))];
          }
          revoked := RevokeSessions(user);
        case ForceLogout =>
          revoked := RevokeSessions(user);
          already := revoked == 0;
      }
    }

    method Enforce(action: ProtectiveAction, user: nat, key: Option<string>, reason: string) returns (reply: Reply)
      modifies this
      ensures Outcome(State(), reply) == ApplyAction(old(State()), action, user, key, reason)
    {
      if user !in users {
        return Refused(404);
      }
      var keyed := KeyedReason(key);
      if keyed.Some? {
        if Recorded(audit, action, user, keyed.value) {
          return Enforced(true, 0);
        }
      }
      var already, revoked := CarryOut(action, user);
      audit := audit + [Protective(action, user, if keyed.Some? then keyed.value else reason, revoked)];
      reply := Enforced(already, revoked);
    }

    // -------------------------------------------------------------------------
    // Identity administration
    // -------------------------------------------------------------------------

    /** True when removing the role or locking the target must be refused. */
    method GuardLastActiveAdmin(target: nat, role: Role) returns (refuse: bool)
      requires target in users
      ensures refuse <==> LastAdminGuard(State(), users[target], role)
    {
      if role != SecurityAdmin || users[target].status != Active {
        return false;
      }
      var count := |ActiveAdmins(users)|;
      refuse := count <= 1;
    }

    method Assign(user: nat, role: Role) returns (reply: Reply)
      modifies this
      ensures Outcome(State(), reply) == AssignRole(old(State()), user, role)
    {
      if user !in users {
        return Refused(404);
      }
      if role !in users[user].roles {
        users := users[user := users[user].(roles := users[user].roles + {role})];
        var revoked := RevokeSessions(user);
        audit := audit + [Administrative(RoleAssigned, user, revoked)];
      }
      reply := Done;
    }

    method Unassign(user: nat, role: Role) returns (reply: Reply)
      modifies this
      ensures Outcome(State(), reply) == RevokeRole(old(State()), user, role)
    {
      if role == BaseUser {
        return Refused(422);
      }
      if user !in users {
        return Refused(404);
      }
      if role !in users[user].roles {
        return Refused(404);
      }
      var refuse := GuardLastActiveAdmin(user, role);
      if refuse {
        return Refused(409);
      }
      users := users[user := users[user].(roles := users[user].roles - {role})];
      var revoked := RevokeSessions(user);
      audit := audit + [Administrative(RoleRevoked, user, revoked)];
      reply := Done;
    }

    method Lock(user: nat) returns (reply: Reply)
      modifies this
      ensures Outcome(State(), reply) == LockAccount(old(State()), user)
    {
      if user !in users {
        return Refused(404);
      }
      if users[user].status != Locked {
        var refuse := GuardLastActiveAdmin(user, SecurityAdmin);
        if refuse {
          return Refused(409);
        }
        users := users[user := users[user].(status := Locked, lockedAt := Some(clock))];
        var revoked := RevokeSessions(user);
        audit := audit + [Administrative(AccountLocked, user, revoked)];
      }
      reply := Done;
    }

    method Unlock(user: nat) returns (reply: Reply)
      modifies this
      ensures Outcome(State(), reply) == UnlockAccount(old(State()), user)
    {
      if user !in users {
        return Refused(404);
      }
      users := users[user := users[user].(status := Active)];
      users := users[user := users[user].(lockedAt := None)];
      audit := audit + [Note(AccountUnlocked, user)];
      reply := Done;
    }

    method SetMfa(user: nat, required: bool) returns (reply: Reply)
      modifies this
      ensures Outcome(State(), reply) == ToggleMfa(old(State()), user, required)
    {
      if user !in users {
        return Refused(404);
      }
      users := users[user := users[user].(adminMfa := required)];
      var revoked := RevokeSessions(user);
      audit := audit + [Administrative(MfaToggled, user, revoked)];
      reply := Done;
    }

    // -------------------------------------------------------------------------
    // Serving
    // -------------------------------------------------------------------------

    /** Time passes, the device pages are used, or a handler dies and its transaction is rolled back. */
    method Happen(step: Step) returns (reply: Reply)
      requires step.Tick? || step.EditDevices? || step.CrashStep?
      modifies this
      ensures Outcome(State(), reply) == Take(old(State()), step)
    {
      match step {
        case Tick(elapsed) =>
          clock := clock + elapsed;
          reply := Done;
        case EditDevices(pages) =>
          devices := pages;
          reply := Done;
        case CrashStep(h) =>
          if h !in handlers {
            return Waiting;
          }
          reply := Refused(500);
          if handlers[h].Verifying? || handlers[h].Gating? {
            locks := locks - {handlers[h].txn};
          }
          handlers := handlers[h := Answered(reply)];
      }
    }

    method ServeLogin(step: Step) returns (reply: Reply)
      requires step.RegisterStep? || step.LoginStep? || step.VerifyArriveStep? || step.VerifyLockStep?
               || step.VerifyFinishStep?
      modifies this
      ensures Outcome(State(), reply) == Take(old(State()), step)
    {
      match step {
        case RegisterStep(user) => reply := RegisterUser(user);
        case LoginStep(peer, user, passwordOk, hold, code) => reply := LoginUser(peer, user, passwordOk, hold, code);
        case VerifyArriveStep(h, txn, peer, code) => reply := VerifyBegin(h, txn, peer, code);
        case VerifyLockStep(h) => reply := VerifyAcquire(h);
        case VerifyFinishStep(h) => reply := VerifyCommit(h);
      }
    }

    method ServeDevice(step: Step) returns (reply: Reply)
      requires step.RequestStep? || step.ApproveStep? || step.CompleteArriveStep? || step.CompleteLockStep?
               || step.CompleteFinishStep?
      modifies this
      ensures Outcome(State(), reply) == Take(old(State()), step)
    {
      match step {
        case RequestStep(peer, user, passwordOk, hold, fingerprint) =>
          reply := RequestTrust(peer, user, passwordOk, hold, fingerprint);
        case ApproveStep(token, txn, peer) => reply := ApproveDevice(token, txn, peer);
        case CompleteArriveStep(h, txn, peer, fingerprint) => reply := CompleteBegin(h, txn, peer, fingerprint);
        case CompleteLockStep(h) => reply := CompleteAcquire(h);
        case CompleteFinishStep(h, hold) => reply := CompleteCommit(h, hold);
      }
    }

    method ServeSession(step: Step) returns (reply: Reply)
      requires step.RefreshStep? || step.LogoutStep?
      modifies this
      ensures Outcome(State(), reply) == Take(old(State()), step)
    {
      match step {
        case RefreshStep(token) => reply := RefreshToken(token);
        case LogoutStep(token) => reply := LogoutCurrent(token);
      }
    }

    method ServeRevocation(step: Step) returns (reply: Reply)
      requires step.LogoutAllStep? || step.RevokeSessionStep?
      modifies this
      ensures Outcome(State(), reply) == Take(old(State()), step)
    {
      match step {
        case LogoutAllStep(token) => reply := LogoutEverywhere(token);
        case RevokeSessionStep(token, target) => reply := RevokeOne(token, target);
      }
    }

    method ServeAccount(step: Step) returns (reply: Reply)
      requires step.LockStep? || step.UnlockStep?
      modifies this
      ensures Outcome(State(), reply) == Take(old(State()), step)
    {
      match step {
        case LockStep(user) => reply := Lock(user);
        case UnlockStep(user) => reply := Unlock(user);
      }
    }

    method ServeRole(step: Step) returns (reply: Reply)
      requires step.AssignRoleStep? || step.RevokeRoleStep?
      modifies this
      ensures Outcome(State(), reply) == Take(old(State()), step)
    {
      match step {
        case AssignRoleStep(user, role) => reply := Assign(user, role);
        case RevokeRoleStep(user, role) => reply := Unassign(user, role);
      }
    }

    method ServeEnforcement(step: Step) returns (reply: Reply)
      requires step.ActionStep? || step.ToggleMfaStep?
      modifies this
      ensures Outcome(State(), reply) == Take(old(State()), step)
    {
      match step {
        case ActionStep(action, user, key, reason) => reply := Enforce(action, user, key, reason);
        case ToggleMfaStep(user, required) => reply := SetMfa(user, required);
      }
    }

    /** One request, routed to its handler. */
    method Serve(step: Step) returns (reply: Reply)
      requires Valid()
      modifies this
      ensures Outcome(State(), reply) == Take(old(State()), step) && Valid()
    {
      StepKeepsValid(State(), step);
      if step.RegisterStep? || step.LoginStep? || step.VerifyArriveStep? || step.VerifyLockStep?
         || step.VerifyFinishStep? {
        reply := ServeLogin(step);
      } else if step.RequestStep? || step.ApproveStep? || step.CompleteArriveStep? || step.CompleteLockStep?
                || step.CompleteFinishStep? {
        reply := ServeDevice(step);
      } else if step.RefreshStep? || step.LogoutStep? {
        reply := ServeSession(step);
      } else if step.LogoutAllStep? || step.RevokeSessionStep? {
        reply := ServeRevocation(step);
      } else if step.ActionStep? || step.ToggleMfaStep? {
        reply := ServeEnforcement(step);
      } else if step.Tick? || step.EditDevices? || step.CrashStep? {
        reply := Happen(step);
      } else if step.AssignRoleStep? || step.RevokeRoleStep? {
        reply := ServeRole(step);
      } else {
        reply := ServeAccount(step);
      }
    }
  }

  lemma StepKeepsValid(s: Core, step: Step)
    requires Inv(s) && Linked(s)
    ensures Inv(Apply(s, step)) && Linked(Apply(s, step))
  {
    StepKeepsDesk(s, step);
    StepGrows(s, step);
    StepKeepsLinks(s, step);
  }
}
