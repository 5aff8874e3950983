/**
 Event delivery, scoring, recovery and enforcement as an interleaving of steps.
 Any number of deliveries of any events run concurrently with one recovery sweep;
 they interleave at database reads and commits. A commit may fail, succeed, or
 succeed without its caller learning of it, and a process may stop at any point.
 Verdicts are arbitrary: rules, policy changes, the clock and ML are all free.
 */
module Delivery {
  import opened Basics
  import opened Features
  import opened Scoring
  import opened Detection

  /** Where a delivery handler stands. */
  datatype Handler =
    | Arrived(event: nat, login: Login)
    | Inserting(event: nat, login: Login)
    | Reading(a: nat)
    | Committing(a: nat, seen: Snapshot)
    | Parking(a: nat)
    | Enforcing(a: nat, level: Level)
    | Answered

  /** Where the recovery sweep stands; `queue` is what its query returned and it has not reached yet. */
  datatype Sweep =
    | Idle
    | Between(queue: seq<nat>)
    | Rescoring(a: nat, seen: Snapshot, queue: seq<nat>)
    | Calling(a: nat, level: Level, queue: seq<nat>)

  /**
   The history of one attempt: which handler inserted it, how many scoring runs
   returned normally for it, how many calls to Core were made for it, and the level the
   last call was made for.
   */
  datatype Trace = Trace(inserter: nat, returned: nat, enforced: nat, called: Option<Level>)

  /** `traces` runs parallel to the attempts table. */
  datatype World = World(store: Store, handlers: map<nat, Handler>, sweep: Sweep, traces: seq<Trace>)

  datatype Step =
    | Deliver(h: nat, event: nat, login: Login)
    | LookUp(h: nat)
    | CommitInsert(h: nat, outcome: Commit)
    | ReadRows(h: nat)
    | ScoringRaises(h: nat)
    | CommitScore(h: nat, verdict: Verdict, outcome: Commit)
    | CommitPark(h: nat, outcome: Commit)
    | CallCore(h: nat)
    | Stop(h: nat)
    | StartSweep(queue: seq<nat>)
    | SweepRead
    | SweepRaises
    | SweepCommit(verdict: Verdict, outcome: Commit)
    | SweepCall
    | StopSweep

  const Start := World(Store([], map[], [], [], []), map[], Idle, [])

  function To(w: World, h: nat, next: Handler): World {
    w.(handlers := w.handlers[h := next])
  }

  function Returns(traces: seq<Trace>, a: nat): seq<Trace> {
    if a < |traces| then traces[a := traces[a].(returned := traces[a].returned + 1)] else traces
  }

  function Enforces(traces: seq<Trace>, a: nat, level: Level): seq<Trace> {
    if a < |traces| then traces[a := traces[a].(enforced := traces[a].enforced + 1, called := Some(level))] else traces
  }

  /** The query of the sweep: distinct failed rows, in any order, up to any limit. */
  predicate QueryResult(s: Store, queue: seq<nat>) {
    && (forall i, j :: 0 <= i < j < |queue| ==> queue[i] != queue[j])
    && (forall k :: 0 <= k < |queue| ==> queue[k] < |s.attempts| && s.attempts[queue[k]].status == Failed)
  }

  /** The handler's next step; a step that does not match where the handler stands does nothing. */
  function HandlerStep(w: World, step: Step, h: nat, now: Handler): World {
    match (step, now)
    case (LookUp(_), Arrived(event, login)) =>
      To(w, h, if Known(w.store, event) then Answered else Inserting(event, login))
    case (CommitInsert(_, outcome), Inserting(event, login)) =>
      // The unique constraint on event_id arbitrates: the loser returns the winner's row.
      if outcome == FailsBefore || Known(w.store, event) then To(w, h, Answered)
      else To(w.(store := InsertRow(w.store, event, login), traces := w.traces + [Trace(h, 0, 0, None)]), h,
              if outcome == ReplyLost then Answered else Reading(|w.store.attempts|))
    case (ReadRows(_), Reading(a)) =>
      To(w, h, Committing(a, Look(w.store, a)))
    case (ScoringRaises(_), Reading(a)) => To(w, h, Parking(a))
    case (ScoringRaises(_), Committing(a, _)) => To(w, h, Parking(a))
    case (CommitScore(_, verdict, outcome), Committing(a, seen)) =>
      if a >= |w.store.attempts| then w
      else
        var written := Persist(w.store, a, seen, verdict);
        if written == None || outcome == FailsBefore then To(w, h, Parking(a))
        else if outcome == ReplyLost then To(w.(store := written.value), h, Parking(a))
        else
          To(w.(store := written.value, traces := Returns(w.traces, a)), h, Enforcing(a, VerdictLevel(verdict)))
    case (CommitPark(_, outcome), Parking(a)) =>
      if a >= |w.store.attempts| then w
      else To(if outcome == FailsBefore then w else w.(store := Park(w.store, a)), h, Answered)
    case (CallCore(_), Enforcing(a, level)) =>
      if a >= |w.store.attempts| then w
      else To(if CallsCore(w.store.attempts[a].login, level) then w.(traces := Enforces(w.traces, a, level)) else w,
              h, Answered)
    case (Stop(_), _) => To(w, h, Answered)
    case _ => w
  }

  function SweepStep(w: World, step: Step): World {
    match (step, w.sweep)
    case (StartSweep(queue), Idle) =>
      if QueryResult(w.store, queue) then w.(sweep := Between(queue)) else w
    case (SweepRead, Between(queue)) =>
      if queue == [] then w.(sweep := Idle)
      else w.(sweep := Rescoring(queue[0], Look(w.store, queue[0]), queue[1..]))
    case (SweepRaises, Rescoring(_, _, queue)) => w.(sweep := Between(queue))
    case (SweepCommit(verdict, outcome), Rescoring(a, seen, queue)) =>
      if a >= |w.store.attempts| then w
      else
        var written := Persist(w.store, a, seen, verdict);
        if written == None || outcome == FailsBefore then w.(sweep := Between(queue))
        else if outcome == ReplyLost then w.(store := written.value, sweep := Between(queue))
        else
          w.(store := written.value, traces := Returns(w.traces, a), sweep := Calling(a, VerdictLevel(verdict), queue))
    case (SweepCall, Calling(a, level, queue)) =>
      if a >= |w.store.attempts| then w
      else (if CallsCore(w.store.attempts[a].login, level) then w.(traces := Enforces(w.traces, a, level)) else w)
           .(sweep := Between(queue))
    case (StopSweep, _) => w.(sweep := Idle)
    case _ => w
  }

  function Apply(w: World, step: Step): World {
    match step
    case Deliver(h, event, login) => if h in w.handlers then w else To(w, h, Arrived(event, login))
    case StartSweep(_) => SweepStep(w, step)
    case SweepRead => SweepStep(w, step)
    case SweepRaises => SweepStep(w, step)
    case SweepCommit(_, _) => SweepStep(w, step)
    case SweepCall => SweepStep(w, step)
    case StopSweep => SweepStep(w, step)
    case _ => if step.h in w.handlers then HandlerStep(w, step, step.h, w.handlers[step.h]) else w
  }

  function Run(w: World, steps: seq<Step>): World {
    if steps == [] then w else Apply(Run(w, steps[..|steps| - 1]), steps[|steps| - 1])
  }

  // ---------------------------------------------------------------------------
  // The invariant
  // ---------------------------------------------------------------------------

  /** Everything a process may know about attempt a. */
  ghost predicate Agree(w: World, after: World, a: nat) {
    && a < |w.store.attempts| && a < |after.store.attempts| && a < |w.traces| && a < |after.traces|
    && after.store.attempts[a] == w.store.attempts[a]
    && after.traces[a] == w.traces[a]
    && Look(after.store, a) == Look(w.store, a)
  }

  ghost predicate InTables(w: World, a: nat) {
    a < |w.store.attempts| && a < |w.traces|
  }

  /** The handler scoring or parking an attempt inserted it; nobody has scored or parked it yet. */
  ghost predicate Owns(w: World, h: nat, a: nat) {
    InTables(w, a) && w.traces[a].inserter == h && w.traces[a].returned == 0 && w.store.attempts[a].status != Failed
  }

  ghost predicate HandlerOk(w: World, h: nat, now: Handler) {
    match now
    case Reading(a) => Owns(w, h, a)
    case Committing(a, seen) => Owns(w, h, a) && seen == Look(w.store, a)
    case Parking(a) => Owns(w, h, a)
    case Enforcing(a, level) =>
      && InTables(w, a) && w.traces[a].inserter == h && Due(w, a, level) && !Owes(w.sweep, a)
    case _ => true
  }

  /** Scoring has returned with the stored level, and the call for it has not been made. */
  ghost predicate Due(w: World, a: nat, level: Level)
    requires InTables(w, a)
  {
    && w.traces[a].returned == 1 && w.traces[a].enforced == 0
    && w.store.attempts[a].status == Processed && w.store.attempts[a].level == Some(level)
  }

  predicate Owes(sweep: Sweep, a: nat) {
    sweep.Calling? && sweep.a == a
  }

  ghost predicate SweepOk(w: World) {
    match w.sweep
    case Idle => true
    case Between(queue) => QueryResult(w.store, queue)
    case Rescoring(a, seen, queue) =>
      && QueryResult(w.store, queue) && a !in queue
      && InTables(w, a) && w.store.attempts[a].status == Failed && seen == Look(w.store, a)
    case Calling(a, level, queue) =>
      QueryResult(w.store, queue) && InTables(w, a) && Due(w, a, level)
  }

  /**
   A run returns at most once, only a processed attempt has returned, calls never outnumber
   returns, and a call was made for the level the attempt carries, when that demands one.
   */
  ghost predicate TraceOk(w: World, a: nat) {
    && InTables(w, a)
    && w.traces[a].enforced <= w.traces[a].returned <= 1
    && (w.traces[a].returned == 1 ==> w.store.attempts[a].status == Processed)
    && (w.traces[a].enforced == 1 <==> w.traces[a].called.Some?)
    && (w.traces[a].called.Some? ==>
          && w.store.attempts[a].level == w.traces[a].called
          && CallsCore(w.store.attempts[a].login, w.traces[a].called.value))
  }

  ghost predicate Protocol(w: World) {
    && |w.traces| == |w.store.attempts|
    && (forall h :: h in w.handlers ==> HandlerOk(w, h, w.handlers[h]))
    && (forall a :: 0 <= a < |w.traces| ==> TraceOk(w, a))
    && SweepOk(w)
  }

  ghost predicate Inv(w: World) {
    Sound(w.store) && Protocol(w)
  }

  // ---------------------------------------------------------------------------
  // Local changes
  // ---------------------------------------------------------------------------

  /** A step that changes at most attempt a's rows and trace. */
  ghost predicate OnlyAt(w: World, after: World, a: nat) {
    && |after.store.attempts| == |w.store.attempts| && |after.traces| == |w.traces|
    && forall b :: 0 <= b < |w.store.attempts| && b != a ==> Agree(w, after, b)
  }

  /** The attempt a handler is concerned with. */
  function Concern(now: Handler): Option<nat> {
    match now
    case Reading(a) => Some(a)
    case Committing(a, _) => Some(a)
    case Parking(a) => Some(a)
    case Enforcing(a, _) => Some(a)
    case _ => None
  }

  lemma HandlerFrame(w: World, after: World, h: nat, now: Handler)
    requires HandlerOk(w, h, now)
    requires Concern(now).Some? ==> Agree(w, after, Concern(now).value)
    requires now.Enforcing? ==> !Owes(after.sweep, now.a)
    ensures HandlerOk(after, h, now)
  {}

  lemma QueueFrame(w: World, after: World, queue: seq<nat>, a: nat)
    requires |w.traces| == |w.store.attempts| && OnlyAt(w, after, a) && QueryResult(w.store, queue) && a !in queue
    ensures QueryResult(after.store, queue)
  {
    forall k | 0 <= k < |queue|
      ensures queue[k] < |after.store.attempts| && after.store.attempts[queue[k]].status == Failed
    {
      assert queue[k] in queue;
      assert Agree(w, after, queue[k]);
    }
  }

  /** An attempt that is not failed is in no queue. */
  lemma NotQueued(s: Store, queue: seq<nat>, a: nat)
    requires QueryResult(s, queue) && a < |s.attempts| && s.attempts[a].status != Failed
    ensures a !in queue
  {}

  lemma PersistLocal(s: Store, a: nat, verdict: Verdict)
    requires Sound(s) && a < |s.attempts|
    ensures Persist(s, a, Look(s, a), verdict).Some?
    ensures var after := Persist(s, a, Look(s, a), verdict).value;
            && Sound(after) && |after.attempts| == |s.attempts| && after.attempts[a].status == Processed
            && after.attempts[a].level == Some(VerdictLevel(verdict)) && after.attempts[a].login == s.attempts[a].login
            && forall b :: 0 <= b < |s.attempts| && b != a ==>
                 after.attempts[b] == s.attempts[b] && Look(after, b) == Look(s, b)
  {
    PersistKeepsSound(s, a, verdict);
    var after := Persist(s, a, Look(s, a), verdict).value;
    forall b | 0 <= b < |s.attempts| && b != a ensures Look(after, b) == Look(s, b) {
      AlertOfAppend(s.alerts, after.alerts, b);
    }
  }

  lemma AlertOfAppend(alerts: seq<Alert>, more: seq<Alert>, b: nat)
    requires more == alerts || (|more| == |alerts| + 1 && more[..|alerts|] == alerts && more[|alerts|].attempt != b)
    ensures AlertOf(more, b) == AlertOf(alerts, b)
  {}

  /** Handler h changes the attempt it inserted: everybody else is untouched. */
  lemma OwnerMoves(w: World, after: World, h: nat, a: nat)
    requires Protocol(w) && h in w.handlers && InTables(w, a) && w.traces[a].inserter == h && OnlyAt(w, after, a)
    requires h in after.handlers && after.handlers == w.handlers[h := after.handlers[h]] && after.sweep == w.sweep
    requires HandlerOk(after, h, after.handlers[h]) && TraceOk(after, a) && SweepOk(after)
    ensures Protocol(after)
  {
    forall p | p in after.handlers ensures HandlerOk(after, p, after.handlers[p]) {
      if p != h {
        assert HandlerOk(w, p, w.handlers[p]);
        OthersUnconcerned(w, p, h, a);
        HandlerFrame(w, after, p, w.handlers[p]);
      }
    }
    TracesFrame(w, after, a);
  }

  lemma OthersUnconcerned(w: World, p: nat, h: nat, a: nat)
    requires p in w.handlers && HandlerOk(w, p, w.handlers[p]) && p != h && InTables(w, a) && w.traces[a].inserter == h
    ensures Concern(w.handlers[p]) != Some(a)
    ensures Concern(w.handlers[p]).Some? ==> InTables(w, Concern(w.handlers[p]).value)
  {}

  lemma TracesFrame(w: World, after: World, a: nat)
    requires Protocol(w) && OnlyAt(w, after, a) && (a < |after.traces| ==> TraceOk(after, a))
    ensures forall b :: 0 <= b < |after.traces| ==> TraceOk(after, b)
  {
    forall b | 0 <= b < |after.traces| ensures TraceOk(after, b) {
      if b != a {
        assert TraceOk(w, b) && Agree(w, after, b);
      }
    }
  }

  /** The sweep changes an attempt that no handler is concerned with. */
  lemma SweepMoves(w: World, after: World, a: nat)
    requires Protocol(w) && OnlyAt(w, after, a) && after.handlers == w.handlers && InTables(w, a)
    requires forall p :: p in w.handlers ==> Concern(w.handlers[p]) != Some(a)
    requires after.sweep.Calling? ==> after.sweep.a == a
    requires TraceOk(after, a) && SweepOk(after)
    ensures Protocol(after)
  {
    forall p | p in after.handlers ensures HandlerOk(after, p, after.handlers[p]) {
      assert HandlerOk(w, p, w.handlers[p]);
      if Concern(w.handlers[p]).Some? {
        assert Agree(w, after, Concern(w.handlers[p]).value);
      }
      HandlerFrame(w, after, p, w.handlers[p]);
    }
    TracesFrame(w, after, a);
  }

  lemma SweepIgnores(w: World, after: World, a: nat)
    requires Protocol(w) && OnlyAt(w, after, a) && after.sweep == w.sweep
    requires InTables(w, a) && w.traces[a].returned == 0 && w.store.attempts[a].status != Failed
    ensures SweepOk(after)
  {
    if !w.sweep.Idle? {
      NotQueued(w.store, w.sweep.queue, a);
      QueueFrame(w, after, w.sweep.queue, a);
      if !w.sweep.Between? {
        assert w.sweep.a != a;
        assert Agree(w, after, w.sweep.a);
      }
    }
  }

  // ---------------------------------------------------------------------------
  // Steps
  // ---------------------------------------------------------------------------

  lemma InsertMoves(w: World, h: nat, outcome: Commit)
    requires Inv(w) && h in w.handlers && w.handlers[h].Inserting?
    ensures Inv(HandlerStep(w, CommitInsert(h, outcome), h, w.handlers[h]))
  {
    var event, login := w.handlers[h].event, w.handlers[h].login;
    var after := HandlerStep(w, CommitInsert(h, outcome), h, w.handlers[h]);
    if outcome == FailsBefore || Known(w.store, event) {
      QuietMoves(w, after, h);
    } else {
      InsertKeepsSound(w.store, event, login);
      forall b | 0 <= b < |w.traces| ensures Agree(w, after, b) {}
      forall p | p in after.handlers ensures HandlerOk(after, p, after.handlers[p]) {
        if p != h {
          assert HandlerOk(w, p, w.handlers[p]);
          HandlerFrame(w, after, p, w.handlers[p]);
        }
      }
      forall b | 0 <= b < |after.traces| ensures TraceOk(after, b) {
        if b < |w.traces| {
          assert TraceOk(w, b) && Agree(w, after, b);
        }
      }
    }
  }

  /** Reading, raising and stopping change nothing but the handler's position. */
  lemma QuietMoves(w: World, after: World, h: nat)
    requires Inv(w) && h in after.handlers && after == w.(handlers := w.handlers[h := after.handlers[h]])
    requires HandlerOk(after, h, after.handlers[h])
    ensures Inv(after)
  {
    forall p | p in after.handlers ensures HandlerOk(after, p, after.handlers[p]) {
      if p != h {
        assert HandlerOk(w, p, w.handlers[p]);
        HandlerFrame(w, after, p, w.handlers[p]);
      }
    }
    forall b | 0 <= b < |after.traces| ensures TraceOk(after, b) {
      assert TraceOk(w, b);
    }
  }

  lemma ScoreMoves(w: World, h: nat, verdict: Verdict, outcome: Commit)
    requires Inv(w) && h in w.handlers && w.handlers[h].Committing?
    ensures Inv(HandlerStep(w, CommitScore(h, verdict, outcome), h, w.handlers[h]))
  {
    var a, seen := w.handlers[h].a, w.handlers[h].seen;
    assert HandlerOk(w, h, w.handlers[h]);
    PersistLocal(w.store, a, verdict);
    var after := HandlerStep(w, CommitScore(h, verdict, outcome), h, w.handlers[h]);
    if outcome == FailsBefore {
      QuietMoves(w, after, h);
    } else {
      assert TraceOk(w, a);
      SweepIgnores(w, after, a);
      OwnerMoves(w, after, h, a);
    }
  }

  lemma ParkMoves(w: World, h: nat, outcome: Commit)
    requires Inv(w) && h in w.handlers && w.handlers[h].Parking?
    ensures Inv(HandlerStep(w, CommitPark(h, outcome), h, w.handlers[h]))
  {
    var a := w.handlers[h].a;
    assert HandlerOk(w, h, w.handlers[h]);
    var after := HandlerStep(w, CommitPark(h, outcome), h, w.handlers[h]);
    if outcome == FailsBefore {
      QuietMoves(w, after, h);
    } else {
      ParkKeepsSound(w.store, a);
      assert TraceOk(w, a);
      SweepIgnores(w, after, a);
      OwnerMoves(w, after, h, a);
    }
  }

  lemma CallMoves(w: World, h: nat)
    requires Inv(w) && h in w.handlers && w.handlers[h].Enforcing?
    ensures Inv(HandlerStep(w, CallCore(h), h, w.handlers[h]))
  {
    var a := w.handlers[h].a;
    assert HandlerOk(w, h, w.handlers[h]);
    var after := HandlerStep(w, CallCore(h), h, w.handlers[h]);
    assert OnlyAt(w, after, a);
    assert TraceOk(w, a);
    CallSparesSweep(w, after, a);
    OwnerMoves(w, after, h, a);
  }

  lemma CallSparesSweep(w: World, after: World, a: nat)
    requires SweepOk(w) && OnlyAt(w, after, a) && after.store == w.store && after.sweep == w.sweep && !Owes(w.sweep, a)
    ensures SweepOk(after)
  {
    if w.sweep.Calling? {
      assert Agree(w, after, w.sweep.a);
    }
  }

  /** Looking up, reading, raising and stopping, or a step that does not match where the handler stands. */
  lemma PositionMoves(w: World, step: Step, h: nat)
    requires Inv(w) && h in w.handlers
    requires step.LookUp? || step.ReadRows? || step.ScoringRaises? || step.Stop?
    ensures Inv(HandlerStep(w, step, h, w.handlers[h]))
  {
    var after := HandlerStep(w, step, h, w.handlers[h]);
    assert HandlerOk(w, h, w.handlers[h]);
    if after != w {
      QuietMoves(w, after, h);
    }
  }

  lemma HandlerKeepsInv(w: World, step: Step, h: nat)
    requires Inv(w) && h in w.handlers
    ensures Inv(HandlerStep(w, step, h, w.handlers[h]))
  {
    var now := w.handlers[h];
    if step.LookUp? || step.ReadRows? || step.ScoringRaises? || step.Stop? {
      PositionMoves(w, step, h);
    } else {
      CommitKeepsInv(w, step, h, now);
    }
  }

  lemma CommitKeepsInv(w: World, step: Step, h: nat, now: Handler)
    requires Inv(w) && h in w.handlers && w.handlers[h] == now
    requires !step.LookUp? && !step.ReadRows? && !step.ScoringRaises? && !step.Stop?
    ensures Inv(HandlerStep(w, step, h, now))
  {
    if step.CommitInsert? && now.Inserting? {
      InsertMoves(w, h, step.outcome);
    } else if step.CommitScore? && now.Committing? {
      ScoreMoves(w, h, step.verdict, step.outcome);
    } else if step.CommitPark? && now.Parking? {
      ParkMoves(w, h, step.outcome);
    } else if step.CallCore? && now.Enforcing? {
      CallMoves(w, h);
    } else {
      assert HandlerStep(w, step, h, now) == w;
    }
  }

  lemma SweepCommitMoves(w: World, verdict: Verdict, outcome: Commit)
    requires Inv(w) && w.sweep.Rescoring?
    ensures Inv(SweepStep(w, SweepCommit(verdict, outcome)))
  {
    var after := SweepStep(w, SweepCommit(verdict, outcome));
    PersistLocal(w.store, w.sweep.a, verdict);
    if outcome == FailsBefore {
      SweepQuiet(w, after);
    } else {
      SweepWrites(w, after, verdict);
    }
  }

  /** The sweep's transaction is in the tables, and the sweep knows it or not. */
  lemma SweepWrites(w: World, after: World, verdict: Verdict)
    requires Inv(w) && w.sweep.Rescoring? && after.handlers == w.handlers
    requires Some(after.store) == Persist(w.store, w.sweep.a, Look(w.store, w.sweep.a), verdict)
    requires var a, queue := w.sweep.a, w.sweep.queue;
             || (after.traces == w.traces && after.sweep == Between(queue))
             || (after.traces == Returns(w.traces, a) && after.sweep == Calling(a, VerdictLevel(verdict), queue))
    ensures Inv(after)
  {
    var a := w.sweep.a;
    PersistLocal(w.store, a, verdict);
    assert TraceOk(w, a);
    assert OnlyAt(w, after, a);
    FailedUnconcerned(w, a);
    QueueFrame(w, after, w.sweep.queue, a);
    SweepMoves(w, after, a);
  }

  lemma FailedUnconcerned(w: World, a: nat)
    requires Protocol(w) && InTables(w, a) && w.store.attempts[a].status == Failed
    ensures forall p :: p in w.handlers ==> Concern(w.handlers[p]) != Some(a)
  {
    forall p | p in w.handlers ensures Concern(w.handlers[p]) != Some(a) {
      assert HandlerOk(w, p, w.handlers[p]);
    }
  }

  lemma SweepCallMoves(w: World)
    requires Inv(w) && w.sweep.Calling?
    ensures Inv(SweepStep(w, SweepCall))
  {
    var a := w.sweep.a;
    var after := SweepStep(w, SweepCall);
    assert TraceOk(w, a);
    assert OnlyAt(w, after, a);
    forall p | p in w.handlers ensures Concern(w.handlers[p]) != Some(a) {
      assert HandlerOk(w, p, w.handlers[p]);
    }
    SweepMoves(w, after, a);
  }

  /** Starting, reading, skipping and stopping the sweep. */
  lemma SweepQuiet(w: World, after: World)
    requires Inv(w) && after == w.(sweep := after.sweep) && SweepOk(after) && !after.sweep.Calling?
    ensures Inv(after)
  {
    forall p | p in after.handlers ensures HandlerOk(after, p, after.handlers[p]) {
      assert HandlerOk(w, p, w.handlers[p]);
    }
    forall b | 0 <= b < |after.traces| ensures TraceOk(after, b) {
      assert TraceOk(w, b);
    }
  }

  lemma SweepKeepsInv(w: World, step: Step)
    requires Inv(w)
    ensures Inv(SweepStep(w, step))
  {
    if step.SweepCommit? && w.sweep.Rescoring? {
      SweepCommitMoves(w, step.verdict, step.outcome);
    } else if step.SweepCall? && w.sweep.Calling? {
      SweepCallMoves(w);
    } else if step.SweepRead? && w.sweep.Between? {
      SweepReads(w);
    } else if SweepStep(w, step) != w {
      SweepQuiet(w, SweepStep(w, step));
    }
  }

  lemma SweepReads(w: World)
    requires Inv(w) && w.sweep.Between?
    ensures Inv(SweepStep(w, SweepRead))
  {
    var queue := w.sweep.queue;
    if queue != [] {
      assert InTables(w, queue[0]);
      assert queue[0] !in queue[1..];
    }
    SweepQuiet(w, SweepStep(w, SweepRead));
  }

  lemma StepKeepsInv(w: World, step: Step)
    requires Inv(w)
    ensures Inv(Apply(w, step))
  {
    match step {
      case Deliver(h, event, login) =>
        if h !in w.handlers {
          QuietMoves(w, Apply(w, step), h);
        }
      case StartSweep(_) => SweepKeepsInv(w, step);
      case SweepRead => SweepKeepsInv(w, step);
      case SweepRaises => SweepKeepsInv(w, step);
      case SweepCommit(_, _) => SweepKeepsInv(w, step);
      case SweepCall => SweepKeepsInv(w, step);
      case StopSweep => SweepKeepsInv(w, step);
      case _ =>
        if step.h in w.handlers {
          HandlerKeepsInv(w, step, step.h);
        }
    }
  }

  lemma {:induction false} RunKeepsInv(w: World, steps: seq<Step>)
    requires Inv(w)
    ensures Inv(Run(w, steps))
  {
    if steps != [] {
      RunKeepsInv(w, steps[..|steps| - 1]);
      StepKeepsInv(Run(w, steps[..|steps| - 1]), steps[|steps| - 1]);
    }
  }

  // ---------------------------------------------------------------------------
  // Whole runs
  // ---------------------------------------------------------------------------

  /** Alert k is the one and only alert of attempt a. */
  ghost predicate OnlyAlert(s: Store, a: nat, k: nat) {
    k < |s.alerts| && s.alerts[k].attempt == a && forall j :: 0 <= j < |s.alerts| && s.alerts[j].attempt == a ==> j == k
  }

  /**
   Whatever the interleaving of duplicated deliveries, ambiguous commits, stops and
   recovery sweeps: an event has one attempt, an attempt has at most one assessment
   and one alert, its scoring returns at most once, Core is called at most once for
   it, and a processed high or critical attempt has exactly one alert, its primary.
   */
  lemma ExactlyOnce(steps: seq<Step>)
    ensures var w := Run(Start, steps);
            && UniqueEvents(w.store.attempts) && OneAlertEach(w.store.alerts)
            && |w.traces| == |w.store.attempts|
            && (forall a :: 0 <= a < |w.traces| ==> w.traces[a].enforced <= w.traces[a].returned <= 1)
            && (forall a :: 0 <= a < |w.store.attempts| && Risky(w.store.attempts[a]) ==>
                              w.store.attempts[a].primaryAlert.Some?
                              && OnlyAlert(w.store, a, w.store.attempts[a].primaryAlert.value))
            && (forall k :: 0 <= k < |w.store.alerts| ==> w.store.alerts[k].attempt in w.store.assessments)
  {
    RunKeepsInv(Start, steps);
    var w := Run(Start, steps);
    forall a | 0 <= a < |w.traces| ensures w.traces[a].enforced <= w.traces[a].returned <= 1 {
      assert TraceOk(w, a);
    }
    forall a | 0 <= a < |w.store.attempts| && Risky(w.store.attempts[a])
      ensures w.store.attempts[a].primaryAlert.Some? && OnlyAlert(w.store, a, w.store.attempts[a].primaryAlert.value)
    {
      assert AlertLinked(w.store, a);
    }
  }

  /**
   Every call to Core is made for an attempt that is processed as high or critical, that
   names a user, and at exactly the level it is stored with.
   */
  lemma CallsMatchVerdicts(steps: seq<Step>, a: nat)
    requires a < |Run(Start, steps).traces| && Run(Start, steps).traces[a].enforced > 0
    ensures var w := Run(Start, steps);
            && a < |w.store.attempts| && w.traces[a].called.Some?
            && Risky(w.store.attempts[a]) && w.store.attempts[a].level == w.traces[a].called
            && w.store.attempts[a].login.user.Some? && ActionFor(w.traces[a].called.value).Some?
  {
    RunKeepsInv(Start, steps);
    assert TraceOk(Run(Start, steps), a);
  }

  /** Attempt a's row, assessment and alert. */
  ghost predicate SameVerdict(s: Store, after: Store, a: nat) {
    && a < |s.attempts| && a < |after.attempts| && after.attempts[a] == s.attempts[a]
    && (a in after.assessments <==> a in s.assessments)
    && (a in s.assessments ==> a in after.assessments && after.assessments[a] == s.assessments[a])
    && AlertOf(after.alerts, a) == AlertOf(s.alerts, a)
  }

  lemma ScoreKeepsVerdict(w: World, h: nat, verdict: Verdict, outcome: Commit, a: nat)
    requires Inv(w) && a < |w.traces| && w.traces[a].returned == 1
    ensures SameVerdict(w.store, Apply(w, CommitScore(h, verdict, outcome)).store, a)
  {
    if h in w.handlers && w.handlers[h].Committing? {
      assert HandlerOk(w, h, w.handlers[h]);
      PersistElsewhere(w.store, w.handlers[h].a, verdict, a);
    }
  }

  lemma SweepKeepsVerdict(w: World, verdict: Verdict, outcome: Commit, a: nat)
    requires Inv(w) && a < |w.traces| && w.traces[a].returned == 1
    ensures SameVerdict(w.store, Apply(w, SweepCommit(verdict, outcome)).store, a)
  {
    assert TraceOk(w, a);
    if w.sweep.Rescoring? {
      PersistElsewhere(w.store, w.sweep.a, verdict, a);
    }
  }

  lemma ParkKeepsVerdict(w: World, h: nat, outcome: Commit, a: nat)
    requires Inv(w) && a < |w.traces| && w.traces[a].returned == 1
    ensures SameVerdict(w.store, Apply(w, CommitPark(h, outcome)).store, a)
  {
    if h in w.handlers && w.handlers[h].Parking? {
      assert HandlerOk(w, h, w.handlers[h]);
      assert w.handlers[h].a != a;
    }
  }

  lemma StepKeepsVerdict(w: World, step: Step, a: nat)
    requires Inv(w) && a < |w.traces| && w.traces[a].returned == 1
    ensures SameVerdict(w.store, Apply(w, step).store, a)
  {
    if step.CommitScore? {
      ScoreKeepsVerdict(w, step.h, step.verdict, step.outcome, a);
    } else if step.SweepCommit? {
      SweepKeepsVerdict(w, step.verdict, step.outcome, a);
    } else if step.CommitPark? {
      ParkKeepsVerdict(w, step.h, step.outcome, a);
    } else {
      OthersKeepVerdict(w, step, a);
    }
  }

  lemma PersistElsewhere(s: Store, a: nat, verdict: Verdict, b: nat)
    requires Sound(s) && a < |s.attempts| && b < |s.attempts| && b != a
    ensures Persist(s, a, Look(s, a), verdict).Some?
    ensures SameVerdict(s, Persist(s, a, Look(s, a), verdict).value, b)
  {
    PersistLocal(s, a, verdict);
  }

  lemma OthersKeepVerdict(w: World, step: Step, a: nat)
    requires a < |w.store.attempts| && !step.CommitScore? && !step.SweepCommit? && !step.CommitPark?
    ensures SameVerdict(w.store, Apply(w, step).store, a)
  {}

  lemma StepKeepsReturn(w: World, step: Step, a: nat)
    requires Inv(w) && a < |w.traces| && w.traces[a].returned == 1
    ensures a < |Apply(w, step).traces| && Apply(w, step).traces[a].returned == 1
  {
    StepKeepsInv(w, step);
    var after := Apply(w, step);
    StepKeepsVerdict(w, step, a);
    assert TraceOk(after, a);
  }

  /** Once a scoring run has returned, the verdict stands: no later step of any process rewrites it. */
  lemma {:induction false} VerdictIsFinal(w: World, steps: seq<Step>, a: nat)
    requires Inv(w) && a < |w.traces| && w.traces[a].returned == 1
    ensures SameVerdict(w.store, Run(w, steps).store, a)
    ensures a < |Run(w, steps).traces| && Run(w, steps).traces[a].returned == 1
  {
    if steps != [] {
      var prefix, last := steps[..|steps| - 1], steps[|steps| - 1];
      VerdictIsFinal(w, prefix, a);
      RunKeepsInv(w, prefix);
      StepKeepsVerdict(Run(w, prefix), last, a);
      StepKeepsReturn(Run(w, prefix), last, a);
    }
  }

  // ---------------------------------------------------------------------------
  // Recovery
  // ---------------------------------------------------------------------------

  /** A run that raised leaves its attempt failed once it is parked, and nothing else about it changed. */
  lemma ParkedIsFailed(w: World, h: nat, outcome: Commit)
    requires Inv(w) && h in w.handlers && w.handlers[h].Parking?
    ensures var after, a := Apply(w, CommitPark(h, outcome)), w.handlers[h].a;
            && a < |after.store.attempts| && after.handlers[h] == Answered && after.traces == w.traces
            && (outcome == FailsBefore ==> after.store == w.store)
            && (outcome != FailsBefore ==>
                  && after.store.attempts == w.store.attempts[a := w.store.attempts[a].(status := Failed)]
                  && after.store.alerts == w.store.alerts && after.store.assessments == w.store.assessments)
  {
    assert HandlerOk(w, h, w.handlers[h]);
  }

  function Recovery(a: nat, verdict: Verdict): seq<Step> {
    [StartSweep([a]), SweepRead, SweepCommit(verdict, Succeeds), SweepCall]
  }

  /**
   A failed attempt can always be recovered: a sweep that finds it, on its own, leaves it
   processed at its verdict's level, and calls Core for it if and only if the level demands
   it and the attempt names a user.
   */
  lemma FailedIsRecoverable(w: World, a: nat, verdict: Verdict)
    requires Inv(w) && w.sweep.Idle? && a < |w.store.attempts| && w.store.attempts[a].status == Failed
    ensures var after := Run(w, Recovery(a, verdict));
            && a < |after.store.attempts| && a < |after.traces|
            && after.store.attempts[a].status == Processed
            && after.store.attempts[a].level == Some(VerdictLevel(verdict)) && after.traces[a].returned == 1
            && (after.traces[a].enforced == 1 <==>
                VerdictLevel(verdict) in {High, Critical} && w.store.attempts[a].login.user.Some?)
            && after.sweep == Between([])
  {
    var start := Apply(w, StartSweep([a]));
    assert QueryResult(w.store, [a]);
    assert start == w.(sweep := Between([a]));
    var read := Apply(start, SweepRead);
    assert [a][1..] == [];
    assert read == w.(sweep := Rescoring(a, Look(w.store, a), []));
    PersistLocal(w.store, a, verdict);
    assert TraceOk(w, a);
    RunOfFour(w, StartSweep([a]), SweepRead, SweepCommit(verdict, Succeeds), SweepCall);
    SweepScores(read, a, verdict);
  }

  lemma SweepScores(w: World, a: nat, verdict: Verdict)
    requires Sound(w.store) && a < |w.store.attempts| && a < |w.traces|
    requires w.sweep == Rescoring(a, Look(w.store, a), [])
    requires w.traces[a].returned == 0 && w.traces[a].enforced == 0
    ensures var after := Apply(Apply(w, SweepCommit(verdict, Succeeds)), SweepCall);
            && |after.store.attempts| == |w.store.attempts| && |after.traces| == |w.traces|
            && after.store.attempts[a].status == Processed
            && after.store.attempts[a].level == Some(VerdictLevel(verdict)) && after.traces[a].returned == 1
            && after.traces[a].enforced == (
                 if CallsCore(w.store.attempts[a].login, VerdictLevel(verdict)) then 1 else 0)
            && after.sweep == Between([])
  {
    PersistLocal(w.store, a, verdict);
  }

  function FirstDelivery(h: nat, event: nat, login: Login): seq<Step> {
    [Deliver(h, event, login), LookUp(h), CommitInsert(h, Succeeds), ReadRows(h)]
  }

  /**
   The first delivery of an event, undisturbed: its row is inserted, scored and processed at
   its verdict's level, and Core is called exactly if the level demands it and the login
   names a user.
   */
  lemma FirstDeliveryScores(w: World, h: nat, event: nat, login: Login, verdict: Verdict)
    requires Inv(w) && h !in w.handlers && !Known(w.store, event)
    ensures var a, read := |w.store.attempts|, Run(w, FirstDelivery(h, event, login));
            var after := Apply(Apply(read, CommitScore(h, verdict, Succeeds)), CallCore(h));
            && |after.store.attempts| == a + 1 && after.store.attempts[..a] == w.store.attempts
            && |after.traces| == a + 1 && h in after.handlers && after.handlers[h] == Answered
            && after.store.attempts[a].event == event && after.store.attempts[a].login == login
            && after.store.attempts[a].status == Processed
            && after.store.attempts[a].level == Some(VerdictLevel(verdict)) && after.traces[a].returned == 1
            && (after.traces[a].enforced == 1 <==> VerdictLevel(verdict) in {High, Critical} && login.user.Some?)
  {
    var a := |w.store.attempts|;
    RunOfFour(w, Deliver(h, event, login), LookUp(h), CommitInsert(h, Succeeds), ReadRows(h));
    DeliveryInserts(w, h, event, login);
    var read := Run(w, FirstDelivery(h, event, login));
    InsertKeepsSound(w.store, event, login);
    HandlerScores(read, h, a, verdict);
    assert read.store.attempts[..a] == w.store.attempts;
  }

  lemma DeliveryInserts(w: World, h: nat, event: nat, login: Login)
    requires Inv(w) && h !in w.handlers && !Known(w.store, event)
    ensures var looked := Apply(Apply(w, Deliver(h, event, login)), LookUp(h));
            var read := Apply(Apply(looked, CommitInsert(h, Succeeds)), ReadRows(h));
            var a := |w.store.attempts|;
            && read.store == InsertRow(w.store, event, login) && read.traces == w.traces + [Trace(h, 0, 0, None)]
            && h in read.handlers && read.handlers[h] == Committing(a, Look(read.store, a))
  {
    var asked := Apply(Apply(w, Deliver(h, event, login)), LookUp(h));
    assert asked.store == w.store && asked.handlers[h] == Inserting(event, login) && asked.traces == w.traces;
    var inserted := Apply(asked, CommitInsert(h, Succeeds));
    assert inserted.handlers[h] == Reading(|w.store.attempts|);
  }

  lemma HandlerScores(w: World, h: nat, a: nat, verdict: Verdict)
    requires Sound(w.store) && a < |w.store.attempts| && |w.traces| == |w.store.attempts|
    requires h in w.handlers && w.handlers[h] == Committing(a, Look(w.store, a))
    requires w.traces[a].returned == 0 && w.traces[a].enforced == 0
    ensures var after := Apply(Apply(w, CommitScore(h, verdict, Succeeds)), CallCore(h));
            && |after.store.attempts| == |w.store.attempts| && |after.traces| == |w.traces|
            && (forall b :: 0 <= b < |w.store.attempts| && b != a ==> after.store.attempts[b] == w.store.attempts[b])
            && h in after.handlers && after.handlers[h] == Answered
            && after.store.attempts[a].event == w.store.attempts[a].event
            && after.store.attempts[a].login == w.store.attempts[a].login
            && after.store.attempts[a].status == Processed
            && after.store.attempts[a].level == Some(VerdictLevel(verdict)) && after.traces[a].returned == 1
            && after.traces[a].enforced == (
                 if CallsCore(w.store.attempts[a].login, VerdictLevel(verdict)) then 1 else 0)
  {
    PersistLocal(w.store, a, verdict);
    var scored := Apply(w, CommitScore(h, verdict, Succeeds));
    assert scored.handlers[h] == Enforcing(a, VerdictLevel(verdict)) && scored.traces == Returns(w.traces, a);
  }

  /** A run that raises, whatever it had read, ends with its attempt failed and nothing else changed. */
  lemma RaisingRunIsParked(w: World, h: nat)
    requires Inv(w) && h in w.handlers && (w.handlers[h].Reading? || w.handlers[h].Committing?)
    ensures var after, a := Apply(Apply(w, ScoringRaises(h)), CommitPark(h, Succeeds)), w.handlers[h].a;
            && a < |w.store.attempts| && after.handlers == w.handlers[h := Answered] && after.traces == w.traces
            && after.store.attempts == w.store.attempts[a := w.store.attempts[a].(status := Failed)]
            && after.store.alerts == w.store.alerts && after.store.assessments == w.store.assessments
  {
    assert HandlerOk(w, h, w.handlers[h]);
  }

  /**
   A run whose commit is not confirmed ends with its attempt failed, whether or not the
   commit reached the tables; it has not returned, and Core is not called.
   */
  lemma UnconfirmedRunIsParked(w: World, h: nat, verdict: Verdict, outcome: Commit)
    requires Inv(w) && h in w.handlers && w.handlers[h].Committing? && outcome != Succeeds
    ensures var after, a := Apply(Apply(w, CommitScore(h, verdict, outcome)), CommitPark(h, Succeeds)), w.handlers[h].a;
            && a < |w.store.attempts| == |after.store.attempts|
            && after.handlers == w.handlers[h := Answered] && after.traces == w.traces
            && after.store.attempts[a].status == Failed
            && (forall b :: 0 <= b < |w.store.attempts| && b != a ==> after.store.attempts[b] == w.store.attempts[b])
            && (outcome == FailsBefore ==>
                  after.store.alerts == w.store.alerts && after.store.assessments == w.store.assessments)
            && (outcome == ReplyLost ==> after.store.attempts[a].level == Some(VerdictLevel(verdict)))
  {
    assert HandlerOk(w, h, w.handlers[h]);
    PersistLocal(w.store, w.handlers[h].a, verdict);
  }

  /**
   An insert that is not confirmed ends the request: the row is there if the commit reached
   the tables, and stays pending; the loser of a race adds none.
   */
  lemma UnconfirmedInsertEnds(w: World, h: nat, event: nat, login: Login, outcome: Commit)
    requires h in w.handlers && w.handlers[h] == Inserting(event, login)
    requires outcome != Succeeds || Known(w.store, event)
    ensures var after := Apply(w, CommitInsert(h, outcome));
            && after.handlers == w.handlers[h := Answered]
            && after.store.attempts == if outcome == ReplyLost && !Known(w.store, event)
                                       then w.store.attempts + [Attempt(event, login, Pending, None, None, None, None)]
                                       else w.store.attempts
  {}

  /** A row whose run fails does not stop the sweep, and is left as it was unless the commit reached the tables. */
  lemma SweepGoesOn(w: World, verdict: Verdict)
    requires Inv(w) && w.sweep.Rescoring?
    ensures var a, next := w.sweep.a, w.(sweep := Between(w.sweep.queue));
            var lost := Apply(w, SweepCommit(verdict, ReplyLost));
            && Apply(w, SweepRaises) == next && Apply(w, SweepCommit(verdict, FailsBefore)) == next
            && lost.sweep == next.sweep && lost.traces == w.traces
            && a < |lost.store.attempts| && lost.store.attempts[a].status == Processed
  {
    PersistLocal(w.store, w.sweep.a, verdict);
  }

  /** A later delivery of the event only finds its row. */
  lemma RepeatedDeliveryIsAnswered(w: World, h: nat, event: nat, login: Login)
    requires h !in w.handlers && Known(w.store, event)
    ensures Apply(Apply(w, Deliver(h, event, login)), LookUp(h)) == w.(handlers := w.handlers[h := Answered])
  {}

  lemma RunOfFour(w: World, a: Step, b: Step, c: Step, d: Step)
    ensures Run(w, [a, b, c, d]) == Apply(Apply(Apply(Apply(w, a), b), c), d)
  {
    assert [a, b, c, d][..3] == [a, b, c] && [a, b, c][..2] == [a, b] && [a, b][..1] == [a] && [a][..0] == [];
    assert Run(w, [a]) == Apply(w, a);
    assert Run(w, [a, b]) == Apply(Apply(w, a), b);
    assert Run(w, [a, b, c]) == Apply(Apply(Apply(w, a), b), c);
  }

  // ---------------------------------------------------------------------------
  // The sender's retry loop
  // ---------------------------------------------------------------------------

  datatype Reply = NetworkError | Http(code: nat)

  predicate Retryable(reply: Reply) {
    reply.NetworkError? || reply.code >= 500
  }

  /**
   Core's side of the delivery: at most two posts of the same event, the second only
   after a network error or a server error.
   */
  method SendLoginEvent(enabled: bool, replies: seq<Reply>) returns (delivered: bool, posts: nat)
    requires |replies| == 2
    ensures !enabled ==> !delivered && posts == 0
    ensures enabled ==> 1 <= posts <= 2 && (posts == 2 <==> Retryable(replies[0]))
    ensures enabled ==> (delivered <==> replies[posts - 1].Http? && replies[posts - 1].code < 400)
  {
    posts := 0;
    if !enabled {
      return false, 0;
    }
    while posts < 2
      invariant 0 <= posts <= 2
      invariant forall k :: 0 <= k < posts ==> Retryable(replies[k])
    {
      var reply := replies[posts];
      posts := posts + 1;
      if reply.Http? && reply.code < 500 {
        return reply.code < 400, posts;
      }
    }
    delivered := false;
  }
}
