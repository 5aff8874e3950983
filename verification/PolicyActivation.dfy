/**
 Activating a policy: the handler run on its own, and concurrent activations
 interleaved at their database steps under row locks and the single-active index.
 */
module PolicyActivation {
  import opened Basics
  import opened Json
  import opened Scoring
  import Features
  import PolicyConfig
  import Rules

  datatype Row = Row(policy: Policy, active: bool)

  function ActiveSet(rows: seq<Row>): set<nat> {
    set i | 0 <= i < |rows| && rows[i].active
  }

  /** The partial unique index. */
  ghost predicate AtMostOne(rows: seq<Row>) {
    forall i, j :: 0 <= i < j < |rows| ==> !(rows[i].active && rows[j].active)
  }

  function RuleList(policy: Policy): seq<Value> {
    if policy.rules.List? then policy.rules.items else []
  }

  /** What activation checks: no config problem and every rule usable. */
  predicate Valid(policy: Policy) {
    && PolicyConfig.Resolve(policy.config).problems == []
    && forall i :: 0 <= i < |RuleList(policy)| ==> Rules.Validate(RuleList(policy)[i]).Usable?
  }

  /** Checking the policy raises, and the request ends as a server error. */
  ghost predicate Raising(policy: Policy) {
    PolicyConfig.ConfigRaises(policy.config) || Rules.SomeRaises(RuleList(policy))
  }

  // ---------------------------------------------------------------------------
  // The handler on its own
  // ---------------------------------------------------------------------------

  datatype Answer = Activated | NotFound | BadRequest | ServerError

  /** Resolves the config, validates every rule and refuses if either found a problem. */
  method CheckPolicy(policy: Policy) returns (refusal: Option<Answer>)
    ensures refusal == None <==> Valid(policy)
    ensures refusal == Some(ServerError) <==> Raising(policy)
    ensures refusal.Some? ==> refusal.value == ServerError || refusal.value == BadRequest
  {
    var raws := RuleList(policy);
    PolicyConfig.NoProblemsExactlyWhen(policy.config);
    var resolved := PolicyConfig.ResolveConfig(policy.config);
    if resolved == None {
      return Some(ServerError);
    }
    var clean := true;
    for i := 0 to |raws|
      invariant clean <==> forall k :: 0 <= k < i ==> Rules.Validate(raws[k]).Usable?
      invariant forall k :: 0 <= k < i ==> !Rules.Validate(raws[k]).Raises?
    {
      var checked := Rules.Validate(raws[i]);
      if checked.Raises? {
        return Some(ServerError);
      }
      clean := clean && checked.Usable?;
    }
    refusal := if clean && resolved.value.problems == [] then None else Some(BadRequest);
  }

  class PolicyTable {
    var rows: seq<Row>

    constructor (rows: seq<Row>)
      ensures this.rows == rows
    {
      this.rows := rows;
    }

    method Activate(p: nat) returns (answer: Answer)
      requires AtMostOne(rows)
      modifies this
      ensures AtMostOne(rows)
      ensures answer == NotFound <==> p >= |old(rows)|
      ensures answer == Activated <==> p < |old(rows)| && Valid(old(rows)[p].policy)
      ensures answer == ServerError <==> p < |old(rows)| && Raising(old(rows)[p].policy)
      ensures answer == Activated ==> ActiveSet(rows) == {p} && |rows| == |old(rows)|
                                      && forall i :: 0 <= i < |rows| ==> rows[i].policy == old(rows)[i].policy
      ensures answer != Activated ==> rows == old(rows)
    {
      if p >= |rows| {
        return NotFound;
      }
      var refusal := CheckPolicy(rows[p].policy);
      if refusal.Some? {
        return refusal.value;
      }
      var n := |rows|;
      for i := 0 to n
        invariant |rows| == n
        invariant forall k :: 0 <= k < n ==> rows[k].policy == old(rows)[k].policy
        invariant forall k :: 0 <= k < i && k != p ==> !rows[k].active
        invariant forall k :: i <= k < n ==> rows[k] == old(rows)[k]
      {
        if rows[i].active && i != p {
          rows := rows[i := rows[i].(active := false)];
        }
      }
      rows := rows[p := rows[p].(active := true)];
      answer := Activated;
    }
  }

  // ---------------------------------------------------------------------------
  // Interleaved activations
  // ---------------------------------------------------------------------------

  /**
   A transaction holds its target row's lock from the start and, once flushed, the
   locks of the rows it deactivates. `wasActive` is the target as it was loaded; the
   update of the flag is issued only when it changes.
   */
  datatype Tx =
    | Loaded(target: nat, wasActive: bool)
    | Chosen(target: nat, wasActive: bool, others: set<nat>)
    | Flushed(target: nat, wasActive: bool, others: set<nat>)

  datatype World = World(rows: seq<Row>, txs: map<nat, Tx>)

  datatype Step = Begin(t: nat, p: nat) | Choose(t: nat) | Flush(t: nat) | Commit(t: nat) | Abort(t: nat)

  predicate Holds(tx: Tx, row: nat) {
    tx.target == row || (tx.Flushed? && row in tx.others)
  }

  predicate Free(w: World, row: nat, t: nat) {
    forall u :: u in w.txs && u != t ==> !Holds(w.txs[u], row)
  }

  /** The committed rows if this transaction's updates reach them. */
  function Written(rows: seq<Row>, tx: Tx): seq<Row>
    requires tx.Flushed?
  {
    seq(|rows|, i requires 0 <= i < |rows| =>
      rows[i].(active := if i == tx.target && !tx.wasActive then true
                         else if i in tx.others then false
                         else rows[i].active))
  }

  ghost function Apply(w: World, step: Step): World {
    match step
    case Begin(t, p) =>
      if t !in w.txs && p < |w.rows| && Free(w, p, t) && Valid(w.rows[p].policy)
      then w.(txs := w.txs[t := Loaded(p, w.rows[p].active)]) else w
    case Choose(t) =>
      if t in w.txs && w.txs[t].Loaded?
      then w.(txs := w.txs[t := Chosen(w.txs[t].target, w.txs[t].wasActive, ActiveSet(w.rows) - {w.txs[t].target})])
      else w
    case Flush(t) =>
      if t in w.txs && w.txs[t].Chosen? && forall i :: i in w.txs[t].others ==> Free(w, i, t)
      then w.(txs := w.txs[t := Flushed(w.txs[t].target, w.txs[t].wasActive, w.txs[t].others)]) else w
    case Commit(t) =>
      if t in w.txs && w.txs[t].Flushed? then
        World(if AtMostOne(Written(w.rows, w.txs[t])) then Written(w.rows, w.txs[t]) else w.rows, w.txs - {t})
      else w
    case Abort(t) => w.(txs := w.txs - {t})
  }

  ghost function Run(w: World, steps: seq<Step>): World {
    if steps == [] then w else Apply(Run(w, steps[..|steps| - 1]), steps[|steps| - 1])
  }

  ghost predicate TxOk(w: World, tx: Tx) {
    && tx.target < |w.rows| && tx.wasActive == w.rows[tx.target].active && Valid(w.rows[tx.target].policy)
    && (!tx.Loaded? ==> tx.target !in tx.others)
  }

  /** No transaction holds the lock of another one's target. */
  ghost predicate Exclusive(txs: map<nat, Tx>) {
    forall t, u :: t in txs && u in txs && t != u ==> !Holds(txs[t], txs[u].target)
  }

  ghost predicate ActiveValid(rows: seq<Row>) {
    forall i :: 0 <= i < |rows| && rows[i].active ==> Valid(rows[i].policy)
  }

  ghost predicate Inv(w: World) {
    AtMostOne(w.rows) && ActiveValid(w.rows) && Exclusive(w.txs) && forall t :: t in w.txs ==> TxOk(w, w.txs[t])
  }

  lemma BeginKeepsInv(w: World, t: nat, p: nat)
    requires Inv(w)
    ensures Inv(Apply(w, Begin(t, p)))
  {
    var after := Apply(w, Begin(t, p));
    if after != w {
      forall u, v | u in after.txs && v in after.txs && u != v ensures !Holds(after.txs[u], after.txs[v].target) {
        if u == t {
          assert !Holds(w.txs[v], p);
        }
      }
      forall u | u in after.txs ensures TxOk(after, after.txs[u]) {
        if u != t {
          assert TxOk(w, w.txs[u]);
        }
      }
    }
  }

  /** Choosing and flushing: the transaction keeps its target; new locks are taken on free rows only. */
  lemma AdvanceKeepsInv(w: World, t: nat, next: Tx)
    requires Inv(w) && t in w.txs && next.target == w.txs[t].target && next.wasActive == w.txs[t].wasActive
    requires !next.Loaded? ==> next.target !in next.others
    requires next.Flushed? ==> forall i :: i in next.others ==> Free(w, i, t)
    ensures Inv(w.(txs := w.txs[t := next]))
  {
    var after := w.(txs := w.txs[t := next]);
    AdvanceKeepsLocks(w, t, next);
    forall u | u in after.txs ensures TxOk(after, after.txs[u]) {
      assert TxOk(w, w.txs[u]);
    }
  }

  lemma AdvanceKeepsLocks(w: World, t: nat, next: Tx)
    requires Exclusive(w.txs) && t in w.txs && next.target == w.txs[t].target
    requires next.Flushed? ==> forall i :: i in next.others ==> Free(w, i, t)
    ensures Exclusive(w.txs[t := next])
  {
    var txs := w.txs[t := next];
    forall u, v | u in txs && v in txs && u != v ensures !Holds(txs[u], txs[v].target) {
      assert !Holds(w.txs[u], w.txs[v].target);
      if u == t && next.Flushed? && w.txs[v].target in next.others {
        assert Free(w, w.txs[v].target, t);
        assert Holds(w.txs[v], w.txs[v].target);
      }
    }
  }

  /** Writing keeps every policy and activates none but the target. */
  lemma WrittenKeeps(rows: seq<Row>, tx: Tx)
    requires tx.Flushed?
    ensures |Written(rows, tx)| == |rows|
    ensures forall i :: 0 <= i < |rows| ==>
              && Written(rows, tx)[i].policy == rows[i].policy
              && (Written(rows, tx)[i].active ==> i == tx.target || rows[i].active)
              && (!Holds(tx, i) ==> Written(rows, tx)[i] == rows[i])
  {}

  lemma CommitKeepsInv(w: World, t: nat)
    requires Inv(w)
    ensures Inv(Apply(w, Commit(t)))
  {
    if t in w.txs && w.txs[t].Flushed? {
      var tx := w.txs[t];
      assert TxOk(w, tx);
      WrittenKeeps(w.rows, tx);
      WrittenValid(w.rows, tx);
      OthersOk(w, t, if AtMostOne(Written(w.rows, tx)) then Written(w.rows, tx) else w.rows);
    }
  }

  /** A commit changes no row that another transaction relies on. */
  lemma OthersOk(w: World, t: nat, rows: seq<Row>)
    requires Inv(w) && t in w.txs && |rows| == |w.rows|
    requires forall i :: 0 <= i < |rows| && !Holds(w.txs[t], i) ==> rows[i] == w.rows[i]
    ensures var after := World(rows, w.txs - {t});
            Exclusive(after.txs) && forall u :: u in after.txs ==> TxOk(after, after.txs[u])
  {
    var after := World(rows, w.txs - {t});
    forall u | u in after.txs ensures TxOk(after, after.txs[u]) {
      assert TxOk(w, w.txs[u]);
      assert !Holds(w.txs[t], w.txs[u].target);
    }
  }

  lemma WrittenValid(rows: seq<Row>, tx: Tx)
    requires tx.Flushed? && tx.target < |rows| && Valid(rows[tx.target].policy) && ActiveValid(rows)
    ensures ActiveValid(Written(rows, tx))
  {
    WrittenKeeps(rows, tx);
    forall i | 0 <= i < |rows| && Written(rows, tx)[i].active ensures Valid(rows[i].policy) {
      if i != tx.target {
        assert rows[i].active;
      }
    }
  }

  lemma StepKeepsInv(w: World, step: Step)
    requires Inv(w)
    ensures Inv(Apply(w, step))
  {
    match step {
      case Begin(t, p) => BeginKeepsInv(w, t, p);
      case Choose(t) =>
        if t in w.txs && w.txs[t].Loaded? {
          AdvanceKeepsInv(w, t, Apply(w, step).txs[t]);
        }
      case Flush(t) =>
        if t in w.txs {
          assert TxOk(w, w.txs[t]);
          if Apply(w, step) != w {
            AdvanceKeepsInv(w, t, Apply(w, step).txs[t]);
          }
        }
      case Commit(t) => CommitKeepsInv(w, t);
      case Abort(t) =>
        forall u | u in Apply(w, step).txs ensures TxOk(Apply(w, step), w.txs[u]) {
          assert TxOk(w, w.txs[u]);
        }
    }
  }

  /** Row i is active once the transaction's updates are written. */
  lemma WrittenActive(w: World, tx: Tx, i: nat)
    requires tx.Flushed? && TxOk(w, tx) && i < |w.rows|
    ensures Written(w.rows, tx)[i].active <==> i == tx.target || (w.rows[i].active && i !in tx.others)
  {}

  /**
   A commit is accepted exactly when no policy outside the transaction's own
   snapshot has become active meanwhile, and an accepted commit leaves its target
   as the one active policy.
   */
  lemma CommitOutcome(w: World, t: nat)
    requires Inv(w) && t in w.txs && w.txs[t].Flushed?
    ensures AtMostOne(Written(w.rows, w.txs[t])) <==> ActiveSet(w.rows) <= w.txs[t].others + {w.txs[t].target}
    ensures AtMostOne(Written(w.rows, w.txs[t])) ==> ActiveSet(Apply(w, Commit(t)).rows) == {w.txs[t].target}
    ensures !AtMostOne(Written(w.rows, w.txs[t])) ==> Apply(w, Commit(t)).rows == w.rows
  {
    var tx := w.txs[t];
    WrittenRows(w, t);
    AcceptedExactlyWhen(Written(w.rows, tx), w.rows, tx.others, tx.target);
    CommitRows(w, t);
  }

  /** An activation that nobody interferes with leaves its policy as the one active one, whatever was active before. */
  lemma UndisturbedActivation(w: World, t: nat, p: nat)
    requires Inv(w) && w.txs == map[] && p < |w.rows| && Valid(w.rows[p].policy)
    ensures var flushed := Apply(Apply(Apply(w, Begin(t, p)), Choose(t)), Flush(t));
            ActiveSet(Apply(flushed, Commit(t)).rows) == {p}
  {
    UndisturbedSteps(w, t, p);
    StepKeepsInv(w, Begin(t, p));
    StepKeepsInv(Apply(w, Begin(t, p)), Choose(t));
    StepKeepsInv(Apply(Apply(w, Begin(t, p)), Choose(t)), Flush(t));
    CommitOutcome(Apply(Apply(Apply(w, Begin(t, p)), Choose(t)), Flush(t)), t);
  }

  lemma UndisturbedSteps(w: World, t: nat, p: nat)
    requires w.txs == map[] && p < |w.rows| && Valid(w.rows[p].policy)
    ensures Apply(Apply(Apply(w, Begin(t, p)), Choose(t)), Flush(t)) ==
            w.(txs := map[t := Flushed(p, w.rows[p].active, ActiveSet(w.rows) - {p})])
  {
    assert Apply(w, Begin(t, p)) == w.(txs := map[t := Loaded(p, w.rows[p].active)]);
  }

  /** The target is written active, the others inactive, and every other row stays. */
  ghost predicate Marks(written: seq<Row>, rows: seq<Row>, others: set<nat>, target: nat) {
    && |written| == |rows| && target < |rows|
    && forall i :: 0 <= i < |rows| ==> (written[i].active <==> i == target || (rows[i].active && i !in others))
  }

  lemma WrittenRows(w: World, t: nat)
    requires Inv(w) && t in w.txs && w.txs[t].Flushed?
    ensures Marks(Written(w.rows, w.txs[t]), w.rows, w.txs[t].others, w.txs[t].target)
  {
    var tx := w.txs[t];
    assert TxOk(w, tx);
    forall i | 0 <= i < |w.rows|
      ensures Written(w.rows, tx)[i].active <==> i == tx.target || (w.rows[i].active && i !in tx.others)
    {
      WrittenActive(w, tx, i);
    }
  }

  lemma CommitRows(w: World, t: nat)
    requires t in w.txs && w.txs[t].Flushed?
    ensures AtMostOne(Written(w.rows, w.txs[t])) ==> Apply(w, Commit(t)).rows == Written(w.rows, w.txs[t])
    ensures !AtMostOne(Written(w.rows, w.txs[t])) ==> Apply(w, Commit(t)).rows == w.rows
  {}

  lemma AcceptedExactlyWhen(written: seq<Row>, rows: seq<Row>, others: set<nat>, target: nat)
    requires Marks(written, rows, others, target)
    ensures AtMostOne(written) <==> ActiveSet(rows) <= others + {target}
    ensures AtMostOne(written) ==> ActiveSet(written) == {target}
  {
    if AtMostOne(written) {
      forall i | i in ActiveSet(rows) ensures i in others + {target} {
        assert written[target].active;
        assert written[i].active ==> i == target;
      }
      assert target in ActiveSet(written);
      forall i | i in ActiveSet(written) ensures i == target {
        assert written[i].active && written[target].active;
      }
    }
    if ActiveSet(rows) <= others + {target} {
      forall i | 0 <= i < |rows| && written[i].active ensures i == target {
        if rows[i].active {
          assert i in ActiveSet(rows);
        }
      }
    }
  }

  ghost predicate ExactlyOne(rows: seq<Row>) {
    exists p :: ActiveSet(rows) == {p}
  }

  lemma OneWhenSome(rows: seq<Row>)
    requires AtMostOne(rows) && ActiveSet(rows) != {}
    ensures ExactlyOne(rows)
  {
    var p :| p in ActiveSet(rows);
    forall i | i in ActiveSet(rows) ensures i == p {}
    assert ActiveSet(rows) == {p};
  }

  /** Across any one step: at most one active policy, and never none once there is one. */
  lemma StepKeepsOneActive(w: World, step: Step)
    requires Inv(w)
    ensures AtMostOne(Apply(w, step).rows)
    ensures ActiveSet(w.rows) != {} ==> ExactlyOne(Apply(w, step).rows)
  {
    StepKeepsInv(w, step);
    if ActiveSet(w.rows) != {} {
      if step.Commit? && step.t in w.txs && w.txs[step.t].Flushed? {
        CommitOutcome(w, step.t);
      }
      OneWhenSome(Apply(w, step).rows);
    }
  }

  lemma {:induction false} OneActiveForever(w: World, steps: seq<Step>)
    requires Inv(w)
    ensures Inv(Run(w, steps)) && AtMostOne(Run(w, steps).rows)
    ensures ActiveSet(w.rows) != {} ==> ExactlyOne(Run(w, steps).rows)
  {
    if steps != [] {
      var prefix, last := steps[..|steps| - 1], steps[|steps| - 1];
      OneActiveForever(w, prefix);
      StepKeepsInv(Run(w, prefix), last);
      StepKeepsOneActive(Run(w, prefix), last);
    } else if ActiveSet(w.rows) != {} {
      OneWhenSome(w.rows);
    }
  }

  // ---------------------------------------------------------------------------
  // What activation buys the engine
  // ---------------------------------------------------------------------------

  lemma {:induction false} CleanRules(raws: seq<Value>)
    requires forall i :: 0 <= i < |raws| ==> Rules.Validate(raws[i]).Usable?
    ensures Rules.Problems(raws) == [] && !Rules.SomeRaises(raws)
  {
    if raws != [] {
      CleanRules(raws[..|raws| - 1]);
    }
  }

  /** A usable rule has a text field, so no lookup by name fails. */
  lemma LookupsSucceed(raws: seq<Value>, name: string)
    requires forall i :: 0 <= i < |raws| ==> Rules.Validate(raws[i]).Usable?
    ensures !Rules.LookupFails(raws, name)
  {
    var j := Rules.Namesake(raws, name);
    if j.Some? && j.value < |raws| {
      assert Rules.Validate(raws[j.value]).Usable?;
    }
  }

  /**
   On an activated policy the config resolves without raising to what it says, and rule
   evaluation reports no problem on any vector. Scoring can still raise, and then only
   because a rule that fires carries a description that is not text, which activation
   does not check.
   */
  lemma ActivatedPolicyIsClean(policy: Policy, v: Features.Vector, ml: MlOutcome)
    requires Valid(policy)
    ensures PolicyConfig.Resolve(policy.config).problems == [] && !PolicyConfig.ConfigRaises(policy.config)
    ensures var e := Rules.Evaluate(policy.rules, v); e.Scored? ==> e.problems == []
    ensures var rules := Rules.ActiveRules(RuleList(policy));
            Assess(policy, v, ml) == None <==> Rules.Sum(rules, Rules.Weight) > 0.0 && Rules.SomeBadHit(rules, v)
  {
    PolicyConfig.NoProblemsExactlyWhen(policy.config);
    CleanEvaluation(policy, v);
    if Rules.Evaluate(policy.rules, v).Scored? {
      NoLookupRaises(policy, Rules.Evaluate(policy.rules, v).hits);
    }
  }

  lemma CleanEvaluation(policy: Policy, v: Features.Vector)
    requires Valid(policy)
    ensures var e, rules := Rules.Evaluate(policy.rules, v), Rules.ActiveRules(RuleList(policy));
            && (e.Scored? ==> e.problems == [])
            && (e.Raised? <==> Rules.Sum(rules, Rules.Weight) > 0.0 && Rules.SomeBadHit(rules, v))
  {
    CleanRules(RuleList(policy));
  }

  lemma NoLookupRaises(policy: Policy, hits: seq<Rules.Hit>)
    requires Valid(policy)
    ensures !LookupRaises(policy, hits)
  {
    if policy.rules.List? {
      forall k | 0 <= k < |hits|
        ensures !Rules.LookupFails(policy.rules.items, Rules.NameText(policy.printed, hits[k].name))
      {
        LookupsSucceed(RuleList(policy), Rules.NameText(policy.printed, hits[k].name));
      }
    }
  }
}
