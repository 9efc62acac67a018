/** What every reachable ledger satisfies, and that each transaction keeps it. */
module LedgerInvariants {
  import opened Options
  import opened Fsm
  import opened Ledger

  // ---- leaves of retry chains, and the verdicts folded from them ----

  /** No other row names this one as its retry parent. */
  ghost predicate IsLeaf(db: Tables, s: Id) {
    forall r | 0 <= r < |db.steps| :: db.steps[r].retryOf != Some(s)
  }

  ghost predicate LeafOf(db: Tables, f: Id, s: int) {
    0 <= s < |db.steps| && db.steps[s].flowId == f && IsLeaf(db, s)
  }

  ghost predicate HasLeaf(db: Tables, f: Id, state: StepState) {
    exists s :: LeafOf(db, f, s) && db.steps[s].state == state
  }

  ghost predicate LeavesTerminal(db: Tables, f: Id) {
    (exists s :: LeafOf(db, f, s)) &&
    (forall s | LeafOf(db, f, s) :: StepTerminal(db.steps[s].state))
  }

  /** The state a finished Flow must end in, judged from its leaves alone. */
  ghost function FlowVerdict(db: Tables, f: Id): FlowState {
    if HasLeaf(db, f, StepFailed) || HasLeaf(db, f, StepExpired) then FlowFailed
    else if HasLeaf(db, f, StepCancelled) then FlowCancelled
    else FlowSucceeded
  }

  ghost predicate FlowIn(db: Tables, r: Id, f: int) { 0 <= f < |db.flows| && db.flows[f].runId == r }

  ghost predicate HasFlow(db: Tables, r: Id, state: FlowState) {
    exists f :: FlowIn(db, r, f) && db.flows[f].state == state
  }

  ghost predicate FlowsTerminal(db: Tables, r: Id) {
    (exists f :: FlowIn(db, r, f)) &&
    (forall f | FlowIn(db, r, f) :: FlowTerminal(db.flows[f].state))
  }

  ghost function RunVerdict(db: Tables, r: Id): RunState {
    if HasFlow(db, r, FlowFailed) then RunFailed
    else if HasFlow(db, r, FlowCancelled) then RunCancelled
    else RunSucceeded
  }

  /** What a finished Flow's state says of its leaves. */
  ghost predicate FlowTells(db: Tables, f: Id, state: FlowState) {
    match state
    case FlowFailed => exists s :: LeafOf(db, f, s) && (db.steps[s].state.StepFailed? || db.steps[s].state.StepExpired?)
    case FlowCancelled =>
      && (exists s :: LeafOf(db, f, s) && db.steps[s].state.StepCancelled?)
      && (forall s | LeafOf(db, f, s) :: db.steps[s].state.StepCancelled? || db.steps[s].state.StepSucceeded?)
    case FlowSucceeded => forall s | LeafOf(db, f, s) :: db.steps[s].state.StepSucceeded?
    case _ => false
  }

  ghost predicate RunTells(db: Tables, r: Id, state: RunState) {
    match state
    case RunFailed => exists f :: FlowIn(db, r, f) && db.flows[f].state.FlowFailed?
    case RunCancelled =>
      && (exists f :: FlowIn(db, r, f) && db.flows[f].state.FlowCancelled?)
      && (forall f | FlowIn(db, r, f) :: db.flows[f].state.FlowCancelled? || db.flows[f].state.FlowSucceeded?)
    case RunSucceeded => forall f | FlowIn(db, r, f) :: db.flows[f].state.FlowSucceeded?
    case _ => false
  }

  lemma FlowVerdictTells(db: Tables, f: Id)
    requires LeavesTerminal(db, f)
    ensures FlowTells(db, f, FlowVerdict(db, f))
  {
    hide IsLeaf;
    forall s | LeafOf(db, f, s) ensures HasLeaf(db, f, db.steps[s].state) {}
  }

  lemma RunVerdictTells(db: Tables, r: Id)
    requires FlowsTerminal(db, r)
    ensures RunTells(db, r, RunVerdict(db, r))
  {
    forall f | FlowIn(db, r, f) ensures HasFlow(db, r, db.flows[f].state) {}
  }

  // ---- the invariants ----

  /** References between tables resolve, and a step's two parents agree. */
  ghost predicate Linked(db: Tables) {
    && (forall f | 0 <= f < |db.flows| :: db.flows[f].runId < |db.runs|)
    && (forall s | 0 <= s < |db.steps| ::
          db.steps[s].flowId < |db.flows| && db.steps[s].runId == db.flows[db.steps[s].flowId].runId)
  }

  ghost predicate RetryLink(db: Tables, s: Id)
    requires s < |db.steps|
  {
    match db.steps[s].retryOf
    case None => db.steps[s].retryCount == 0
    case Some(p) =>
      p < s && db.steps[p].flowId == db.steps[s].flowId &&
      db.steps[s].retryCount == db.steps[p].retryCount + 1 && db.steps[p].state.StepFailed?
  }

  /** Retry edges stay inside one Flow, count the distance to the original, leave
      only failed rows behind, and never fork. */
  ghost predicate RetryPaths(db: Tables) {
    && (forall s | 0 <= s < |db.steps| :: RetryLink(db, s))
    && (forall s, t | 0 <= s < t < |db.steps| && db.steps[s].retryOf.Some? ::
        db.steps[s].retryOf != db.steps[t].retryOf)
  }

  /** A terminal Flow is settled: its leaves are terminal and it carries their verdict. */
  ghost predicate FlowsSettled(db: Tables) {
    forall f | 0 <= f < |db.flows| && FlowTerminal(db.flows[f].state) ::
      LeavesTerminal(db, f) && db.flows[f].state == FlowVerdict(db, f)
  }

  ghost predicate RunsSettled(db: Tables) {
    forall r | 0 <= r < |db.runs| && RunTerminal(db.runs[r].state) ::
      FlowsTerminal(db, r) && db.runs[r].state == RunVerdict(db, r)
  }

  ghost predicate Shape(db: Tables) { Linked(db) && RetryPaths(db) && FlowsSettled(db) && RunsSettled(db) }

  function SumCost(steps: seq<Step>, run: Id): real {
    if steps == [] then 0.0
    else
      SumCost(steps[..|steps| - 1], run) +
      (if steps[|steps| - 1].runId == run then steps[|steps| - 1].costUsd else 0.0)
  }

  /** A Run's cost is the sum of its Steps' costs; only completed Steps cost anything. */
  ghost predicate Accounts(db: Tables) {
    && (forall r | 0 <= r < |db.runs| ::
          db.runs[r].costUsd == SumCost(db.steps, r) && 0 <= db.runs[r].tokensUsed && WithinBudget(db.runs[r]))
    && (forall s | 0 <= s < |db.steps| && !Completed(db.steps[s].state) :: db.steps[s].costUsd == 0.0)
  }

  predicate Completed(state: StepState) { state.StepSucceeded? || state.StepFailed? }

  /** A side-effect row exists only for a Step that succeeded or failed. */
  ghost predicate EffectsOwned(db: Tables) {
    forall k | k in db.effects :: k.0 < |db.steps| && Completed(db.steps[k.0].state)
  }

  /** Work that has started implies parents that have left pending. */
  ghost predicate Progress(db: Tables) {
    && (forall s | 0 <= s < |db.steps| && db.steps[s].flowId < |db.flows| ::
          !db.steps[s].state.StepExpired? &&
          (db.steps[s].state.StepRunning? || Completed(db.steps[s].state) ==>
             !db.flows[db.steps[s].flowId].state.FlowPending? && !db.flows[db.steps[s].flowId].state.FlowAssigned?))
    && (forall f | 0 <= f < |db.flows| && db.flows[f].runId < |db.runs| ::
          db.flows[f].state.FlowPending? || db.flows[f].state.FlowCancelled? ||
          !db.runs[db.flows[f].runId].state.RunPending?)
  }

  /** What the debit's WHERE clause and the CHECK on runs guarantee between them. */
  predicate Solvent(db: Tables) {
    forall r | 0 <= r < |db.runs| :: 0 <= db.runs[r].tokensUsed && WithinBudget(db.runs[r])
  }

  /** In every sound ledger the state of a finished Flow or Run says what happened below. */
  lemma TerminalStatesTell(db: Tables)
    requires Shape(db)
    ensures forall f | 0 <= f < |db.flows| && FlowTerminal(db.flows[f].state) :: FlowTells(db, f, db.flows[f].state)
    ensures forall r | 0 <= r < |db.runs| && RunTerminal(db.runs[r].state) :: RunTells(db, r, db.runs[r].state)
  {
    hide FlowTells, RunTells, LeavesTerminal, FlowsTerminal, FlowVerdict, RunVerdict;
    forall f | 0 <= f < |db.flows| && FlowTerminal(db.flows[f].state)
      ensures FlowTells(db, f, db.flows[f].state)
    { FlowVerdictTells(db, f); }
    forall r | 0 <= r < |db.runs| && RunTerminal(db.runs[r].state)
      ensures RunTells(db, r, db.runs[r].state)
    { RunVerdictTells(db, r); }
  }

  ghost predicate Safe(db: Tables) { Shape(db) && Accounts(db) }

  // ---- how rows move ----

  predicate SameArm(a: Step, b: Step) { a.agentType == b.agentType && a.provider == b.provider }

  predicate StepMoves(a: Step, b: Step) {
    && a.flowId == b.flowId && a.runId == b.runId && a.retryOf == b.retryOf && a.retryCount == b.retryCount
    && ValidStep(a.state, b.state)
    && a.version <= b.version
    && (a.version == b.version ==> a.state == b.state && SameArm(a, b))
    && (SameArm(a, b) || a.state.StepPending?)
  }

  predicate FlowMoves(a: Flow, b: Flow) {
    && a.runId == b.runId && ValidFlow(a.state, b.state)
    && a.version <= b.version && (a.version == b.version ==> a == b)
  }

  predicate RunMoves(a: Run, b: Run) {
    && a.tokenBudget == b.tokenBudget && ValidRun(a.state, b.state)
    && a.version <= b.version && (a.version == b.version ==> a.state == b.state)
    && (0 <= a.tokensUsed ==> a.tokensUsed <= b.tokensUsed)
  }

  /** One legal edge for every row, rows only added, side effects written once. */
  ghost predicate Moves(a: Tables, b: Tables) {
    && |a.runs| <= |b.runs| && (forall i | 0 <= i < |a.runs| :: RunMoves(a.runs[i], b.runs[i]))
    && |a.flows| <= |b.flows| && (forall i | 0 <= i < |a.flows| :: FlowMoves(a.flows[i], b.flows[i]))
    && |a.steps| <= |b.steps| && (forall i | 0 <= i < |a.steps| :: StepMoves(a.steps[i], b.steps[i]))
    && (forall k | k in a.effects :: k in b.effects && b.effects[k] == a.effects[k])
  }

  // ---- keeping the shape ----

  /** Every Step of a terminal Flow is terminal, leaf or not. */
  lemma TerminalFlowIsDone(db: Tables, s: Id)
    requires Shape(db) && s < |db.steps| && FlowTerminal(db.flows[db.steps[s].flowId].state)
    ensures StepTerminal(db.steps[s].state)
  {
    if LeafOf(db, db.steps[s].flowId, s) {
    } else {
      var r :| 0 <= r < |db.steps| && db.steps[r].retryOf == Some(s);
      assert RetryLink(db, r);
    }
  }

  lemma SameLeaves(a: Tables, b: Tables, f: Id)
    requires forall s :: LeafOf(a, f, s) <==> LeafOf(b, f, s)
    requires forall s | LeafOf(a, f, s) && LeafOf(b, f, s) :: a.steps[s].state == b.steps[s].state
    ensures LeavesTerminal(a, f) == LeavesTerminal(b, f) && FlowVerdict(a, f) == FlowVerdict(b, f)
  {
    forall st ensures HasLeaf(a, f, st) == HasLeaf(b, f, st) {
      if HasLeaf(a, f, st) {
        var s :| LeafOf(a, f, s) && a.steps[s].state == st;
        assert LeafOf(b, f, s) && b.steps[s].state == st;
      }
      if HasLeaf(b, f, st) {
        var s :| LeafOf(b, f, s) && b.steps[s].state == st;
        assert LeafOf(a, f, s) && a.steps[s].state == st;
      }
    }
  }

  lemma SameFlows(a: Tables, b: Tables, r: Id)
    requires forall f :: FlowIn(a, r, f) <==> FlowIn(b, r, f)
    requires forall f | FlowIn(a, r, f) && FlowIn(b, r, f) :: a.flows[f].state == b.flows[f].state
    ensures FlowsTerminal(a, r) == FlowsTerminal(b, r) && RunVerdict(a, r) == RunVerdict(b, r)
  {
    forall st ensures HasFlow(a, r, st) == HasFlow(b, r, st) {
      if HasFlow(a, r, st) {
        var f :| FlowIn(a, r, f) && a.flows[f].state == st;
        assert FlowIn(b, r, f) && b.flows[f].state == st;
      }
      if HasFlow(b, r, st) {
        var f :| FlowIn(b, r, f) && b.flows[f].state == st;
        assert FlowIn(a, r, f) && a.flows[f].state == st;
      }
    }
  }

  /** Moving Steps along their edges, whatever else happens to runs' amounts. */
  lemma StepMovesKeepShape(a: Tables, b: Tables)
    requires Shape(a)
    requires b.flows == a.flows && |b.runs| == |a.runs| &&
             (forall r | 0 <= r < |a.runs| :: a.runs[r].state == b.runs[r].state)
    requires |b.steps| == |a.steps| && (forall s | 0 <= s < |a.steps| :: StepMoves(a.steps[s], b.steps[s]))
    ensures Shape(b)
  {
    forall s | 0 <= s < |b.steps| ensures RetryLink(b, s) {
      assert RetryLink(a, s);
      assert StepMoves(a.steps[s], b.steps[s]);
    }
    forall f, s ensures LeafOf(a, f, s) <==> LeafOf(b, f, s) {
      if 0 <= s < |a.steps| {
        assert forall r | 0 <= r < |a.steps| ::
            StepMoves(a.steps[r], b.steps[r]) && a.steps[r].retryOf == b.steps[r].retryOf;
      }
    }
    forall f | 0 <= f < |b.flows| && FlowTerminal(b.flows[f].state)
      ensures LeavesTerminal(b, f) && b.flows[f].state == FlowVerdict(b, f)
    {
      forall s | LeafOf(a, f, s) ensures a.steps[s].state == b.steps[s].state {
        assert StepMoves(a.steps[s], b.steps[s]);
      }
      SameLeaves(a, b, f);
    }
    forall r | 0 <= r < |b.runs| && RunTerminal(b.runs[r].state)
      ensures FlowsTerminal(b, r) && b.runs[r].state == RunVerdict(b, r)
    { SameFlows(a, b, r); }
    assert Linked(b) by {
      forall s | 0 <= s < |b.steps|
        ensures b.steps[s].flowId < |b.flows| && b.steps[s].runId == b.flows[b.steps[s].flowId].runId
      { assert StepMoves(a.steps[s], b.steps[s]); }
    }
    assert RetryPaths(b) by {
      forall s, t | 0 <= s < t < |b.steps| && b.steps[s].retryOf.Some?
        ensures b.steps[s].retryOf != b.steps[t].retryOf
      {
        assert StepMoves(a.steps[s], b.steps[s]) && StepMoves(a.steps[t], b.steps[t]);
      }
    }
  }

  /** A Flow may move between live states, or settle on its leaves' verdict. */
  lemma FlowMoveKeepsShape(a: Tables, b: Tables, f: Id)
    requires Shape(a) && f < |a.flows| && !FlowTerminal(a.flows[f].state)
    requires |b.flows| == |a.flows| && b.flows == a.flows[f := b.flows[f]] && b.runs == a.runs && b.steps == a.steps
    requires b.flows[f].runId == a.flows[f].runId
    requires FlowTerminal(b.flows[f].state) ==> LeavesTerminal(a, f) && b.flows[f].state == FlowVerdict(a, f)
    ensures Shape(b)
  {
    assert forall g, s :: LeafOf(a, g, s) <==> LeafOf(b, g, s);
    forall g | 0 <= g < |b.flows| && FlowTerminal(b.flows[g].state)
      ensures LeavesTerminal(b, g) && b.flows[g].state == FlowVerdict(b, g)
    { SameLeaves(a, b, g); }
    forall r | 0 <= r < |b.runs| && RunTerminal(b.runs[r].state)
      ensures FlowsTerminal(b, r) && b.runs[r].state == RunVerdict(b, r)
    {
      assert !FlowIn(a, r, f);
      SameFlows(a, b, r);
    }
    forall s | 0 <= s < |b.steps| ensures RetryLink(b, s) { assert RetryLink(a, s); }
  }

  lemma RunMoveKeepsShape(a: Tables, b: Tables, r: Id)
    requires Shape(a) && r < |a.runs|
    requires |b.runs| == |a.runs| && b.runs == a.runs[r := b.runs[r]] && b.flows == a.flows && b.steps == a.steps
    requires RunTerminal(b.runs[r].state) ==> FlowsTerminal(a, r) && b.runs[r].state == RunVerdict(a, r)
    ensures Shape(b)
  {
    assert forall g, s :: LeafOf(a, g, s) <==> LeafOf(b, g, s);
    forall g | 0 <= g < |b.flows| && FlowTerminal(b.flows[g].state)
      ensures LeavesTerminal(b, g) && b.flows[g].state == FlowVerdict(b, g)
    { SameLeaves(a, b, g); }
    forall q | 0 <= q < |b.runs| && RunTerminal(b.runs[q].state)
      ensures FlowsTerminal(b, q) && b.runs[q].state == RunVerdict(b, q)
    { SameFlows(a, b, q); }
    forall s | 0 <= s < |b.steps| ensures RetryLink(b, s) { assert RetryLink(a, s); }
  }

  /** A new pending Step under a live Flow: an original, or the first retry of a failed leaf. */
  lemma AppendStepKeepsShape(a: Tables, b: Tables, row: Step)
    requires Shape(a) && b == a.(steps := a.steps + [row])
    requires row.flowId < |a.flows| && row.runId == a.flows[row.flowId].runId &&
             !FlowTerminal(a.flows[row.flowId].state)
    requires row.retryOf.None? ==> row.retryCount == 0
    requires row.retryOf.Some? ==>
               var p := row.retryOf.value;
               p < |a.steps| && IsLeaf(a, p) && a.steps[p].state.StepFailed? && a.steps[p].flowId == row.flowId &&
               row.retryCount == a.steps[p].retryCount + 1
    ensures Shape(b)
  {
    var n := |a.steps|;
    assert forall s | 0 <= s < n :: b.steps[s] == a.steps[s];
    forall s | 0 <= s < |b.steps| ensures RetryLink(b, s) { if s < n { assert RetryLink(a, s); } }
    forall f, s | f != row.flowId ensures LeafOf(a, f, s) <==> LeafOf(b, f, s) {
      if LeafOf(a, f, s) {
        forall r | 0 <= r < |b.steps| ensures b.steps[r].retryOf != Some(s) {
          if r < n { assert b.steps[r] == a.steps[r]; }
        }
      }
      if LeafOf(b, f, s) { assert s < n; assert forall r | 0 <= r < n :: a.steps[r] == b.steps[r]; }
    }
    forall f | 0 <= f < |b.flows| && FlowTerminal(b.flows[f].state)
      ensures LeavesTerminal(b, f) && b.flows[f].state == FlowVerdict(b, f)
    { SameLeaves(a, b, f); }
    forall r | 0 <= r < |b.runs| && RunTerminal(b.runs[r].state)
      ensures FlowsTerminal(b, r) && b.runs[r].state == RunVerdict(b, r)
    { SameFlows(a, b, r); }
  }

  lemma AppendFlowKeepsShape(a: Tables, b: Tables, runId: Id)
    requires Shape(a) && b == a.(flows := a.flows + [NewFlow(runId)])
    requires runId < |a.runs| && !RunTerminal(a.runs[runId].state)
    ensures Shape(b)
  {
    assert forall f | 0 <= f < |a.flows| :: b.flows[f] == a.flows[f];
    assert forall g, s :: LeafOf(a, g, s) <==> LeafOf(b, g, s);
    forall g | 0 <= g < |b.flows| && FlowTerminal(b.flows[g].state)
      ensures LeavesTerminal(b, g) && b.flows[g].state == FlowVerdict(b, g)
    { SameLeaves(a, b, g); }
    forall r | 0 <= r < |b.runs| && RunTerminal(b.runs[r].state)
      ensures FlowsTerminal(b, r) && b.runs[r].state == RunVerdict(b, r)
    { SameFlows(a, b, r); }
    forall s | 0 <= s < |b.steps| ensures RetryLink(b, s) { assert RetryLink(a, s); }
  }

  lemma AppendRunKeepsShape(a: Tables, b: Tables, budget: nat)
    requires Shape(a) && b == a.(runs := a.runs + [NewRun(budget)])
    ensures Shape(b)
  {
    assert forall r | 0 <= r < |a.runs| :: b.runs[r] == a.runs[r];
    assert forall g, s :: LeafOf(a, g, s) <==> LeafOf(b, g, s);
    forall g | 0 <= g < |b.flows| && FlowTerminal(b.flows[g].state)
      ensures LeavesTerminal(b, g) && b.flows[g].state == FlowVerdict(b, g)
    { SameLeaves(a, b, g); }
    forall r | 0 <= r < |b.runs| && RunTerminal(b.runs[r].state)
      ensures FlowsTerminal(b, r) && b.runs[r].state == RunVerdict(b, r)
    { SameFlows(a, b, r); }
    forall s | 0 <= s < |b.steps| ensures RetryLink(b, s) { assert RetryLink(a, s); }
  }

  /** A new original Step names a Flow and, separately, a Run. It keeps the ledger in
      shape exactly when the Run is the Flow's own and the Flow is not finalized. */
  lemma NewStepKeepsShapeIff(a: Tables, flowId: Id, runId: Id, tenant: string, agentType: string, provider: string)
    requires Shape(a) && flowId < |a.flows|
    ensures Shape(a.(steps := a.steps + [NewStep(flowId, runId, tenant, agentType, provider)])) <==>
            runId == a.flows[flowId].runId && !FlowTerminal(a.flows[flowId].state)
  {
    var row := NewStep(flowId, runId, tenant, agentType, provider);
    var b := a.(steps := a.steps + [row]);
    assert b.steps[|a.steps|] == row;
    if runId != a.flows[flowId].runId {
      assert !Linked(b);
    } else if FlowTerminal(a.flows[flowId].state) {
      forall r | 0 <= r < |b.steps| ensures b.steps[r].retryOf != Some(|a.steps|) {
        if r < |a.steps| { assert RetryLink(a, r); }
      }
      assert LeafOf(b, flowId, |a.steps|);
      assert !LeavesTerminal(b, flowId);
    } else {
      AppendStepKeepsShape(a, b, row);
    }
  }

  lemma NewFlowKeepsShapeIff(a: Tables, runId: Id)
    requires Shape(a) && runId < |a.runs|
    ensures Shape(a.(flows := a.flows + [NewFlow(runId)])) <==> !RunTerminal(a.runs[runId].state)
  {
    var b := a.(flows := a.flows + [NewFlow(runId)]);
    if RunTerminal(a.runs[runId].state) {
      assert FlowIn(b, runId, |a.flows|) && b.flows[|a.flows|] == NewFlow(runId);
      assert !FlowsTerminal(b, runId);
    } else {
      AppendFlowKeepsShape(a, b, runId);
    }
  }

  /** A versioned write along a legal edge of a Flow: a start never hurts, a finish keeps
      the shape exactly when the leaves, as they stand at the write, are terminal with
      that verdict. */
  lemma FlowWriteKeepsShapeIff(a: Tables, f: Id, to: FlowState, node: string)
    requires Shape(a) && f < |a.flows| && ValidFlow(a.flows[f].state, to)
    ensures Shape(WriteFlow(a, f, a.flows[f].version, to, node).db) <==>
            (FlowTerminal(to) ==> LeavesTerminal(a, f) && to == FlowVerdict(a, f))
  {
    var b := WriteFlow(a, f, a.flows[f].version, to, node).db;
    if FlowTerminal(a.flows[f].state) {
      RelabelKeepsShape(a, b);
    } else if FlowTerminal(to) ==> LeavesTerminal(a, f) && to == FlowVerdict(a, f) {
      FlowMoveKeepsShape(a, b, f);
    } else {
      assert forall g, s :: LeafOf(a, g, s) <==> LeafOf(b, g, s);
      SameLeaves(a, b, f);
      assert b.flows[f].state == to;
    }
  }

  /** Versions and nodes of Flows are no part of the shape. */
  lemma RelabelKeepsShape(a: Tables, b: Tables)
    requires Shape(a) && b == a.(flows := b.flows) && |b.flows| == |a.flows|
    requires forall f | 0 <= f < |a.flows| ::
             b.flows[f].runId == a.flows[f].runId && b.flows[f].state == a.flows[f].state
    ensures Shape(b)
  {
    assert forall g, s :: LeafOf(a, g, s) <==> LeafOf(b, g, s);
    forall g | 0 <= g < |b.flows| && FlowTerminal(b.flows[g].state)
      ensures LeavesTerminal(b, g) && b.flows[g].state == FlowVerdict(b, g)
    { SameLeaves(a, b, g); }
    forall r | 0 <= r < |b.runs| && RunTerminal(b.runs[r].state)
      ensures FlowsTerminal(b, r) && b.runs[r].state == RunVerdict(b, r)
    { SameFlows(a, b, r); }
    forall s | 0 <= s < |b.steps| ensures RetryLink(b, s) { assert RetryLink(a, s); }
  }

  lemma RunWriteKeepsShapeIff(a: Tables, r: Id, to: RunState)
    requires Shape(a) && r < |a.runs|
    ensures Shape(WriteRun(a, r, a.runs[r].version, to).db) <==>
            (RunTerminal(to) ==> FlowsTerminal(a, r) && to == RunVerdict(a, r))
  {
    var b := WriteRun(a, r, a.runs[r].version, to).db;
    if RunTerminal(to) ==> FlowsTerminal(a, r) && to == RunVerdict(a, r) {
      RunMoveKeepsShape(a, b, r);
    } else {
      assert forall g :: FlowIn(a, r, g) <==> FlowIn(b, r, g);
      SameFlows(a, b, r);
      assert b.runs[r].state == to;
    }
  }
}
