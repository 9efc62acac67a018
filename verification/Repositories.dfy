/** Data access over the tables. Every call may lose its connection before it
    commits (`Fault`); then it has changed nothing. */
module Repositories {
  import opened Options
  import opened Fsm
  import opened Ledger
  import opened LedgerInvariants
  import opened LedgerAccounts
  import opened RetryChains

  datatype StepStateCounts = StepStateCounts(
    total: nat, pending: nat, leased: nat, running: nat, succeeded: nat, failed: nat, cancelled: nat, expired: nat)
  {
    predicate AllTerminal() { total > 0 && pending + leased + running == 0 }
  }

  datatype FlowStateCounts = FlowStateCounts(
    total: nat, pending: nat, onNode: nat, running: nat, succeeded: nat, failed: nat, cancelled: nat)
  {
    predicate AllTerminal() { total > 0 && pending + onNode + running == 0 }
  }

  /** The leaves of a Flow in one state, among the first `n` rows. */
  ghost function LeavesIn(db: Tables, f: Id, state: StepState, n: nat): set<nat>
    requires n <= |db.steps|
  {
    set s | 0 <= s < n && LeafOf(db, f, s) && db.steps[s].state == state
  }

  ghost function FlowsInState(db: Tables, r: Id, state: FlowState, n: nat): set<nat>
    requires n <= |db.flows|
  {
    set f | 0 <= f < n && FlowIn(db, r, f) && db.flows[f].state == state
  }

  ghost function LeafCount(db: Tables, f: Id, state: StepState): nat { |LeavesIn(db, f, state, |db.steps|)| }

  ghost function FlowCount(db: Tables, r: Id, state: FlowState): nat { |FlowsInState(db, r, state, |db.flows|)| }

  ghost predicate CountsLeaves(db: Tables, f: Id, c: StepStateCounts) {
    && c.pending == LeafCount(db, f, StepPending) && c.leased == LeafCount(db, f, StepLeased)
    && c.running == LeafCount(db, f, StepRunning) && c.succeeded == LeafCount(db, f, StepSucceeded)
    && c.failed == LeafCount(db, f, StepFailed) && c.cancelled == LeafCount(db, f, StepCancelled)
    && c.expired == LeafCount(db, f, StepExpired)
    && c.total == c.pending + c.leased + c.running + c.succeeded + c.failed + c.cancelled + c.expired
  }

  ghost predicate CountsFlows(db: Tables, r: Id, c: FlowStateCounts) {
    && c.pending == FlowCount(db, r, FlowPending) && c.onNode == FlowCount(db, r, FlowAssigned)
    && c.running == FlowCount(db, r, FlowRunning) && c.succeeded == FlowCount(db, r, FlowSucceeded)
    && c.failed == FlowCount(db, r, FlowFailed) && c.cancelled == FlowCount(db, r, FlowCancelled)
    && c.total == c.pending + c.onNode + c.running + c.succeeded + c.failed + c.cancelled
  }

  lemma NoLeavesYet(db: Tables, f: Id, state: StepState)
    ensures LeavesIn(db, f, state, 0) == {}
  {
  }

  lemma LeavesInOneMore(db: Tables, f: Id, state: StepState, n: nat)
    requires n < |db.steps|
    ensures |LeavesIn(db, f, state, n + 1)| ==
            |LeavesIn(db, f, state, n)| + if LeafOf(db, f, n) && db.steps[n].state == state then 1 else 0
  {
    if LeafOf(db, f, n) && db.steps[n].state == state {
      assert LeavesIn(db, f, state, n + 1) == LeavesIn(db, f, state, n) + {n};
    } else {
      assert LeavesIn(db, f, state, n + 1) == LeavesIn(db, f, state, n);
    }
  }

  lemma LeafCountPositive(db: Tables, f: Id, state: StepState)
    ensures LeafCount(db, f, state) > 0 <==> HasLeaf(db, f, state)
  {
    var leaves := LeavesIn(db, f, state, |db.steps|);
    if s :| LeafOf(db, f, s) && db.steps[s].state == state {
      assert s in leaves;
    }
    if leaves != {} {
      var s: nat :| s in leaves;
      assert HasLeaf(db, f, state);
    }
  }

  lemma FlowCountPositive(db: Tables, r: Id, state: FlowState)
    ensures FlowCount(db, r, state) > 0 <==> HasFlow(db, r, state)
  {
    var flows := FlowsInState(db, r, state, |db.flows|);
    if f :| FlowIn(db, r, f) && db.flows[f].state == state {
      assert f in flows;
    }
    if flows != {} {
      var f: nat :| f in flows;
      assert HasFlow(db, r, state);
    }
  }

  /** What the counters decide is what the leaves themselves say. */
  lemma CountsDecideFlow(db: Tables, f: Id, c: StepStateCounts)
    requires CountsLeaves(db, f, c)
    ensures c.AllTerminal() <==> LeavesTerminal(db, f)
    ensures FlowVerdict(db, f) ==
            if c.failed > 0 || c.expired > 0 then FlowFailed else if c.cancelled > 0 then FlowCancelled
                else FlowSucceeded
  {
    hide LeafCount, IsLeaf;
    forall st ensures LeafCount(db, f, st) > 0 <==> HasLeaf(db, f, st) { LeafCountPositive(db, f, st); }
    if s :| LeafOf(db, f, s) {
      assert HasLeaf(db, f, db.steps[s].state);
    }
    if c.AllTerminal() {
      forall s | LeafOf(db, f, s) ensures StepTerminal(db.steps[s].state) { assert HasLeaf(db, f, db.steps[s].state); }
      var st :| HasLeaf(db, f, st);
    }
  }

  lemma CountsDecideRun(db: Tables, r: Id, c: FlowStateCounts)
    requires CountsFlows(db, r, c)
    ensures c.AllTerminal() <==> FlowsTerminal(db, r)
    ensures RunVerdict(db, r) == if c.failed > 0 then RunFailed else if c.cancelled > 0 then RunCancelled
            else RunSucceeded
  {
    forall st ensures FlowCount(db, r, st) > 0 <==> HasFlow(db, r, st) { FlowCountPositive(db, r, st); }
    if f :| FlowIn(db, r, f) {
      assert HasFlow(db, r, db.flows[f].state);
    }
    if c.AllTerminal() {
      forall f | FlowIn(db, r, f) ensures FlowTerminal(db.flows[f].state) { assert HasFlow(db, r, db.flows[f].state); }
      var st :| HasFlow(db, r, st);
    }
  }

  function Ordinal(s: StepState): nat {
    match s
    case StepPending => 0 case StepLeased => 1 case StepRunning => 2 case StepSucceeded => 3
    case StepFailed => 4 case StepCancelled => 5 case StepExpired => 6
  }

  ghost function LeavesBelow(db: Tables, f: Id, k: nat): set<nat> {
    set s | 0 <= s < |db.steps| && LeafOf(db, f, s) && Ordinal(db.steps[s].state) < k
  }

  lemma OneMoreState(db: Tables, f: Id, state: StepState)
    ensures |LeavesBelow(db, f, Ordinal(state) + 1)| == |LeavesBelow(db, f, Ordinal(state))| + LeafCount(db, f, state)
  {
    var fewer, more := LeavesBelow(db, f, Ordinal(state)), LeavesIn(db, f, state, |db.steps|);
    assert LeavesBelow(db, f, Ordinal(state) + 1) == fewer + more;
    assert fewer !! more;
  }

  lemma NoneBelowZero(db: Tables, f: Id)
    ensures |LeavesBelow(db, f, 0)| == 0
  {
    assert LeavesBelow(db, f, 0) == {};
  }

  lemma AllBelowSeven(db: Tables, f: Id)
    ensures |LeavesBelow(db, f, 7)| == |LeafIds(db, f)|
  {
    assert LeavesBelow(db, f, 7) == LeafIds(db, f);
  }

  lemma LeavesSplitByState(db: Tables, f: Id)
    ensures |LeafIds(db, f)| ==
            LeafCount(db, f, StepPending) + LeafCount(db, f, StepLeased) + LeafCount(db, f, StepRunning) +
            LeafCount(db, f, StepSucceeded) + LeafCount(db, f, StepFailed) + LeafCount(db, f, StepCancelled) +
            LeafCount(db, f, StepExpired)
  {
    hide LeavesBelow, LeafIds;
    NoneBelowZero(db, f);
    OneMoreState(db, f, StepPending);
    OneMoreState(db, f, StepLeased);
    OneMoreState(db, f, StepRunning);
    OneMoreState(db, f, StepSucceeded);
    OneMoreState(db, f, StepFailed);
    OneMoreState(db, f, StepCancelled);
    OneMoreState(db, f, StepExpired);
    AllBelowSeven(db, f);
  }

  /** The Total a Flow is judged by is its number of original Steps. */
  lemma TotalCountsOriginals(db: Tables, f: Id, c: StepStateCounts)
    requires RetryPaths(db) && CountsLeaves(db, f, c)
    ensures c.total == |OriginalIds(db, f)|
  {
    LeavesCountOriginals(db, f);
    LeavesSplitByState(db, f);
  }

  /** What the pending query selects. */
  predicate Due(s: Step, tenant: string) { s.state.StepPending? && (tenant == "" || s.tenant == tenant) }

  predicate Listed(copies: seq<StepCopy>, s: Id) { exists i | 0 <= i < |copies| :: copies[i].id == s }

  class Repository {
    var runs: seq<Run>
    var flows: seq<Flow>
    var steps: seq<Step>
    var effects: map<(Id, int), EffectRow>
    /** How many calls have lost their connection. */
    ghost var faults: nat

    ghost function View(): Tables reads this { Tables(runs, flows, steps, effects) }

    /** The outcome of one call: a fault that changed nothing, or what the transaction decides. */
    twostate predicate Performs(new err: Error, new outcome: Outcome)
      reads this
    {
      if err.Fault? then View() == old(View()) && faults == old(faults) + 1
      else View() == outcome.db && err == outcome.err && faults == old(faults)
    }

    constructor ()
      ensures View() == Tables([], [], [], map[]) && faults == 0
    {
      runs, flows, steps, effects, faults := [], [], [], map[], 0;
    }

    method Connects() returns (ok: bool)
      modifies this`faults
      ensures faults == if ok then old(faults) else old(faults) + 1
    {
      ok := *;
      if !ok { faults := faults + 1; }
    }

    method T1LeaseMirror(req: LeaseMirror) returns (err: Error)
      modifies this
      ensures Performs(err, T1(old(View()), req))
      ensures !err.Ok? ==> View() == old(View())
      ensures old(req.stepId < |steps| &&
              (steps[req.stepId].state.StepPending? || steps[req.stepId].state.StepLeased?) &&
                  req.runId < |runs|) && !err.Fault? ==>
                (err.BudgetExhausted? || err.Ok?) &&
                (err.BudgetExhausted? <==>
                   var run := old(runs)[req.runId];
                   req.estimatedTokens > 0 && 0 < run.tokenBudget < run.tokensUsed + req.estimatedTokens)
      ensures err.Ok? ==>
                req.stepId < |old(steps)| && flows == old(flows) && effects == old(effects) &&
                (var row := old(steps)[req.stepId];
                 (row.state.StepPending? || row.state.StepLeased?) &&
                 steps == old(steps)[req.stepId :=
                     row.(state := StepLeased, leaseNode := req.nodeId, leaseExpires := Some(req.leaseExpiresAt),
                          version := row.version + 1)]) &&
                if req.estimatedTokens > 0 then
                  req.runId < |old(runs)| &&
                  runs == old(runs)[req.runId :=
                      old(runs)[req.runId].(tokensUsed := old(runs)[req.runId].tokensUsed + req.estimatedTokens)]
                else runs == old(runs)
      ensures old(Safe(View())) ==> Safe(View())
    {
      if Safe(View()) { T1KeepsSafe(View(), req); }
      var ok := Connects();
      if !ok { return Fault; }
      if req.stepId >= |steps| { return NotFound; }
      var row := steps[req.stepId];
      if !ValidStep(row.state, StepLeased) { return FsmRejected; }
      if req.estimatedTokens > 0 {
        if req.runId >= |runs| { return BudgetExhausted; }
        var run := runs[req.runId];
        if run.tokenBudget != 0 && run.tokensUsed + req.estimatedTokens > run.tokenBudget { return BudgetExhausted; }
        runs := runs[req.runId := run.(tokensUsed := run.tokensUsed + req.estimatedTokens)];
      }
      steps := steps[req.stepId := row.(state := StepLeased, leaseNode := req.nodeId,
                                        leaseExpires := Some(req.leaseExpiresAt), version := row.version + 1)];
      return Ok;
    }

    /** The batch, row by row, inside the completing transaction; the first entry
        whose step does not exist aborts it. */
    method InsertSideEffects(batch: seq<Effect>, owner: Id) returns (ok: bool, rows: map<(Id, int), EffectRow>)
      ensures ok <==> OwnersExist(View(), batch, owner)
      ensures ok ==> rows == InsertEffects(effects, batch, owner)
    {
      rows := effects;
      for i := 0 to |batch|
        invariant rows == InsertEffects(effects, batch[..i], owner)
        invariant forall j | 0 <= j < i :: EffectKey(batch[j], owner).0 < |steps|
      {
        var key := EffectKey(batch[i], owner);
        assert batch[..i + 1][..i] == batch[..i];
        if key.0 >= |steps| { return false, rows; }
        if key !in rows { rows := rows[key := NewEffectRow(batch[i])]; }
      }
      assert batch[..|batch|] == batch;
      ok := true;
    }

    method T2StepComplete(c: Completion) returns (err: Error)
      modifies this
      ensures Performs(err, T2(old(View()), c))
      ensures !err.Ok? ==> View() == old(View())
      ensures err.Ok? ==>
                c.stepId < |old(steps)| && (c.finalState.StepSucceeded? || c.finalState.StepFailed?) &&
                var row := old(steps)[c.stepId];
                (row.state.StepRunning? || row.state == c.finalState) && flows == old(flows) &&
                steps == old(steps)[c.stepId :=
                    row.(state := c.finalState, tokensUsed := c.tokensUsed, costUsd := c.costUsd,
                         failureReason := c.failureReason, version := row.version + 1)]
      ensures old(Safe(View()) && c.stepId < |steps| && steps[c.stepId].state.StepRunning?) ==> Safe(View())
    {
      if Safe(View()) && c.stepId < |steps| && steps[c.stepId].state.StepRunning? { T2KeepsSafe(View(), c); }
      err := Complete(c);
    }

    method Complete(c: Completion) returns (err: Error)
      modifies this
      ensures Performs(err, T2(old(View()), c))
    {
      var ok := Connects();
      if !ok { return Fault; }
      if !c.finalState.StepSucceeded? && !c.finalState.StepFailed? { return BadFinalState; }
      if c.stepId >= |steps| { return NotFound; }
      var step := steps[c.stepId];
      if !ValidStep(step.state, c.finalState) { return FsmRejected; }
      step := step.(state := c.finalState, tokensUsed := c.tokensUsed, costUsd := c.costUsd,
                    failureReason := c.failureReason, version := step.version + 1);
      var inserted, rows := InsertSideEffects(c.effects, c.stepId);
      if !inserted { return Constraint; }
      if step.runId < |runs| {
        var run := runs[step.runId];
        var spent := run.tokensUsed - step.tokensUsed;
        run := run.(costUsd := run.costUsd + c.costUsd, tokensUsed := (if spent < 0 then 0 else spent) + c.tokensUsed);
        if run.tokensUsed > run.tokenBudget && run.tokenBudget != 0 { return Constraint; }
        runs := runs[step.runId := run];
      }
      steps, effects := steps[c.stepId := step], rows;
      return Ok;
    }

    method T3LeaseRenewal(stepId: Id, expires: Time) returns (err: Error)
      modifies this
      ensures Performs(err, Outcome(T3(old(View()), stepId, expires), Ok))
      ensures runs == old(runs) && flows == old(flows) && effects == old(effects)
      ensures steps == if err.Ok? && stepId < |old(steps)| &&
                         (old(steps)[stepId].state.StepLeased? || old(steps)[stepId].state.StepRunning?)
                       then old(steps)[stepId := old(steps)[stepId].(leaseExpires := Some(expires))] else old(steps)
      ensures old(Safe(View())) ==> Safe(View())
    {
      if Safe(View()) { T3KeepsSafe(View(), stepId, expires); }
      var ok := Connects();
      if !ok { return Fault; }
      if stepId < |steps| && (steps[stepId].state.StepLeased? || steps[stepId].state.StepRunning?) {
        steps := steps[stepId := steps[stepId].(leaseExpires := Some(expires))];
      }
      return Ok;
    }

    method T4ExpiryBackupScanner(now: Time) returns (err: Error, recovered: seq<Id>)
      modifies this
      ensures Performs(err, Outcome(T4(old(View()), now), Ok))
      ensures old(Safe(View())) ==> Safe(View())
      ensures err.Ok? ==> forall s: nat :: s in recovered <==> s < |old(steps)| && Overdue(old(steps)[s], now)
      ensures runs == old(runs) && flows == old(flows) && effects == old(effects) && |steps| == |old(steps)|
      ensures err.Ok? ==>
                forall s: nat | s < |steps| ::
                  var row := old(steps)[s];
                  steps[s] == if (row.state.StepLeased? || row.state.StepRunning?) && row.leaseExpires.Some? &&
                                 row.leaseExpires.value < now
                              then row.(state := StepPending, leaseNode := "", leaseExpires := None,
                                        version := row.version + 1)
                              else row
    {
      if Safe(View()) { T4KeepsSafe(View(), now); }
      recovered := [];
      var ok := Connects();
      if !ok { return Fault, []; }
      ghost var was := steps;
      for i := 0 to |steps|
        invariant |steps| == |was| && runs == old(runs) && flows == old(flows) && effects == old(effects)
        invariant faults == old(faults)
        invariant forall j | 0 <= j < |was| :: steps[j] == if j < i && Overdue(was[j], now) then RecoveredRow(was[j])
                  else was[j]
        invariant forall s: nat :: s in recovered <==> s < i && Overdue(was[s], now)
      {
        var s := steps[i];
        if (s.state.StepLeased? || s.state.StepRunning?) && s.leaseExpires.Some? && s.leaseExpires.value < now {
          steps := steps[i :=
              s.(state := StepPending, leaseNode := "", leaseExpires := None, version := s.version + 1)];
          recovered := recovered + [i];
        }
      }
      assert steps == Scan(was, now);
      err := Ok;
    }

    method MarkStepRunning(stepId: Id) returns (err: Error)
      modifies this
      ensures Performs(err, MarkRunning(old(View()), stepId))
      ensures !err.Fault? ==>
                (err.Ok? <==>
                   stepId < |old(steps)| &&
                   (old(steps)[stepId].state.StepLeased? || old(steps)[stepId].state.StepRunning?))
      ensures View() == if !err.Ok? then old(View()) else
                old(View()).(steps := old(steps)[stepId :=
                    old(steps)[stepId].(state := StepRunning, version := old(steps)[stepId].version + 1)])
      ensures old(Safe(View())) ==> Safe(View())
    {
      if Safe(View()) { MarkRunningKeepsSafe(View(), stepId); }
      var ok := Connects();
      if !ok { return Fault; }
      if stepId >= |steps| { return NotFound; }
      if !ValidStep(steps[stepId].state, StepRunning) { return FsmRejected; }
      steps := steps[stepId := steps[stepId].(state := StepRunning, version := steps[stepId].version + 1)];
      return Ok;
    }

    method UpdateStepArm(stepId: Id, agentType: string, provider: string) returns (err: Error)
      modifies this
      ensures Performs(err, UpdateArm(old(View()), stepId, agentType, provider))
      ensures !err.Fault? ==> (err.Ok? <==> stepId < |old(steps)| && old(steps)[stepId].state.StepPending?)
      ensures View() == if !err.Ok? then old(View()) else
                var row := old(steps)[stepId];
                old(View()).(steps := old(steps)[stepId :=
                    row.(agentType := if agentType == "" then row.agentType else agentType,
                         provider := if provider == "" then row.provider else provider, version := row.version + 1)])
      ensures old(Safe(View())) ==> Safe(View())
    {
      if Safe(View()) { UpdateArmKeepsSafe(View(), stepId, agentType, provider); }
      var ok := Connects();
      if !ok { return Fault; }
      if stepId >= |steps| || !steps[stepId].state.StepPending? { return VersionConflict; }
      var s := steps[stepId];
      if agentType != "" { s := s.(agentType := agentType); }
      if provider != "" { s := s.(provider := provider); }
      steps := steps[stepId := s.(version := s.version + 1)];
      return Ok;
    }

    method UpdateRunState(id: Id, expectedVersion: nat, to: RunState) returns (err: Error)
      modifies this
      ensures Performs(err, if CheckRun(old(View()), id, expectedVersion, to).Ok?
              then WriteRun(old(View()), id, expectedVersion, to)
                            else Outcome(old(View()), CheckRun(old(View()), id, expectedVersion, to)))
      ensures !err.Fault? ==>
                (err.Ok? <==>
                   id < |old(runs)| && old(runs)[id].version == expectedVersion && ValidRun(old(runs)[id].state, to))
      ensures View() == if !err.Ok? then old(View()) else
                old(View()).(runs := old(runs)[id := old(runs)[id].(state := to, version := expectedVersion + 1)])
    {
      var ok := Connects();
      if !ok { return Fault; }
      if id >= |runs| { return NotFound; }
      if runs[id].version != expectedVersion { return VersionConflict; }
      if !ValidRun(runs[id].state, to) { return FsmRejected; }
      runs := runs[id := runs[id].(state := to, version := expectedVersion + 1)];
      return Ok;
    }

    method UpdateFlowState(id: Id, expectedVersion: nat, to: FlowState, assignedNode: string) returns (err: Error)
      modifies this
      ensures Performs(err, if CheckFlow(old(View()), id, expectedVersion, to).Ok?
              then WriteFlow(old(View()), id, expectedVersion, to, assignedNode)
                            else Outcome(old(View()), CheckFlow(old(View()), id, expectedVersion, to)))
      ensures !err.Fault? ==>
                (err.Ok? <==>
                   id < |old(flows)| && old(flows)[id].version == expectedVersion &&
                   ValidFlow(old(flows)[id].state, to))
      ensures View() == if !err.Ok? then old(View()) else
                old(View()).(flows := old(flows)[id :=
                    old(flows)[id].(state := to, version := expectedVersion + 1,
                        assignedNode := if assignedNode == "" then old(flows)[id].assignedNode else assignedNode)])
    {
      var ok := Connects();
      if !ok { return Fault; }
      if id >= |flows| { return NotFound; }
      if flows[id].version != expectedVersion { return VersionConflict; }
      if !ValidFlow(flows[id].state, to) { return FsmRejected; }
      var node := if assignedNode == "" then flows[id].assignedNode else assignedNode;
      flows := flows[id := flows[id].(state := to, assignedNode := node, version := expectedVersion + 1)];
      return Ok;
    }

    method UpdateStepStateFromScheduler(id: Id, expectedVersion: nat, to: StepState) returns (err: Error)
      modifies this
      ensures Performs(err, if CheckStep(old(View()), id, expectedVersion, to).Ok?
              then WriteStep(old(View()), id, expectedVersion, to)
                            else Outcome(old(View()), CheckStep(old(View()), id, expectedVersion, to)))
      ensures !err.Fault? ==>
                (err.Ok? <==>
                   id < |old(steps)| && old(steps)[id].version == expectedVersion &&
                   ValidStep(old(steps)[id].state, to))
      ensures View() == if !err.Ok? then old(View()) else
                old(View()).(steps := old(steps)[id := old(steps)[id].(state := to, version := expectedVersion + 1)])
      ensures old(Safe(View())) && !Completed(to) ==> Safe(View())
    {
      if Safe(View()) && !Completed(to) && CheckStep(View(), id, expectedVersion, to).Ok? {
        WriteStepKeepsSafe(View(), id, expectedVersion, to);
      }
      var ok := Connects();
      if !ok { return Fault; }
      if id >= |steps| { return NotFound; }
      if steps[id].version != expectedVersion { return VersionConflict; }
      if !ValidStep(steps[id].state, to) { return FsmRejected; }
      steps := steps[id := steps[id].(state := to, version := expectedVersion + 1)];
      return Ok;
    }

    method InsertRun(budget: nat) returns (err: Error)
      modifies this
      ensures Performs(err, Outcome(old(View()).(runs := old(runs) + [NewRun(budget)]), Ok))
      ensures err.Ok? ==> runs == old(runs) + [Run(RunPending, budget, 0, 0.0, 0)]
    {
      var ok := Connects();
      if !ok { return Fault; }
      runs := runs + [NewRun(budget)];
      return Ok;
    }

    method InsertFlow(runId: Id) returns (err: Error)
      modifies this
      ensures Performs(err, if runId < |old(runs)|
              then Outcome(old(View()).(flows := old(flows) + [NewFlow(runId)]), Ok)
                            else Outcome(old(View()), Constraint))
      ensures err.Ok? ==> flows == old(flows) + [Flow(runId, "", FlowPending, 0)]
    {
      var ok := Connects();
      if !ok { return Fault; }
      if runId >= |runs| { return Constraint; }
      flows := flows + [NewFlow(runId)];
      return Ok;
    }

    method InsertStep(flowId: Id, runId: Id, tenant: string, agentType: string, provider: string)
      returns (err: Error)
      modifies this
      ensures Performs(err,
                if flowId >= |old(flows)| then Outcome(old(View()), Constraint) else
                Outcome(old(View()).(steps := old(steps) + [NewStep(flowId, runId, tenant, agentType, provider)]), Ok))
      ensures err.Ok? ==>
                steps == old(steps) + [Step(flowId, runId, tenant, StepPending, agentType, provider,
                                            "", None, 0, 0.0, "", None, 0, 0)]
    {
      var ok := Connects();
      if !ok { return Fault; }
      if flowId >= |flows| { return Constraint; }
      steps := steps + [NewStep(flowId, runId, tenant, agentType, provider)];
      return Ok;
    }

    method InsertRetryStep(parent: StepCopy) returns (err: Error)
      modifies this
      ensures Performs(err, InsertRetry(old(View()), parent))
      ensures !err.Fault? ==> (err.Ok? <==> parent.id < |old(steps)| && parent.flowId < |old(flows)|)
      ensures err.Ok? ==>
                steps == old(steps) + [Step(parent.flowId, parent.runId, parent.tenant, StepPending, parent.agentType,
                                            parent.provider, "", None, 0, 0.0, "", Some(parent.id),
                                            parent.retryCount + 1, 0)]
    {
      var ok := Connects();
      if !ok { return Fault; }
      if parent.id >= |steps| || parent.flowId >= |flows| { return Constraint; }
      steps := steps + [Step(parent.flowId, parent.runId, parent.tenant, StepPending, parent.agentType, parent.provider,
                             "", None, 0, 0.0, "", Some(parent.id), parent.retryCount + 1, 0)];
      return Ok;
    }

    /** The oldest pending rows of a tenant, or of all when none is named; at most
        `limit` of them, or 50 when none is given. */
    method ListPendingSteps(tenant: string, limit: int) returns (err: Error, out: seq<StepCopy>)
      modifies this`faults
      ensures faults == if err.Fault? then old(faults) + 1 else old(faults)
      ensures err.Ok? || (err.Fault? && out == [])
      ensures |out| <= if limit <= 0 then 50 else limit
      ensures forall i | 0 <= i < |out| ::
                out[i].id < |steps| && out[i] == CopyOf(View(), out[i].id) &&
                out[i].tenant == steps[out[i].id].tenant &&
                out[i].agentType == steps[out[i].id].agentType && out[i].provider == steps[out[i].id].provider &&
                out[i].flowId == steps[out[i].id].flowId && out[i].runId == steps[out[i].id].runId &&
                out[i].retryCount == steps[out[i].id].retryCount &&
                steps[out[i].id].state.StepPending? && (tenant == "" || out[i].tenant == tenant)
      ensures forall i, j | 0 <= i < j < |out| :: out[i].id < out[j].id
      ensures err.Ok? ==>
                forall s: nat | s < |steps| && steps[s].state.StepPending? &&
                    (tenant == "" || steps[s].tenant == tenant) ::
                  Listed(out, s) || (|out| == (if limit <= 0 then 50 else limit) && out[|out| - 1].id < s)
    {
      out := [];
      var ok := Connects();
      if !ok { return Fault, []; }
      err := Ok;
      var bound := if limit <= 0 then 50 else limit;
      var s := 0;
      while s < |steps| && |out| < bound
        invariant 0 <= s <= |steps| && |out| <= bound
        invariant forall i | 0 <= i < |out| ::
                    out[i].id < s && Due(steps[out[i].id], tenant) && out[i] == CopyOf(View(), out[i].id)
        invariant forall i, j | 0 <= i < j < |out| :: out[i].id < out[j].id
        invariant forall t: nat | t < s && Due(steps[t], tenant) :: Listed(out, t)
      {
        if steps[s].state.StepPending? && (tenant == "" || steps[s].tenant == tenant) {
          var row := steps[s];
          var was := out;
          out := out + [StepCopy(s, row.flowId, row.runId, row.tenant, row.agentType, row.provider, row.retryCount)];
          assert out[|was|].id == s;
          forall t: nat | Listed(was, t) ensures Listed(out, t) {
            var i :| 0 <= i < |was| && was[i].id == t;
            assert out[i].id == t;
          }
        }
        s := s + 1;
      }
    }

    /** The NOT EXISTS of the count: no row names this one as its retry parent. */
    method IsLeafRow(s: Id) returns (leaf: bool)
      ensures leaf <==> IsLeaf(View(), s)
    {
      for r := 0 to |steps|
        invariant forall q | 0 <= q < r :: steps[q].retryOf != Some(s)
      {
        if steps[r].retryOf == Some(s) { return false; }
      }
      leaf := true;
    }

    /** The number of a Flow's leaves in one state: one row of the GROUP BY. */
    method CountLeaves(flowId: Id, state: StepState) returns (n: nat)
      ensures n == LeafCount(View(), flowId, state)
    {
      hide IsLeaf, LeavesIn;
      n := 0;
      assert LeavesIn(View(), flowId, state, 0) == {} by { NoLeavesYet(View(), flowId, state); }
      for s := 0 to |steps|
        invariant n == |LeavesIn(View(), flowId, state, s)|
      {
        LeavesInOneMore(View(), flowId, state, s);
        var leaf := IsLeafRow(s);
        if leaf && steps[s].flowId == flowId && steps[s].state == state { n := n + 1; }
      }
    }

    method CountStepsByFlow(flowId: Id) returns (err: Error, out: StepStateCounts)
      modifies this`faults
      ensures err.Ok? || err.Fault?
      ensures faults == if err.Fault? then old(faults) + 1 else old(faults)
      ensures err.Ok? ==> CountsLeaves(View(), flowId, out)
    {
      out := StepStateCounts(0, 0, 0, 0, 0, 0, 0, 0);
      var ok := Connects();
      if !ok { return Fault, out; }
      var pending := CountLeaves(flowId, StepPending);
      var leased := CountLeaves(flowId, StepLeased);
      var running := CountLeaves(flowId, StepRunning);
      var succeeded := CountLeaves(flowId, StepSucceeded);
      var failed := CountLeaves(flowId, StepFailed);
      var cancelled := CountLeaves(flowId, StepCancelled);
      var expired := CountLeaves(flowId, StepExpired);
      var total := pending + leased + running + succeeded + failed + cancelled + expired;
      return Ok, StepStateCounts(total, pending, leased, running, succeeded, failed, cancelled, expired);
    }

    method CountFlows(runId: Id, state: FlowState) returns (n: nat)
      ensures n == FlowCount(View(), runId, state)
    {
      n := 0;
      for f := 0 to |flows|
        invariant n == |FlowsInState(View(), runId, state, f)|
      {
        if flows[f].runId == runId && flows[f].state == state {
          assert FlowsInState(View(), runId, state, f + 1) == FlowsInState(View(), runId, state, f) + {f};
          n := n + 1;
        } else {
          assert FlowsInState(View(), runId, state, f + 1) == FlowsInState(View(), runId, state, f);
        }
      }
    }

    method CountFlowsByRun(runId: Id) returns (err: Error, out: FlowStateCounts)
      modifies this`faults
      ensures err.Ok? || err.Fault?
      ensures faults == if err.Fault? then old(faults) + 1 else old(faults)
      ensures err.Ok? ==> CountsFlows(View(), runId, out)
    {
      out := FlowStateCounts(0, 0, 0, 0, 0, 0, 0);
      var ok := Connects();
      if !ok { return Fault, out; }
      var pending := CountFlows(runId, FlowPending);
      var onNode := CountFlows(runId, FlowAssigned);
      var running := CountFlows(runId, FlowRunning);
      var succeeded := CountFlows(runId, FlowSucceeded);
      var failed := CountFlows(runId, FlowFailed);
      var cancelled := CountFlows(runId, FlowCancelled);
      return Ok, FlowStateCounts(pending + onNode + running + succeeded + failed + cancelled,
                                 pending, onNode, running, succeeded, failed, cancelled);
    }
  }
}
