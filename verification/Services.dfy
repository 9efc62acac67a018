/** The ledger service: idempotent drives toward running, finalization, cancellation. */
module Services {
  import opened Fsm
  import opened Ledger
  import opened LedgerInvariants
  import opened Repositories

  predicate Waiting(s: FlowState) { s.FlowPending? || s.FlowAssigned? }

  class Service {
    const repo: Repository

    constructor (repo: Repository)
      ensures this.repo == repo
    {
      this.repo := repo;
    }

    /** A lookup is one call: it can fault, and otherwise finds the row or not. */
    method Lookup(found: bool) returns (err: Error)
      modifies repo`faults
      ensures repo.faults == if err.Fault? then old(repo.faults) + 1 else old(repo.faults)
      ensures err.Fault? || err == if found then Ok else NotFound
    {
      var ok := repo.Connects();
      return if !ok then Fault else if found then Ok else NotFound;
    }

    method EnsureRunRunning(runId: Id) returns (err: Error)
      modifies repo
      ensures err.Fault? <==> repo.faults != old(repo.faults)
      ensures old(repo.faults) <= repo.faults <= old(repo.faults) + 1
      ensures repo.View() == old(repo.View()) ||
              (runId < |old(repo.runs)| && old(repo.runs)[runId].state.RunPending? &&
               repo.View() == WriteRun(old(repo.View()), runId, old(repo.runs)[runId].version, RunRunning).db)
      ensures runId < |old(repo.runs)| && !err.Fault? ==>
                repo.runs[runId].state == if old(repo.runs)[runId].state.RunPending? then RunRunning
                                          else old(repo.runs)[runId].state
      ensures old(Safe(repo.View())) ==> Safe(repo.View())
      ensures old(Progress(repo.View())) ==> Progress(repo.View())
    {
      ghost var was := repo.View();
      err := Lookup(runId < |repo.runs|);
      if !err.Ok? { return; }
      var run := repo.runs[runId];
      if !run.state.RunPending? { return; }
      err := repo.UpdateRunState(runId, run.version, RunRunning);
      if Safe(was) { RunMoveKeepsSafe(was, repo.View(), runId); }
      if err.VersionConflict? { err := Ok; }
    }

    method EnsureFlowRunning(flowId: Id, assignedNode: string) returns (err: Error)
      modifies repo
      ensures old(repo.faults) <= repo.faults <= old(repo.faults) + 1 &&
              (err.Fault? <==> repo.faults != old(repo.faults))
      ensures repo.View() == old(repo.View()).(flows := repo.flows)
      ensures |repo.flows| == |old(repo.flows)|
      ensures forall f | 0 <= f < |repo.flows| && f != flowId :: repo.flows[f] == old(repo.flows)[f]
      ensures flowId < |repo.flows| ==>
                var before, after := old(repo.flows)[flowId], repo.flows[flowId];
                after == before ||
                (Waiting(before.state) && after.runId == before.runId && !FlowTerminal(after.state) &&
                !after.state.FlowPending?)
      ensures flowId < |repo.flows| && !err.Fault? ==>
                var before, after := old(repo.flows)[flowId], repo.flows[flowId];
                after.state == (if before.state.FlowPending? || before.state.FlowAssigned? then FlowRunning
                                else before.state) &&
                after.assignedNode == if before.state.FlowPending? && assignedNode != "" then assignedNode
                                      else before.assignedNode
      ensures old(Safe(repo.View())) ==> Safe(repo.View())
      ensures old(Progress(repo.View()) &&
                  (flowId < |repo.flows| ==>
                      repo.flows[flowId].runId < |repo.runs| && !repo.runs[repo.flows[flowId].runId].state.RunPending?))
              ==> Progress(repo.View())
    {
      hide Shape, Accounts, Progress, LeavesTerminal, WithinBudget;
      ghost var was := repo.View();
      err := Lookup(flowId < |repo.flows|);
      if !err.Ok? { return; }
      var flow := repo.flows[flowId];
      if flow.state.FlowPending? {
        err := repo.UpdateFlowState(flowId, flow.version, FlowAssigned, assignedNode);
        if !err.Ok? && !err.VersionConflict? { return; }
        if Safe(was) { FlowMoveKeepsSafe(was, repo.View(), flowId); }
        StartedFlowKeepsProgress(was, repo.View(), flowId);
        err := Lookup(flowId < |repo.flows|);
        if !err.Ok? { return; }
        flow := repo.flows[flowId];
      }
      if flow.state.FlowAssigned? {
        ghost var mid := repo.View();
        err := repo.UpdateFlowState(flowId, flow.version, FlowRunning, "");
        if Safe(mid) { FlowMoveKeepsSafe(mid, repo.View(), flowId); }
        StartedFlowKeepsProgress(mid, repo.View(), flowId);
        if err.VersionConflict? { err := Ok; }
      }
    }

    /** Finalizes exactly when every leaf is terminal, and then with the leaves' verdict. */
    method TryFinalizeFlow(flowId: Id) returns (done: bool, err: Error)
      modifies repo
      ensures old(repo.faults) <= repo.faults <= old(repo.faults) + 1 &&
              (err.Fault? <==> repo.faults != old(repo.faults))
      ensures done ==> err.Ok? && flowId < |old(repo.flows)|
      ensures repo.View() == if !done then old(repo.View()) else
                WriteFlow(old(repo.View()), flowId, old(repo.flows)[flowId].version,
                    FlowVerdict(old(repo.View()), flowId), "").db
      ensures flowId < |old(repo.flows)| && err.Ok? ==>
                (done <==> LeavesTerminal(old(repo.View()), flowId) && !FlowTerminal(old(repo.flows)[flowId].state))
      ensures done ==> flowId < |repo.flows| && FlowTells(old(repo.View()), flowId, repo.flows[flowId].state)
      ensures err.Ok? || err.Fault? || flowId >= |old(repo.flows)| ||
              !ValidFlow(old(repo.flows)[flowId].state, FlowVerdict(old(repo.View()), flowId))
      ensures old(Safe(repo.View())) ==> Safe(repo.View())
      ensures old(Linked(repo.View()) && Progress(repo.View())) ==> Progress(repo.View())
    {
      hide Shape, Accounts, Progress, CountsLeaves, LeavesTerminal, FlowVerdict, FlowTells;
      ghost var was := repo.View();
      done := false;
      var counts;
      err, counts := repo.CountStepsByFlow(flowId);
      if !err.Ok? { return; }
      CountsDecideFlow(was, flowId, counts);
      if !counts.AllTerminal() { return; }
      err := Lookup(flowId < |repo.flows|);
      if !err.Ok? { return; }
      var flow := repo.flows[flowId];
      if FlowTerminal(flow.state) { return; }
      var target := FlowSucceeded;
      if counts.failed > 0 || counts.expired > 0 {
        target := FlowFailed;
      } else if counts.cancelled > 0 {
        target := FlowCancelled;
      }
      err := repo.UpdateFlowState(flowId, flow.version, target, "");
      if err.Ok? {
        done := true;
        FlowVerdictTells(was, flowId);
        if Safe(was) { FlowMoveKeepsSafe(was, repo.View(), flowId); }
        if Linked(was) && Progress(was) { SettledFlowKeepsProgress(was, repo.View(), flowId); }
      } else if err.VersionConflict? {
        err := Ok;
      }
    }

    method TryFinalizeRun(runId: Id) returns (done: bool, err: Error)
      modifies repo
      ensures old(repo.faults) <= repo.faults <= old(repo.faults) + 1 &&
              (err.Fault? <==> repo.faults != old(repo.faults))
      ensures done ==> err.Ok? && runId < |old(repo.runs)|
      ensures repo.View() == if !done then old(repo.View()) else
                WriteRun(old(repo.View()), runId, old(repo.runs)[runId].version, RunVerdict(old(repo.View()), runId)).db
      ensures runId < |old(repo.runs)| && err.Ok? ==>
                (done <==> FlowsTerminal(old(repo.View()), runId) && !RunTerminal(old(repo.runs)[runId].state))
      ensures done ==> runId < |repo.runs| && RunTells(old(repo.View()), runId, repo.runs[runId].state)
      ensures err.Ok? || err.Fault? || runId >= |old(repo.runs)| ||
              !ValidRun(old(repo.runs)[runId].state, RunVerdict(old(repo.View()), runId))
      ensures old(Safe(repo.View())) ==> Safe(repo.View())
      ensures old(Progress(repo.View())) ==> Progress(repo.View())
    {
      hide Shape, Accounts, Progress, CountsFlows, FlowsTerminal, RunVerdict, RunTells;
      ghost var was := repo.View();
      done := false;
      var counts;
      err, counts := repo.CountFlowsByRun(runId);
      if !err.Ok? { return; }
      CountsDecideRun(was, runId, counts);
      if !counts.AllTerminal() { return; }
      err := Lookup(runId < |repo.runs|);
      if !err.Ok? { return; }
      var run := repo.runs[runId];
      if RunTerminal(run.state) { return; }
      var target := RunSucceeded;
      if counts.failed > 0 {
        target := RunFailed;
      } else if counts.cancelled > 0 {
        target := RunCancelled;
      }
      err := repo.UpdateRunState(runId, run.version, target);
      if err.Ok? {
        done := true;
        RunVerdictTells(was, runId);
        if Safe(was) { RunMoveKeepsSafe(was, repo.View(), runId); }
        if Progress(was) { StartedRunKeepsProgress(was, repo.View(), runId); }
      } else if err.VersionConflict? {
        err := Ok;
      }
    }

    /** A Run's state set by hand. Nobody checks what it says against the Run's Flows:
        the shape survives exactly when it happens to be true. */
    method TransitionRun(runId: Id, to: RunState) returns (err: Error)
      modifies repo
      ensures old(repo.faults) <= repo.faults && (err.Fault? <==> repo.faults != old(repo.faults))
      ensures err.Ok? ==> runId < |old(repo.runs)|
      ensures repo.View() == if !err.Ok? then old(repo.View()) else
                WriteRun(old(repo.View()), runId, old(repo.runs)[runId].version, to).db
      ensures runId < |old(repo.runs)| && !err.Fault? ==> 
                (err.Ok? <==>
                   match old(repo.runs)[runId].state
                   case RunPending => to.RunPending? || to.RunRunning? || to.RunCancelled?
                   case RunRunning => !to.RunPending?
                   case other => to == other)
      ensures old(Shape(repo.View())) && err.Ok? ==>
                (Shape(repo.View()) <==>
                 (RunTerminal(to) ==>
                     FlowsTerminal(old(repo.View()), runId) && to == RunVerdict(old(repo.View()), runId)))
    {
      hide Shape, FlowsTerminal, RunVerdict;
      ghost var was := repo.View();
      err := Lookup(runId < |repo.runs|);
      if !err.Ok? { return; }
      if Shape(was) { RunWriteKeepsShapeIff(was, runId, to); }
      err := repo.UpdateRunState(runId, repo.runs[runId].version, to);
    }

    method CancelStep(stepId: Id) returns (err: Error)
      modifies repo
      ensures old(repo.faults) <= repo.faults <= old(repo.faults) + 1 &&
              (err.Fault? <==> repo.faults != old(repo.faults))
      ensures err.Ok? ==> stepId < |old(repo.steps)|
      ensures repo.View() == if !err.Ok? then old(repo.View()) else
                WriteStep(old(repo.View()), stepId, old(repo.steps)[stepId].version, StepCancelled).db
      ensures stepId < |old(repo.steps)| && !err.Fault? ==>
                (err.Ok? <==>
                   var s := old(repo.steps)[stepId].state; s.StepPending? || s.StepRunning? || s.StepCancelled?)
      ensures old(Safe(repo.View())) ==> Safe(repo.View())
    {
      err := Lookup(stepId < |repo.steps|);
      if !err.Ok? { return; }
      err := repo.UpdateStepStateFromScheduler(stepId, repo.steps[stepId].version, StepCancelled);
    }
  }

  lemma RunMoveKeepsSafe(a: Tables, b: Tables, r: Id)
    requires Safe(a) && r < |a.runs|
    requires b == a || (|b.runs| == |a.runs| && b == a.(runs := a.runs[r := b.runs[r]]))
    requires b.runs[r] == a.runs[r].(state := b.runs[r].state, version := b.runs[r].version)
    requires b == a || (RunTerminal(b.runs[r].state) ==> FlowsTerminal(a, r) && b.runs[r].state == RunVerdict(a, r))
    ensures Safe(b)
  {
    if b != a { RunMoveKeepsShape(a, b, r); }
  }

  lemma StartedRunKeepsProgress(a: Tables, b: Tables, r: Id)
    requires Progress(a) && r < |a.runs| && |b.runs| == |a.runs| && b == a.(runs := a.runs[r := b.runs[r]])
    requires !b.runs[r].state.RunPending?
    ensures Progress(b)
  {
  }

  lemma StartedFlowKeepsProgress(a: Tables, b: Tables, f: Id)
    requires f < |a.flows| && |b.flows| == |a.flows| && b == a.(flows := a.flows[f := b.flows[f]]) &&
             b.flows[f].runId == a.flows[f].runId
    requires b == a || (Waiting(a.flows[f].state) && !b.flows[f].state.FlowPending?)
    ensures Progress(a) && a.flows[f].runId < |a.runs| && !a.runs[a.flows[f].runId].state.RunPending? ==> Progress(b)
  {
    if Progress(a) && a.flows[f].runId < |a.runs| && !a.runs[a.flows[f].runId].state.RunPending? {
      forall s | 0 <= s < |b.steps| && b.steps[s].flowId == f
        ensures (!b.steps[s].state.StepRunning? && !Completed(b.steps[s].state)) || b == a
      {
        assert b.steps[s] == a.steps[s];
      }
    }
  }

  lemma SettledFlowKeepsProgress(a: Tables, b: Tables, f: Id)
    requires Linked(a) && Progress(a) && f < |a.flows| && |b.flows| == |a.flows| &&
             b == a.(flows := a.flows[f := b.flows[f]])
    requires b.flows[f].runId == a.flows[f].runId
    requires ValidFlow(a.flows[f].state, b.flows[f].state) && FlowTerminal(b.flows[f].state)
    ensures Progress(b)
  {
  }

  lemma FlowMoveKeepsSafe(a: Tables, b: Tables, f: Id)
    requires Safe(a) && f < |a.flows| && !FlowTerminal(a.flows[f].state)
    requires b == a || (|b.flows| == |a.flows| && b == a.(flows := a.flows[f := b.flows[f]]))
    requires b.flows[f].runId == a.flows[f].runId
    requires b == a ||
             (FlowTerminal(b.flows[f].state) ==> LeavesTerminal(a, f) && b.flows[f].state == FlowVerdict(a, f))
    ensures Safe(b)
  {
    if b != a { FlowMoveKeepsShape(a, b, f); }
  }

  /** In a ledger where started work has started parents, the verdict of a finished
      Flow or Run is always a legal target: finalization is never refused. */
  lemma VerdictIsNeverRefused(db: Tables)
    requires Linked(db) && Progress(db)
    ensures forall f | 0 <= f < |db.flows| && LeavesTerminal(db, f) && !FlowTerminal(db.flows[f].state) ::
              ValidFlow(db.flows[f].state, FlowVerdict(db, f))
    ensures forall r | 0 <= r < |db.runs| && FlowsTerminal(db, r) && !RunTerminal(db.runs[r].state) ::
              ValidRun(db.runs[r].state, RunVerdict(db, r))
  {
    forall f | 0 <= f < |db.flows| && LeavesTerminal(db, f) && !FlowTerminal(db.flows[f].state)
      ensures ValidFlow(db.flows[f].state, FlowVerdict(db, f))
    {
      var s :| LeafOf(db, f, s);
      assert HasLeaf(db, f, db.steps[s].state);
    }
    forall r | 0 <= r < |db.runs| && FlowsTerminal(db, r) && !RunTerminal(db.runs[r].state)
      ensures ValidRun(db.runs[r].state, RunVerdict(db, r))
    {
      var f :| FlowIn(db, r, f);
      assert HasFlow(db, r, db.flows[f].state);
    }
  }
}
