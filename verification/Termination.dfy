/** Measures and invariants over whole runs of the scheduler. */
module Termination {
  import opened Options
  import opened Fsm
  import opened Ledger
  import opened LedgerInvariants
  import opened RetryChains
  import opened Recovery

  // ---- how much scheduling is left ----

  /** Attempts a row may still cost: its own and those of the retries it may spawn. A row
      already beyond the limit, left by a policy that allowed more, costs its own. */
  function Weight(s: Step, maxRetries: nat): nat {
    if StepTerminal(s.state) then 0
    else if s.retryCount < maxRetries then maxRetries + 1 - s.retryCount
    else 1
  }

  function Potential(steps: seq<Step>, maxRetries: nat): nat {
    if steps == [] then 0 else Potential(steps[..|steps| - 1], maxRetries) + Weight(steps[|steps| - 1], maxRetries)
  }

  ghost predicate RetriesBounded(db: Tables, maxRetries: nat) {
    forall s | 0 <= s < |db.steps| :: db.steps[s].retryCount <= maxRetries
  }

  lemma {:induction false} PotentialUpdate(steps: seq<Step>, i: Id, row: Step, maxRetries: nat)
    requires i < |steps|
    ensures Potential(steps[i := row], maxRetries) == Potential(steps, maxRetries) - Weight(steps[i], maxRetries) +
            Weight(row, maxRetries)
    decreases |steps|
  {
    var n := |steps| - 1;
    if i == n {
      assert steps[i := row][..n] == steps[..n];
    } else {
      assert steps[i := row][..n] == steps[..n][i := row];
      PotentialUpdate(steps[..n], i, row, maxRetries);
    }
  }

  lemma {:induction false} PotentialSame(a: seq<Step>, b: seq<Step>, maxRetries: nat)
    requires |a| == |b| && forall i | 0 <= i < |a| :: Weight(a[i], maxRetries) == Weight(b[i], maxRetries)
    ensures Potential(a, maxRetries) == Potential(b, maxRetries)
    decreases |a|
  {
    if a != [] { PotentialSame(a[..|a| - 1], b[..|b| - 1], maxRetries); }
  }

  /** A dispatch that finishes its Step uses up at least one attempt, retry or not;
      one that does not, and retries nothing, uses up none. */
  lemma DispatchSpendsPotential(a: Tables, b: Tables, step: StepCopy, retried: bool, maxRetries: nat)
    requires Confined(a, b, step, retried) && step.retryCount == a.steps[step.id].retryCount
    requires retried ==> step.retryCount < maxRetries
    requires !StepTerminal(a.steps[step.id].state) && (retried ==> StepTerminal(b.steps[step.id].state))
    ensures RetriesBounded(a, maxRetries) ==> RetriesBounded(b, maxRetries)
    ensures Potential(b.steps, maxRetries) +
            (if StepTerminal(b.steps[step.id].state) then 1 else 0) <= Potential(a.steps, maxRetries)
  {
    var n := |a.steps|;
    var row := b.steps[step.id];
    assert b.steps[..n] == a.steps[step.id := row];
    PotentialUpdate(a.steps, step.id, row, maxRetries);
    if retried {
      assert b.steps[|b.steps| - 1] == RetryRow(step);
    } else {
      assert b.steps == b.steps[..n];
    }
    if RetriesBounded(a, maxRetries) {
      forall s | 0 <= s < |b.steps| ensures b.steps[s].retryCount <= maxRetries {
        if s < n { assert a.steps[s].retryCount <= maxRetries; }
      }
    }
  }

  // ---- how many Steps have finished ----

  ghost function Finished(db: Tables): set<Id> { set s: Id | s < |db.steps| && StepTerminal(db.steps[s].state) }

  /** A dispatch finishes its own Step or none. */
  lemma DispatchFinishes(a: Tables, b: Tables, step: StepCopy, retried: bool)
    requires Confined(a, b, step, retried) && !StepTerminal(a.steps[step.id].state)
    ensures |Finished(b)| == |Finished(a)| + if StepTerminal(b.steps[step.id].state) then 1 else 0
  {
    forall s: Id ensures s in Finished(b) <==> s in Finished(a) || (s == step.id && StepTerminal(b.steps[s].state)) {
      if s < |b.steps| && s >= |a.steps| { assert b.steps[s] == RetryRow(step); }
    }
    hide Finished, Confined;
    assert step.id !in Finished(a) by { LiveIsUnfinished(a, step.id); }
    assert Finished(b) == Finished(a) + if StepTerminal(b.steps[step.id].state) then {step.id} else {};
  }

  lemma LiveIsUnfinished(a: Tables, s: Id)
    requires s < |a.steps| && !StepTerminal(a.steps[s].state)
    ensures s !in Finished(a)
  {
  }

  lemma ScanFinishesNothing(a: Tables, now: Time)
    ensures Finished(T4(a, now)) == Finished(a)
  {
  }

  lemma NewStepFinishesNothing(a: Tables, row: Step)
    requires !StepTerminal(row.state)
    ensures Finished(a.(steps := a.steps + [row])) == Finished(a)
  {
  }

  // ---- the bound, from the retry paths ----

  ghost function LiveIds(db: Tables, n: nat): set<nat>
    requires n <= |db.steps|
  {
    set s | 0 <= s < n && !StepTerminal(db.steps[s].state)
  }

  ghost function Originals(db: Tables): set<nat> { set s | 0 <= s < |db.steps| && db.steps[s].retryOf.None? }

  lemma LiveIdsStep(db: Tables, n: nat)
    requires n < |db.steps|
    ensures |LiveIds(db, n + 1)| == |LiveIds(db, n)| + if StepTerminal(db.steps[n].state) then 0 else 1
  {
    if StepTerminal(db.steps[n].state) {
      assert LiveIds(db, n + 1) == LiveIds(db, n);
    } else {
      assert LiveIds(db, n + 1) == LiveIds(db, n) + {n};
    }
  }

  lemma {:induction false} PotentialByLiveRows(db: Tables, n: nat, maxRetries: nat)
    requires n <= |db.steps|
    ensures Potential(db.steps[..n], maxRetries) <= |LiveIds(db, n)| * (maxRetries + 1)
    decreases n
  {
    hide Potential, LiveIds;
    if n == 0 {
      NothingPotential(db, maxRetries);
    } else {
      var k, m := |LiveIds(db, n - 1)|, maxRetries + 1;
      PotentialByLiveRows(db, n - 1, maxRetries);
      LiveIdsStep(db, n - 1);
      assert db.steps[..n][..n - 1] == db.steps[..n - 1];
      var w := Weight(db.steps[n - 1], maxRetries);
      PotentialStep(db.steps[..n], maxRetries);
      OneMoreShare(Potential(db.steps[..n - 1], maxRetries), w, k, m, !StepTerminal(db.steps[n - 1].state));
    }
  }

  lemma NothingPotential(db: Tables, maxRetries: nat)
    ensures Potential(db.steps[..0], maxRetries) == 0 && LiveIds(db, 0) == {}
  {
  }

  lemma PotentialStep(steps: seq<Step>, maxRetries: nat)
    requires steps != []
    ensures Potential(steps, maxRetries) ==
            Potential(steps[..|steps| - 1], maxRetries) + Weight(steps[|steps| - 1], maxRetries)
  {
  }

  lemma OneMoreShare(total: nat, share: nat, k: nat, m: nat, more: bool)
    requires total <= k * m && share <= if more then m else 0
    ensures total + share <= (k + if more then 1 else 0) * m
  {
    assert (k + 1) * m == k * m + m;
  }

  /** There is at most one live row per original Step. */
  lemma LiveRowsFewerThanOriginals(db: Tables)
    requires RetryPaths(db)
    ensures |LiveIds(db, |db.steps|)| <= |Originals(db)|
  {
    var live := LiveIds(db, |db.steps|);
    var image: map<nat, nat> := map s: nat | s in live :: Original(db, s);
    forall s, t | s in image && t in image && s != t ensures image[s] != image[t] {
      LiveRowIsLeaf(db, s);
      LiveRowIsLeaf(db, t);
      if Original(db, s) == Original(db, t) {
        if db.steps[s].retryCount <= db.steps[t].retryCount { LeafIsUnique(db, s, t); } else { LeafIsUnique(db, t, s); }
      }
    }
    InjectionKeepsSize(image);
    assert image.Keys == live;
    forall v | v in image.Values ensures v in Originals(db) {
      var s :| s in image.Keys && image[s] == v;
      RetryCountIsDistance(db, s, db.steps[s].retryCount);
    }
    SubsetSize(image.Values, Originals(db));
  }

  lemma {:induction false} SubsetSize<T>(a: set<T>, b: set<T>)
    requires a <= b
    ensures |a| <= |b|
    decreases a
  {
    if |a| > 0 {
      var x :| x in a;
      SubsetSize(a - {x}, b - {x});
    }
  }

  /** N original Steps have at most N * (MaxRetries + 1) attempts ahead of them. */
  lemma PotentialIsBounded(db: Tables, maxRetries: nat)
    requires RetryPaths(db)
    ensures Potential(db.steps, maxRetries) <= |Originals(db)| * (maxRetries + 1)
  {
    PotentialByLiveRows(db, |db.steps|, maxRetries);
    assert db.steps[..|db.steps|] == db.steps;
    LiveRowsFewerThanOriginals(db);
    var n, m := |LiveIds(db, |db.steps|)|, |Originals(db)|;
    assert n * (maxRetries + 1) <= m * (maxRetries + 1);
  }

  lemma NewStepOwesItsAttempts(a: Tables, row: Step, maxRetries: nat)
    requires row.retryOf.None? && row.retryCount == 0 && !StepTerminal(row.state)
    ensures var b := a.(steps := a.steps + [row]);
            Potential(b.steps, maxRetries) == Potential(a.steps, maxRetries) + maxRetries + 1 &&
            |Originals(b)| * (maxRetries + 1) == |Originals(a)| * (maxRetries + 1) + maxRetries + 1
  {
    var b := a.(steps := a.steps + [row]);
    assert forall s | 0 <= s < |a.steps| :: b.steps[s] == a.steps[s];
    assert b.steps[..|b.steps| - 1] == a.steps;
    assert Originals(b) == Originals(a) + {|a.steps|};
    var n, m := |Originals(a)|, maxRetries + 1;
    assert (n + 1) * m == n * m + m;
  }

  // ---- finished work has finished parents, over whole runs ----

  /** The Flows whose leaves are all finished while they themselves are not. */
  ghost function Stranded(db: Tables): set<Id> { set f: Id | f < |db.flows| && !FlowDone(db, f) }

  ghost predicate RunsDone(db: Tables) { forall r: nat | r < |db.runs| :: RunDone(db, r) }

  lemma SameRunsDone(a: Tables, b: Tables)
    requires RunsDone(a) && b.flows == a.flows && |b.runs| == |a.runs|
    requires forall r | 0 <= r < |a.runs| :: b.runs[r].state == a.runs[r].state
    ensures RunsDone(b)
  {
    forall r: nat | r < |b.runs| ensures RunDone(b, r) {
      assert RunDone(a, r);
      assert forall f :: FlowIn(a, r, f) <==> FlowIn(b, r, f);
      SameFlows(a, b, r);
    }
  }

  lemma OtherFlowsKeepLeaves(a: Tables, b: Tables, step: StepCopy, retried: bool, g: Id)
    requires Confined(a, b, step, retried) && RetryPaths(a) && step.flowId == a.steps[step.id].flowId &&
             g != step.flowId
    ensures LeavesTerminal(a, g) == LeavesTerminal(b, g)
  {
    forall s ensures LeafOf(a, g, s) <==> LeafOf(b, g, s) {
      if 0 <= s < |a.steps| && s != step.id {
        assert forall r | 0 <= r < |a.steps| :: a.steps[r].retryOf == b.steps[r].retryOf;
      }
    }
    SameLeaves(a, b, g);
  }

  lemma OtherFlowsStayStranded(a: Tables, b: Tables, step: StepCopy, retried: bool)
    requires RetryPaths(a) && Confined(a, b, step, retried) && FramedParents(a, b, step)
    requires step.flowId == a.steps[step.id].flowId
    ensures forall f | f != step.flowId :: f in Stranded(b) <==> f in Stranded(a)
  {
    forall f: Id | f != step.flowId && f < |a.flows| ensures FlowDone(a, f) <==> FlowDone(b, f) {
      OtherFlowsKeepLeaves(a, b, step, retried, f);
    }
  }

  /** A dispatch that settles its own Flow takes it off the list and adds none. */
  lemma SettlingStrandsNobody(a: Tables, b: Tables, step: StepCopy, retried: bool)
    requires Shape(a) && Confined(a, b, step, retried) && FramedParents(a, b, step) && Settles(a, b, step)
    requires step.flowId == a.steps[step.id].flowId && step.runId == a.steps[step.id].runId
    requires !StepTerminal(a.steps[step.id].state)
    ensures Stranded(b) == Stranded(a) - {step.flowId}
    ensures RunsDone(a) ==> RunsDone(b)
  {
    if FlowTerminal(a.flows[step.flowId].state) { TerminalFlowIsDone(a, step.id); }
    OtherFlowsStayStranded(a, b, step, retried);
    if RunsDone(a) {
      forall r: nat | r < |b.runs| ensures RunDone(b, r) {
        assert RunDone(a, r);
        if r != step.runId {
          assert forall f :: FlowIn(a, r, f) <==> FlowIn(b, r, f);
          SameFlows(a, b, r);
        } else {
          assert FlowIn(b, r, step.flowId);
        }
      }
    }
  }

  /** The exit over budget adds its Flow exactly when there was no other work left in it. */
  lemma CancellingStrandsIff(a: Tables, b: Tables, step: StepCopy)
    requires Shape(a) && Confined(a, b, step, false) && FramedParents(a, b, step) && Strands(a, b, step)
    requires step.flowId == a.steps[step.id].flowId && b.steps[step.id].state.StepCancelled?
    ensures Stranded(b) == if OtherWork(a, step) then Stranded(a) - {step.flowId} else Stranded(a) + {step.flowId}
    ensures RunsDone(a) ==> RunsDone(b)
  {
    OtherFlowsStayStranded(a, b, step, false);
    assert step.flowId < |b.flows|;
    if RunsDone(a) { SameRunsDone(a, b); }
  }

  /** A Run whose budget is spent, with one Flow and one pending Step. */
  function SpentLedger(): Tables {
    Tables([Run(RunRunning, 1, 1, 0.0, 1)], [Flow(0, "", FlowRunning, 2)], [NewStep(0, 0, "", "", "")], map[])
  }

  lemma SpentLedgerIsSound()
    ensures var a := SpentLedger(); Safe(a) && Progress(a) && RunsDone(a) && Stranded(a) == {}
  {
    var a := SpentLedger();
    assert LeafOf(a, 0, 0);
    assert FlowIn(a, 0, 0);
    assert RetryLink(a, 0);
    assert SumCost(a.steps[..0], 0) == 0.0;
  }

  /** The exit over budget does strand a Flow: in a sound ledger where nothing is
      stranded, its only Step cannot be paid for and is cancelled. */
  lemma OverBudgetStrandsAFlow()
    ensures var a := SpentLedger();
            && Safe(a) && Progress(a) && RunsDone(a) && Stranded(a) == {} && a.steps[0].state.StepPending?
            && T1(a, LeaseMirror(0, 0, "", 0, 1)) == Outcome(a, BudgetExhausted)
            && CheckStep(a, 0, 0, StepCancelled).Ok? && 0 in Stranded(WriteStep(a, 0, 0, StepCancelled).db)
  {
    SpentLedgerIsSound();
    hide Accounts, Progress, RunsDone;
    var a, b := SpentLedger(), WriteStep(SpentLedger(), 0, 0, StepCancelled).db;
    assert !OtherWork(a, CopyOf(a, 0));
    OverBudgetStrandsIff(a, b, CopyOf(a, 0));
  }

  lemma ScanStrandsNobody(a: Tables, now: Time)
    ensures Stranded(T4(a, now)) == Stranded(a) && (RunsDone(a) ==> RunsDone(T4(a, now)))
  {
    var b := T4(a, now);
    forall f: Id | f < |a.flows| ensures FlowDone(a, f) <==> FlowDone(b, f) { ScanKeepsLeavesTerminal(a, now, f); }
    if RunsDone(a) { SameRunsDone(a, b); }
  }

  lemma ScanKeepsLeavesTerminal(a: Tables, now: Time, f: Id)
    ensures LeavesTerminal(a, f) == LeavesTerminal(T4(a, now), f)
  {
    var b := T4(a, now);
    forall s | 0 <= s < |a.steps|
      ensures b.steps[s].flowId == a.steps[s].flowId && b.steps[s].retryOf == a.steps[s].retryOf {}
    forall s ensures LeafOf(a, f, s) <==> LeafOf(b, f, s) {
      assert forall r | 0 <= r < |a.steps| :: a.steps[r].retryOf == b.steps[r].retryOf;
    }
    if s :| LeafOf(a, f, s) { assert LeafOf(b, f, s); }
    if s :| LeafOf(b, f, s) { assert LeafOf(a, f, s); }
    forall s | LeafOf(a, f, s) ensures StepTerminal(a.steps[s].state) == StepTerminal(b.steps[s].state) {}
  }

  lemma NewStepStrandsNobody(a: Tables, row: Step)
    requires RetryPaths(a) && row.retryOf.None? && !StepTerminal(row.state) && row.flowId < |a.flows|
    ensures var b := a.(steps := a.steps + [row]);
            Stranded(b) == Stranded(a) - {row.flowId} && (RunsDone(a) ==> RunsDone(b))
  {
    var b := a.(steps := a.steps + [row]);
    assert forall s | 0 <= s < |a.steps| :: b.steps[s] == a.steps[s];
    forall r | 0 <= r < |b.steps| ensures b.steps[r].retryOf != Some(|a.steps|) {
      if r < |a.steps| { assert RetryLink(a, r); }
    }
    LiveLeafKeepsFlowOpen(b, |a.steps|);
    forall f: Id | f < |a.flows| && f != row.flowId ensures FlowDone(a, f) <==> FlowDone(b, f) {
      forall s ensures LeafOf(a, f, s) <==> LeafOf(b, f, s) {
        if LeafOf(a, f, s) {
          forall r | 0 <= r < |b.steps| ensures b.steps[r].retryOf != Some(s) {
            if r < |a.steps| { assert b.steps[r] == a.steps[r]; }
          }
        }
        if LeafOf(b, f, s) { assert forall r | 0 <= r < |a.steps| :: a.steps[r] == b.steps[r]; }
      }
      SameLeaves(a, b, f);
    }
    if RunsDone(a) { SameRunsDone(a, b); }
  }

  lemma NewFlowStrandsNobody(a: Tables, runId: Id)
    requires Linked(a) && runId < |a.runs|
    ensures var b := a.(flows := a.flows + [NewFlow(runId)]);
            Stranded(b) == Stranded(a) && (RunsDone(a) ==> RunsDone(b))
  {
    var b := a.(flows := a.flows + [NewFlow(runId)]);
    assert forall f | 0 <= f < |a.flows| :: b.flows[f] == a.flows[f];
    forall f: Id | f < |b.flows| ensures FlowDone(b, f) <==> (f < |a.flows| ==> FlowDone(a, f)) {
      if f < |a.flows| { StepsDecideLeaves(a, b, f); }
    }
    if RunsDone(a) {
      forall r: nat | r < |b.runs| ensures RunDone(b, r) {
        assert RunDone(a, r);
        if r == runId {
          assert FlowIn(b, r, |a.flows|);
        } else {
          assert forall f :: FlowIn(a, r, f) <==> FlowIn(b, r, f);
          SameFlows(a, b, r);
        }
      }
    }
  }

  lemma NewRunStrandsNobody(a: Tables, budget: nat)
    requires Linked(a)
    ensures var b := a.(runs := a.runs + [NewRun(budget)]);
            Stranded(b) == Stranded(a) && (RunsDone(a) ==> RunsDone(b))
  {
    var b := a.(runs := a.runs + [NewRun(budget)]);
    assert forall r | 0 <= r < |a.runs| :: b.runs[r] == a.runs[r];
    forall f: Id | f < |b.flows| ensures FlowDone(b, f) <==> FlowDone(a, f) { StepsDecideLeaves(a, b, f); }
    if RunsDone(a) {
      forall r: nat | r < |b.runs| ensures RunDone(b, r) {
        if r < |a.runs| {
          assert RunDone(a, r);
          assert forall f :: FlowIn(a, r, f) <==> FlowIn(b, r, f);
          SameFlows(a, b, r);
        }
      }
    }
  }

  /** Moving a Run by hand along a legal edge. */
  lemma MovedRunStrandsNobody(a: Tables, b: Tables, r: Id)
    requires r < |a.runs| && b == a.(runs := b.runs) && |b.runs| == |a.runs| &&
             ValidRun(a.runs[r].state, b.runs[r].state)
    requires forall q | 0 <= q < |a.runs| && q != r :: b.runs[q] == a.runs[q]
    ensures Stranded(b) == Stranded(a) && (RunsDone(a) ==> RunsDone(b))
  {
    forall f: Id | f < |b.flows| ensures FlowDone(b, f) <==> FlowDone(a, f) { StepsDecideLeaves(a, b, f); }
    if RunsDone(a) {
      forall q: nat | q < |b.runs| ensures RunDone(b, q) {
        assert RunDone(a, q);
        assert forall f :: FlowIn(a, q, f) <==> FlowIn(b, q, f);
        SameFlows(a, b, q);
      }
    }
  }

  // ---- a dispatch that can never finish ----

  /** Lease, start, complete in vain, expire. */
  function FutileRound(db: Tables, node: string, expires: Time, c: Completion, now: Time): Tables
    requires c.stepId < |db.steps|
  {
    var leased := T1(db, LeaseMirror(c.stepId, db.steps[c.stepId].runId, node, expires, 0)).db;
    T4(T2(MarkRunning(leased, c.stepId).db, c).db, now)
  }

  /** A pending Step whose executor will report more than the whole budget of its Run. */
  predicate Hopeless(db: Tables, c: Completion) {
    && c.stepId < |db.steps| && db.steps[c.stepId].state.StepPending? && db.steps[c.stepId].runId < |db.runs|
    && var budget := db.runs[db.steps[c.stepId].runId].tokenBudget; 0 < budget < c.tokensUsed
  }

  lemma HopelessStaysHopeless(db: Tables, node: string, expires: Time, c: Completion, now: Time)
    requires Hopeless(db, c) && expires < now
    ensures var after := FutileRound(db, node, expires, c, now);
            Hopeless(after, c) && after.steps[c.stepId].retryCount == db.steps[c.stepId].retryCount &&
            after.runs == db.runs
  {
    hide InsertEffects, OwnersExist;
    var leased := T1(db, LeaseMirror(c.stepId, db.steps[c.stepId].runId, node, expires, 0)).db;
    var running := MarkRunning(leased, c.stepId).db;
    assert !T2(running, c).err.Ok?;
  }

  function FutileRounds(db: Tables, node: string, expires: Time, c: Completion, now: Time, n: nat): Tables
    decreases n
  {
    if n == 0 || c.stepId >= |db.steps| then db
    else FutileRounds(FutileRound(db, node, expires, c, now), node, expires, c, now, n - 1)
  }

  /** It can be dispatched and recovered any number of times, spends no attempt and
      never finishes: the bound on dispatches counts those that finish for a reason. */
  lemma {:induction false} HopelessForever(db: Tables, node: string, expires: Time, c: Completion, now: Time, n: nat)
    requires Hopeless(db, c) && expires < now
    ensures var after := FutileRounds(db, node, expires, c, now, n);
            Hopeless(after, c) && after.steps[c.stepId].retryCount == db.steps[c.stepId].retryCount &&
            after.runs == db.runs
    decreases n
  {
    if n > 0 {
      HopelessStaysHopeless(db, node, expires, c, now);
      HopelessForever(FutileRound(db, node, expires, c, now), node, expires, c, now, n - 1);
    }
  }

  /** A Run finalized as succeeded has succeeded all the way down. */
  lemma SucceededRunSucceededThroughout(db: Tables, r: Id, f: Id, s: Id)
    requires Shape(db) && r < |db.runs| && db.runs[r].state.RunSucceeded? && FlowIn(db, r, f) && LeafOf(db, f, s)
    ensures db.flows[f].state.FlowSucceeded? && db.steps[s].state.StepSucceeded?
  {
    assert !HasFlow(db, r, FlowFailed) && !HasFlow(db, r, FlowCancelled);
    assert FlowTerminal(db.flows[f].state);
    assert !HasFlow(db, r, db.flows[f].state) || db.flows[f].state.FlowSucceeded?;
    assert FlowVerdict(db, f) == FlowSucceeded;
    assert HasLeaf(db, f, db.steps[s].state);
  }
}
