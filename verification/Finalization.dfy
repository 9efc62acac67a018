/** Finalization among everybody else. Finishing a Flow takes three calls: count its
    leaves, look the Flow up, write its state guarded by the version just read. Steps,
    retries and other writers may come in between any two of them, and adding a Step
    does not change its Flow's version. The same goes for a Run and its Flows. */
module Finalization {
  import opened Options
  import opened Fsm
  import opened Ledger
  import opened LedgerInvariants
  import opened LedgerAccounts
  import opened Interleaving

  /** What a client has counted, and means to write. */
  datatype Target = FlowTarget(flow: Id, flowTo: FlowState) | RunTarget(run: Id, runTo: RunState)

  /** Between count and lookup, and between lookup and write. */
  datatype Finalizer = Counted(target: Target) | Opened(target: Target, version: nat)

  datatype Ledgers = Ledgers(db: Tables, finalizers: map<nat, Finalizer>)

  /** `Versioned` is any other optimistic update; by `NextIsLegal` its read and write
      amount to one action at the moment of the write. */
  datatype Event =
    | Transaction(act: Action)
    | Versioned(update: Update)
    | CountSteps(client: nat, flow: Id)
    | CountFlows(client: nat, run: Id)
    | Lookup(client: nat)
    | Finish(client: nat)

  predicate LiveTarget(db: Tables, t: Target) {
    match t
    case FlowTarget(f, _) => f < |db.flows| && !FlowTerminal(db.flows[f].state)
    case RunTarget(r, _) => r < |db.runs| && !RunTerminal(db.runs[r].state)
  }

  function VersionOf(db: Tables, t: Target): nat {
    match t
    case FlowTarget(f, _) => if f < |db.flows| then db.flows[f].version else 0
    case RunTarget(r, _) => if r < |db.runs| then db.runs[r].version else 0
  }

  function UpdateOf(t: Target, version: nat): Update {
    match t
    case FlowTarget(f, to) => FlowUpdate(f, version, to, "")
    case RunTarget(r, to) => RunUpdate(r, version, to)
  }

  function Attempt(db: Tables, u: Update): Tables { if Check(db, u).Ok? then Store(db, u) else db }

  ghost function NextLedgers(s: Ledgers, e: Event): Ledgers {
    match e
    case Transaction(a) => s.(db := Act(s.db, a))
    case Versioned(u) => s.(db := Attempt(s.db, u))
    case CountSteps(client, f) =>
      if client in s.finalizers || !LeavesTerminal(s.db, f) then s
      else s.(finalizers := s.finalizers[client := Counted(FlowTarget(f, FlowVerdict(s.db, f)))])
    case CountFlows(client, r) =>
      if client in s.finalizers || !FlowsTerminal(s.db, r) then s
      else s.(finalizers := s.finalizers[client := Counted(RunTarget(r, RunVerdict(s.db, r)))])
    case Lookup(client) =>
      if client !in s.finalizers || s.finalizers[client].Opened? then s
      else
        var t := s.finalizers[client].target;
        if LiveTarget(s.db, t) then s.(finalizers := s.finalizers[client := Opened(t, VersionOf(s.db, t))])
        else s.(finalizers := s.finalizers - {client})
    case Finish(client) =>
      if client !in s.finalizers || s.finalizers[client].Counted? then s
      else
        var f := s.finalizers[client];
        Ledgers(Attempt(s.db, UpdateOf(f.target, f.version)), s.finalizers - {client})
  }

  ghost function AfterEvents(s: Ledgers, events: seq<Event>): Ledgers
    decreases |events|
  {
    if events == [] then s else NextLedgers(AfterEvents(s, events[..|events| - 1]), events[|events| - 1])
  }

  // ---- exactly what keeps the ledger in shape ----

  /** The leaves, or the Flows, still say what they said when they were counted. */
  ghost predicate CountHolds(db: Tables, t: Target) {
    match t
    case FlowTarget(f, to) => LeavesTerminal(db, f) && to == FlowVerdict(db, f)
    case RunTarget(r, to) => FlowsTerminal(db, r) && to == RunVerdict(db, r)
  }

  /** New rows must name live parents that belong together; a retry, a failed leaf. */
  ghost predicate Welcome(db: Tables, a: Action) {
    match a
    case AddStep(f, r, _, _, _) => f < |db.flows| && r == db.flows[f].runId && !FlowTerminal(db.flows[f].state)
    case AddFlow(r) => r < |db.runs| && !RunTerminal(db.runs[r].state)
    case AddRetry(p) =>
      p.id < |db.steps| && p.flowId < |db.flows| ==>
        && p.flowId == db.steps[p.id].flowId && p.runId == db.steps[p.id].runId
        && p.retryCount == db.steps[p.id].retryCount && db.steps[p.id].state.StepFailed?
        && IsLeaf(db, p.id) && !FlowTerminal(db.flows[p.flowId].state)
    case _ => true
  }

  ghost predicate Settled(db: Tables, u: Update) {
    match u
    case FlowUpdate(f, _, to, _) => FlowTerminal(to) ==> LeavesTerminal(db, f) && to == FlowVerdict(db, f)
    case RunUpdate(r, _, to) => RunTerminal(to) ==> FlowsTerminal(db, r) && to == RunVerdict(db, r)
    case StepUpdate(_, _, _) => true
  }

  /** A finishing write is judged at the moment of the write, not of the count. */
  ghost predicate Harmless(s: Ledgers, e: Event) {
    match e
    case Transaction(a) => Welcome(s.db, a)
    case Versioned(u) => Check(s.db, u).Ok? ==> Settled(s.db, u)
    case Finish(client) =>
      client in s.finalizers && s.finalizers[client].Opened? ==>
        var u := UpdateOf(s.finalizers[client].target, s.finalizers[client].version);
        Check(s.db, u).Ok? ==> Settled(s.db, u)
    case _ => true
  }

  lemma AddStepKeepsShapeIff(db: Tables, a: Action)
    requires Shape(db) && a.AddStep?
    ensures Shape(Act(db, a)) <==> Welcome(db, a)
  {
    if a.flowId < |db.flows| {
      NewStepKeepsShapeIff(db, a.flowId, a.runId, a.tenant, a.agentType, a.provider);
    } else {
      assert Act(db, a).steps[|db.steps|].flowId == a.flowId;
      assert !Linked(Act(db, a));
    }
  }

  lemma AddFlowKeepsShapeIff(db: Tables, a: Action)
    requires Shape(db) && a.AddFlow?
    ensures Shape(Act(db, a)) <==> Welcome(db, a)
  {
    if a.runId < |db.runs| {
      NewFlowKeepsShapeIff(db, a.runId);
    } else {
      assert Act(db, a).flows[|db.flows|].runId == a.runId;
      assert !Linked(Act(db, a));
    }
  }

  lemma AddRetryKeepsShapeIff(db: Tables, p: StepCopy)
    requires Shape(db)
    ensures Shape(InsertRetry(db, p).db) <==> Welcome(db, AddRetry(p))
  {
    if p.id < |db.steps| && p.flowId < |db.flows| {
      var b, n := InsertRetry(db, p).db, |db.steps|;
      assert b.steps[n] == RetryRow(p) && forall s | 0 <= s < n :: b.steps[s] == db.steps[s];
      if Welcome(db, AddRetry(p)) {
        AppendStepKeepsShape(db, b, RetryRow(p));
      } else if Shape(b) {
        ShapeWelcomesRetry(db, p);
        assert false;
      }
    }
  }

  lemma ShapeWelcomesRetry(db: Tables, p: StepCopy)
    requires p.id < |db.steps| && p.flowId < |db.flows| && Shape(InsertRetry(db, p).db)
    ensures Welcome(db, AddRetry(p))
  {
    var b, n := InsertRetry(db, p).db, |db.steps|;
    assert RetryLink(b, n) && b.steps[p.id] == db.steps[p.id];
    forall r | 0 <= r < n ensures db.steps[r].retryOf != Some(p.id) {
      assert b.steps[r] == db.steps[r] && b.steps[n].retryOf == Some(p.id);
    }
    if FlowTerminal(b.flows[p.flowId].state) { TerminalFlowIsDone(b, n); }
  }

  lemma LastRowIsLeaf(db: Tables, n: Id)
    requires RetryPaths(db) && |db.steps| == n + 1
    ensures IsLeaf(db, n)
  {
    forall r | 0 <= r < |db.steps| ensures db.steps[r].retryOf != Some(n) { assert RetryLink(db, r); }
  }

  lemma AddRunKeepsShape(db: Tables, a: Action)
    requires Shape(db) && a.AddRun?
    ensures Shape(Act(db, a))
  {
    AppendRunKeepsShape(db, Act(db, a), a.budget);
  }

  /** The four kinds of inserts apart, no transaction touches the shape. */
  lemma ActKeepsShapeIff(db: Tables, a: Action)
    requires Shape(db) && Solvent(db)
    ensures Shape(Act(db, a)) <==> Welcome(db, a)
  {
    hide Shape;
    match a
    case AddStep(_, _, _, _, _) => AddStepKeepsShapeIff(db, a);
    case AddFlow(_) => AddFlowKeepsShapeIff(db, a);
    case AddRetry(p) => AddRetryKeepsShapeIff(db, p);
    case AddRun(_) => AddRunKeepsShape(db, a);
    case _ =>
      ActMoves(db, a);
      TransactionFrame(db, a);
      StepMovesKeepShape(db, Act(db, a));
  }

  lemma TransactionFrame(db: Tables, a: Action)
    requires !a.AddStep? && !a.AddFlow? && !a.AddRetry? && !a.AddRun?
    ensures var b := Act(db, a);
            && b.flows == db.flows && |b.runs| == |db.runs| && |b.steps| == |db.steps|
            && forall r | 0 <= r < |db.runs| :: db.runs[r].state == b.runs[r].state
  {
  }

  lemma AttemptKeepsShapeIff(db: Tables, u: Update)
    requires Shape(db)
    ensures Shape(Attempt(db, u)) <==> (Check(db, u).Ok? ==> Settled(db, u))
  {
    if Check(db, u).Ok? {
      match u
      case FlowUpdate(f, _, to, node) => FlowWriteKeepsShapeIff(db, f, to, node);
      case RunUpdate(r, _, to) => RunWriteKeepsShapeIff(db, r, to);
      case StepUpdate(s, _, to) => StepMovesKeepShape(db, Attempt(db, u));
    }
  }

  /** One event of anybody, exactly: the ledger stays in shape if and only if the event
      is harmless where it happens. */
  lemma NextKeepsShapeIff(s: Ledgers, e: Event)
    requires Shape(s.db) && Solvent(s.db)
    ensures Shape(NextLedgers(s, e).db) <==> Harmless(s, e)
    ensures Solvent(NextLedgers(s, e).db)
  {
    hide Shape, Settled, Welcome;
    match e
    case Transaction(a) => ActKeepsShapeIff(s.db, a); ActMoves(s.db, a);
    case Versioned(u) => AttemptKeepsShapeIff(s.db, u);
    case Finish(client) =>
      if client in s.finalizers && s.finalizers[client].Opened? {
        AttemptKeepsShapeIff(s.db, UpdateOf(s.finalizers[client].target, s.finalizers[client].version));
      }
    case _ =>
  }

  lemma {:induction false} HarmlessRuns(s: Ledgers, events: seq<Event>)
    requires Shape(s.db) && Solvent(s.db)
    requires forall k | 0 <= k < |events| :: Harmless(AfterEvents(s, events[..k]), events[k])
    ensures Shape(AfterEvents(s, events).db) && Solvent(AfterEvents(s, events).db)
    decreases |events|
  {
    hide Harmless, NextLedgers, Shape, Solvent;
    if events != [] {
      var n := |events| - 1;
      forall k | 0 <= k < n ensures Harmless(AfterEvents(s, events[..n][..k]), events[..n][k]) {
        assert events[..n][..k] == events[..k];
      }
      HarmlessRuns(s, events[..n]);
      NextKeepsShapeIff(AfterEvents(s, events[..n]), events[n]);
    }
  }

  /** Over whole runs: every state is in shape if and only if every event was harmless. */
  lemma ShapeThroughoutIff(s: Ledgers, events: seq<Event>)
    requires Shape(s.db) && Solvent(s.db)
    ensures (forall k | 0 <= k <= |events| :: Shape(AfterEvents(s, events[..k]).db)) <==>
            (forall k | 0 <= k < |events| :: Harmless(AfterEvents(s, events[..k]), events[k]))
  {
    hide Harmless, NextLedgers, Shape, Solvent;
    if forall k | 0 <= k < |events| :: Harmless(AfterEvents(s, events[..k]), events[k]) {
      forall k | 0 <= k <= |events| ensures Shape(AfterEvents(s, events[..k]).db) {
        forall j | 0 <= j < k ensures Harmless(AfterEvents(s, events[..k][..j]), events[..k][j]) {
          assert events[..k][..j] == events[..j];
        }
        HarmlessRuns(s, events[..k]);
      }
    } else {
      var k := FirstHarm(s, events);
      NextKeepsShapeIff(AfterEvents(s, events[..k]), events[k]);
      assert events[..k + 1][..k] == events[..k];
      assert !Shape(AfterEvents(s, events[..k + 1]).db);
    }
  }

  /** The first harmful event of a run, with a sound ledger before it. */
  lemma FirstHarm(s: Ledgers, events: seq<Event>) returns (k: nat)
    requires Shape(s.db) && Solvent(s.db)
    requires exists k | 0 <= k < |events| :: !Harmless(AfterEvents(s, events[..k]), events[k])
    ensures k < |events| && !Harmless(AfterEvents(s, events[..k]), events[k])
    ensures Shape(AfterEvents(s, events[..k]).db) && Solvent(AfterEvents(s, events[..k]).db)
  {
    hide Harmless, NextLedgers, Shape, Solvent, AfterEvents;
    k := 0;
    while Harmless(AfterEvents(s, events[..k]), events[k])
      invariant k < |events| && forall j | 0 <= j < k :: Harmless(AfterEvents(s, events[..j]), events[j])
      decreases |events| - k
    {
      k := k + 1;
    }
    forall j | 0 <= j < k ensures Harmless(AfterEvents(s, events[..k][..j]), events[..k][j]) {
      assert events[..k][..j] == events[..j];
    }
    HarmlessRuns(s, events[..k]);
  }

  // ---- when a count stays good ----

  /** Nothing is added below what somebody has counted. */
  ghost predicate Respects(s: Ledgers, e: Event) {
    match e
    case Transaction(AddStep(f, _, _, _, _)) => !Held(s, f)
    case Transaction(AddRetry(p)) => !Held(s, p.flowId)
    case Transaction(AddFlow(r)) =>
      forall c | c in s.finalizers && s.finalizers[c].target.RunTarget? :: s.finalizers[c].target.run != r
    case _ => true
  }

  ghost predicate Held(s: Ledgers, f: Id) {
    exists c :: c in s.finalizers && s.finalizers[c].target.FlowTarget? && s.finalizers[c].target.flow == f
  }

  ghost predicate AllCountsHold(s: Ledgers) {
    forall c | c in s.finalizers :: CountHolds(s.db, s.finalizers[c].target)
  }

  ghost predicate NothingAdded(a: Tables, b: Tables, t: Target) {
    match t
    case FlowTarget(f, _) => forall s | |a.steps| <= s < |b.steps| :: b.steps[s].flowId != f
    case RunTarget(r, _) => forall g | |a.flows| <= g < |b.flows| :: b.flows[g].runId != r
  }

  lemma CountHoldsOn(a: Tables, b: Tables, t: Target)
    requires Moves(a, b) && RetryPaths(b) && CountHolds(a, t) && NothingAdded(a, b, t)
    ensures CountHolds(b, t)
  {
    match t
    case FlowTarget(f, _) =>
      forall s ensures LeafOf(a, f, s) <==> LeafOf(b, f, s) {
        if 0 <= s < |a.steps| { SameLeafhood(a, b, s, f); }
      }
      forall s | LeafOf(a, f, s) ensures a.steps[s].state == b.steps[s].state {
        assert StepMoves(a.steps[s], b.steps[s]);
      }
      SameLeaves(a, b, f);
    case RunTarget(r, _) =>
      forall g | 0 <= g < |a.flows| ensures a.flows[g].runId == b.flows[g].runId {
        assert FlowMoves(a.flows[g], b.flows[g]);
      }
      forall g | FlowIn(a, r, g) ensures a.flows[g].state == b.flows[g].state {
        assert FlowMoves(a.flows[g], b.flows[g]);
      }
      SameFlows(a, b, r);
  }

  lemma SameLeafhood(a: Tables, b: Tables, s: Id, f: Id)
    requires Moves(a, b) && RetryPaths(b) && s < |a.steps|
    requires forall q | |a.steps| <= q < |b.steps| :: b.steps[q].flowId != f
    ensures LeafOf(a, f, s) <==> LeafOf(b, f, s)
  {
    assert StepMoves(a.steps[s], b.steps[s]);
    if LeafOf(a, f, s) {
      forall r | 0 <= r < |b.steps| ensures b.steps[r].retryOf != Some(s) {
        if r < |a.steps| { assert StepMoves(a.steps[r], b.steps[r]); } else { assert RetryLink(b, r); }
      }
    }
    if LeafOf(b, f, s) {
      forall r | 0 <= r < |a.steps| ensures a.steps[r].retryOf != Some(s) { assert StepMoves(a.steps[r], b.steps[r]); }
    }
  }

  lemma CountSettles(db: Tables, t: Target, version: nat)
    requires CountHolds(db, t)
    ensures Settled(db, UpdateOf(t, version))
  {
  }

  /** With the new rows welcome and below nobody's count, every event keeps the shape,
      finishing writes included, and every count goes on holding. */
  lemma RespectfulNext(s: Ledgers, e: Event)
    requires Shape(s.db) && Solvent(s.db) && AllCountsHold(s) && Respects(s, e) && (!e.Finish? ==> Harmless(s, e))
    ensures Shape(NextLedgers(s, e).db) && Solvent(NextLedgers(s, e).db) && AllCountsHold(NextLedgers(s, e))
  {
    FinishIsHarmless(s, e);
    NextKeepsShapeIff(s, e);
    EventMoves(s, e);
    hide Shape, Harmless, Moves, Solvent, CountHolds, NextLedgers;
    var t := NextLedgers(s, e);
    forall c | c in t.finalizers ensures CountHolds(t.db, t.finalizers[c].target) {
      if c in s.finalizers {
        TargetsStay(s, e, c);
        NothingAddedBelow(s, e, c);
        assert RetryPaths(t.db) by { ShapeHasRetryPaths(t.db); }
        CountHoldsOn(s.db, t.db, s.finalizers[c].target);
      } else {
        FreshCountHolds(s, e, c);
      }
    }
  }

  lemma FinishIsHarmless(s: Ledgers, e: Event)
    requires AllCountsHold(s)
    ensures e.Finish? ==> Harmless(s, e)
  {
    if e.Finish? && e.client in s.finalizers && s.finalizers[e.client].Opened? {
      CountSettles(s.db, s.finalizers[e.client].target, s.finalizers[e.client].version);
    }
  }

  lemma TargetsStay(s: Ledgers, e: Event, c: nat)
    requires c in s.finalizers && c in NextLedgers(s, e).finalizers
    ensures NextLedgers(s, e).finalizers[c].target == s.finalizers[c].target
  {
  }

  lemma ShapeHasRetryPaths(db: Tables)
    requires Shape(db)
    ensures RetryPaths(db)
  {
  }

  lemma FreshCountHolds(s: Ledgers, e: Event, c: nat)
    requires c !in s.finalizers && c in NextLedgers(s, e).finalizers
    ensures CountHolds(NextLedgers(s, e).db, NextLedgers(s, e).finalizers[c].target)
  {
  }

  lemma EventMoves(s: Ledgers, e: Event)
    requires Solvent(s.db)
    ensures Moves(s.db, NextLedgers(s, e).db)
  {
    hide Act;
    match e
    case Transaction(a) => ActMoves(s.db, a);
    case Versioned(u) => AttemptMoves(s.db, u);
    case Finish(client) =>
      if client in s.finalizers && s.finalizers[client].Opened? {
        AttemptMoves(s.db, UpdateOf(s.finalizers[client].target, s.finalizers[client].version));
      }
      AttemptMoves(s.db, RunUpdate(|s.db.runs|, 0, RunPending));
    case _ => AttemptMoves(s.db, RunUpdate(|s.db.runs|, 0, RunPending));
  }

  lemma AttemptMoves(db: Tables, u: Update)
    ensures Moves(db, Attempt(db, u))
  {
    if Check(db, u).Ok? { StoreMoves(db, u); }
  }

  lemma NothingAddedBelow(s: Ledgers, e: Event, c: nat)
    requires c in s.finalizers && Respects(s, e)
    ensures NothingAdded(s.db, NextLedgers(s, e).db, s.finalizers[c].target)
  {
    if e.Transaction? && !e.act.AddStep? && !e.act.AddFlow? && !e.act.AddRetry? && !e.act.AddRun? {
      TransactionFrame(s.db, e.act);
    }
  }

  /** Over whole runs: as long as nobody adds below a parent somebody else has counted
      and not yet finished, finalization always writes the truth. */
  lemma {:induction false} RespectfulRunsStayInShape(s: Ledgers, events: seq<Event>)
    requires Shape(s.db) && Solvent(s.db) && AllCountsHold(s)
    requires forall k | 0 <= k < |events| ::
               && Respects(AfterEvents(s, events[..k]), events[k])
               && (!events[k].Finish? ==> Harmless(AfterEvents(s, events[..k]), events[k]))
    ensures var t := AfterEvents(s, events); Shape(t.db) && Solvent(t.db) && AllCountsHold(t)
    decreases |events|
  {
    hide Harmless, Respects, NextLedgers, Shape, Solvent, AllCountsHold;
    if events != [] {
      var n := |events| - 1;
      forall k | 0 <= k < n
        ensures Respects(AfterEvents(s, events[..n][..k]), events[..n][k])
        ensures !events[..n][k].Finish? ==> Harmless(AfterEvents(s, events[..n][..k]), events[..n][k])
      {
        assert events[..n][..k] == events[..k];
      }
      RespectfulRunsStayInShape(s, events[..n]);
      RespectfulNext(AfterEvents(s, events[..n]), events[n]);
    }
  }

  /** And the proviso is needed. Whatever the ledger, a Step added to a finished but
      still running Flow between count and write is passed over: its arrival keeps the
      shape, the write commits, and a terminal Flow stands above a pending Step. */
  lemma StepArrivalDefeatsFinalization(db: Tables, f: Id, client: nat)
    requires Shape(db) && f < |db.flows| && db.flows[f].state.FlowRunning? && LeavesTerminal(db, f)
    ensures var s := AfterEvents(Ledgers(db, map[]),
                                 [CountSteps(client, f), Lookup(client),
                                     Transaction(AddStep(f, db.flows[f].runId, "", "", ""))]);
            Shape(s.db) && !Shape(NextLedgers(s, Finish(client)).db)
  {
    var add := AddStep(f, db.flows[f].runId, "", "", "");
    var t, v := FlowTarget(f, FlowVerdict(db, f)), db.flows[f].version;
    StepSpoilsCount(db, f);
    CountRecords(db, f, 0, client);
    hide NextLedgers, AfterEvents, Shape, Act, Settled, Check;
    Race(Ledgers(db, map[]), CountSteps(client, f), client, t, Transaction(add));
    SpoiltFinish(Ledgers(Act(db, add), map[client := Opened(t, v)]), client);
  }

  lemma StepSpoilsCount(db: Tables, f: Id)
    requires Shape(db) && f < |db.flows| && db.flows[f].state.FlowRunning? && LeavesTerminal(db, f)
    ensures var b := Act(db, AddStep(f, db.flows[f].runId, "", "", ""));
            var u := FlowUpdate(f, db.flows[f].version, FlowVerdict(db, f), "");
            Shape(b) && Check(b, u).Ok? && !Settled(b, u)
  {
    var add := AddStep(f, db.flows[f].runId, "", "", "");
    AddStepKeepsShapeIff(db, add);
    var b := Act(db, add);
    LastRowIsLeaf(b, |db.steps|);
    assert LeafOf(b, f, |db.steps|);
    assert !LeavesTerminal(b, f);
  }

  lemma SpoiltFinish(s: Ledgers, client: nat)
    requires Shape(s.db) && client in s.finalizers && s.finalizers[client].Opened?
    requires var u := UpdateOf(s.finalizers[client].target, s.finalizers[client].version);
             Check(s.db, u).Ok? && !Settled(s.db, u)
    ensures !Shape(NextLedgers(s, Finish(client)).db)
  {
    AttemptKeepsShapeIff(s.db, UpdateOf(s.finalizers[client].target, s.finalizers[client].version));
  }

  /** The same for a Flow added to a finished but still running Run. */
  lemma FlowArrivalDefeatsFinalization(db: Tables, r: Id, client: nat)
    requires Shape(db) && r < |db.runs| && db.runs[r].state.RunRunning? && FlowsTerminal(db, r)
    ensures var s := AfterEvents(Ledgers(db, map[]),
                                 [CountFlows(client, r), Lookup(client), Transaction(AddFlow(r))]);
            Shape(s.db) && !Shape(NextLedgers(s, Finish(client)).db)
  {
    var t, v := RunTarget(r, RunVerdict(db, r)), db.runs[r].version;
    FlowSpoilsCount(db, r);
    CountRecords(db, 0, r, client);
    hide NextLedgers, AfterEvents, Shape, Act, Settled, Check;
    Race(Ledgers(db, map[]), CountFlows(client, r), client, t, Transaction(AddFlow(r)));
    SpoiltFinish(Ledgers(Act(db, AddFlow(r)), map[client := Opened(t, v)]), client);
  }

  lemma FlowSpoilsCount(db: Tables, r: Id)
    requires Shape(db) && r < |db.runs| && db.runs[r].state.RunRunning? && FlowsTerminal(db, r)
    ensures var b := Act(db, AddFlow(r));
            var u := RunUpdate(r, db.runs[r].version, RunVerdict(db, r));
            Shape(b) && Check(b, u).Ok? && !Settled(b, u)
  {
    AddFlowKeepsShapeIff(db, AddFlow(r));
    var b := Act(db, AddFlow(r));
    assert FlowIn(b, r, |db.flows|) && b.flows[|db.flows|] == NewFlow(r);
    assert !FlowsTerminal(b, r);
  }

  /** Count, lookup, and then somebody else. */
  lemma Race(s: Ledgers, count: Event, client: nat, t: Target, other: Event)
    requires NextLedgers(s, count) == Ledgers(s.db, map[client := Counted(t)]) && LiveTarget(s.db, t)
    requires other.Transaction?
    ensures AfterEvents(s, [count, Lookup(client), other]) ==
            Ledgers(Act(s.db, other.act), map[client := Opened(t, VersionOf(s.db, t))])
  {
    ThreeEvents(s, count, Lookup(client), other);
    LookupOpens(s.db, client, t);
    TransactionActs(Ledgers(s.db, map[client := Opened(t, VersionOf(s.db, t))]), other.act);
    hide Act, NextLedgers, AfterEvents;
  }

  lemma LookupOpens(db: Tables, client: nat, t: Target)
    requires LiveTarget(db, t)
    ensures NextLedgers(Ledgers(db, map[client := Counted(t)]), Lookup(client)) ==
            Ledgers(db, map[client := Opened(t, VersionOf(db, t))])
  {
  }

  lemma TransactionActs(s: Ledgers, a: Action)
    ensures NextLedgers(s, Transaction(a)) == s.(db := Act(s.db, a))
  {
  }

  lemma CountRecords(db: Tables, f: Id, r: Id, client: nat)
    ensures LeavesTerminal(db, f) ==>
              NextLedgers(Ledgers(db, map[]), CountSteps(client, f)) ==
              Ledgers(db, map[client := Counted(FlowTarget(f, FlowVerdict(db, f)))])
    ensures FlowsTerminal(db, r) ==>
              NextLedgers(Ledgers(db, map[]), CountFlows(client, r)) ==
              Ledgers(db, map[client := Counted(RunTarget(r, RunVerdict(db, r)))])
  {
  }

  lemma ThreeEvents(s: Ledgers, a: Event, b: Event, c: Event)
    ensures AfterEvents(s, [a, b, c]) == NextLedgers(NextLedgers(NextLedgers(s, a), b), c)
  {
    hide NextLedgers;
    assert [a, b, c][..2] == [a, b] && [a, b][..1] == [a] && [a][..0] == [];
    assert AfterEvents(s, [a, b]) == NextLedgers(AfterEvents(s, [a]), b);
  }
}
