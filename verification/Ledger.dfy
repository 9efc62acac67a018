/** The ledger's tables and its transactions, each as a function from the tables
    before to the tables after. Rows are never deleted, so a table is a sequence
    and a row's id is its position; creation order is position order. A
    transaction that returns an error leaves every table as it was. */
module Ledger {
  import opened Options
  import opened Fsm

  type Id = nat
  type Time = int

  datatype Run = Run(state: RunState, tokenBudget: nat, tokensUsed: int, costUsd: real, version: nat)

  datatype Flow = Flow(runId: Id, assignedNode: string, state: FlowState, version: nat)

  datatype Step = Step(
    flowId: Id, runId: Id, tenant: string, state: StepState,
    agentType: string, provider: string,
    leaseNode: string, leaseExpires: Option<Time>,
    tokensUsed: int, costUsd: real, failureReason: string,
    retryOf: Option<Id>, retryCount: nat, version: nat)

  /** A side effect as reported: no owner means "the step being completed", no
      state means the default, committed. */
  datatype Effect = Effect(stepId: Option<Id>, number: int, payload: string, state: Option<SideEffectState>)

  datatype EffectRow = EffectRow(payload: string, state: SideEffectState)

  datatype Tables = Tables(
    runs: seq<Run>, flows: seq<Flow>, steps: seq<Step>, effects: map<(Id, int), EffectRow>)

  /** `Fault` is any failure of the connection; the others are decided by the data. */
  datatype Error = Ok | Fault | NotFound | VersionConflict | FsmRejected | BudgetExhausted | BadFinalState | Constraint

  datatype Outcome = Outcome(db: Tables, err: Error)

  // ---- T1: lease mirror and budget debit ----

  datatype LeaseMirror = LeaseMirror(stepId: Id, runId: Id, nodeId: string, leaseExpiresAt: Time, estimatedTokens: int)

  /** The WHERE clause of the debit: the run exists and can afford the estimate. */
  predicate CanDebit(db: Tables, runId: Id, estimate: int) {
    runId < |db.runs| &&
    (db.runs[runId].tokenBudget == 0 || db.runs[runId].tokensUsed + estimate <= db.runs[runId].tokenBudget)
  }

  function Debit(runs: seq<Run>, runId: Id, estimate: int): seq<Run>
    requires runId < |runs|
  {
    runs[runId := runs[runId].(tokensUsed := runs[runId].tokensUsed + estimate)]
  }

  function LeasedRow(s: Step, nodeId: string, expires: Time): Step {
    s.(state := StepLeased, leaseNode := nodeId, leaseExpires := Some(expires), version := s.version + 1)
  }

  function T1(db: Tables, req: LeaseMirror): Outcome {
    if req.stepId >= |db.steps| then Outcome(db, NotFound)
    else if !ValidStep(db.steps[req.stepId].state, StepLeased) then Outcome(db, FsmRejected)
    else if req.estimatedTokens > 0 && !CanDebit(db, req.runId, req.estimatedTokens) then Outcome(db, BudgetExhausted)
    else
      var runs := if req.estimatedTokens > 0 then Debit(db.runs, req.runId, req.estimatedTokens) else db.runs;
      var row := LeasedRow(db.steps[req.stepId], req.nodeId, req.leaseExpiresAt);
      Outcome(db.(runs := runs, steps := db.steps[req.stepId := row]), Ok)
  }

  // ---- T2: completion, side effects and run accounting in one transaction ----

  datatype Completion = Completion(
    stepId: Id, finalState: StepState, tokensUsed: int, costUsd: real, failureReason: string, effects: seq<Effect>)

  function Max(a: int, b: int): int { if a < b then b else a }

  function CompletedRow(s: Step, c: Completion): Step {
    s.(state := c.finalState, tokensUsed := c.tokensUsed, costUsd := c.costUsd,
       failureReason := c.failureReason, version := s.version + 1)
  }

  function EffectKey(e: Effect, owner: Id): (Id, int) {
    (if e.stepId.Some? then e.stepId.value else owner, e.number)
  }

  function NewEffectRow(e: Effect): EffectRow {
    EffectRow(e.payload, if e.state.Some? then e.state.value else SECommitted)
  }

  /** INSERT ... ON CONFLICT (step_id, seq) DO NOTHING. */
  function InsertEffect(rows: map<(Id, int), EffectRow>, e: Effect, owner: Id): map<(Id, int), EffectRow> {
    if EffectKey(e, owner) in rows then rows else rows[EffectKey(e, owner) := NewEffectRow(e)]
  }

  function InsertEffects(rows: map<(Id, int), EffectRow>, batch: seq<Effect>, owner: Id): map<(Id, int), EffectRow>
    decreases |batch|
  {
    if batch == [] then rows
    else InsertEffect(InsertEffects(rows, batch[..|batch| - 1], owner), batch[|batch| - 1], owner)
  }

  /** The foreign key from side effects to steps. */
  predicate OwnersExist(db: Tables, batch: seq<Effect>, owner: Id) {
    forall i | 0 <= i < |batch| :: EffectKey(batch[i], owner).0 < |db.steps|
  }

  /** The run's row after a completion. The subtracted amount is the step's
      tokens_used column, which the same transaction has already overwritten. */
  function SettledRun(r: Run, stepTokens: int, c: Completion): Run {
    r.(costUsd := r.costUsd + c.costUsd, tokensUsed := Max(0, r.tokensUsed - stepTokens) + c.tokensUsed)
  }

  /** The schema's CHECK on runs. */
  predicate WithinBudget(r: Run) { r.tokensUsed <= r.tokenBudget || r.tokenBudget == 0 }

  function SettleRun(runs: seq<Run>, runId: Id, stepTokens: int, c: Completion): seq<Run> {
    if runId < |runs| then runs[runId := SettledRun(runs[runId], stepTokens, c)] else runs
  }

  function T2(db: Tables, c: Completion): Outcome {
    if !c.finalState.StepSucceeded? && !c.finalState.StepFailed? then Outcome(db, BadFinalState)
    else if c.stepId >= |db.steps| then Outcome(db, NotFound)
    else if !ValidStep(db.steps[c.stepId].state, c.finalState) then Outcome(db, FsmRejected)
    else if !OwnersExist(db, c.effects, c.stepId) then Outcome(db, Constraint)
    else
      var row := CompletedRow(db.steps[c.stepId], c);
      var runs := SettleRun(db.runs, row.runId, row.tokensUsed, c);
      if row.runId < |runs| && !WithinBudget(runs[row.runId]) then Outcome(db, Constraint)
      else
        Outcome(db.(runs := runs, steps := db.steps[c.stepId := row],
                    effects := InsertEffects(db.effects, c.effects, c.stepId)), Ok)
  }

  // ---- T3: lease renewal mirror ----

  predicate Held(s: Step) { s.state.StepLeased? || s.state.StepRunning? }

  function T3(db: Tables, stepId: Id, expires: Time): Tables {
    if stepId < |db.steps| && Held(db.steps[stepId])
    then db.(steps := db.steps[stepId := db.steps[stepId].(leaseExpires := Some(expires))])
    else db
  }

  // ---- T4: expiry scan ----

  predicate Overdue(s: Step, now: Time) {
    Held(s) && s.leaseExpires.Some? && s.leaseExpires.value < now
  }

  function RecoveredRow(s: Step): Step {
    s.(state := StepPending, leaseNode := "", leaseExpires := None, version := s.version + 1)
  }

  function Scan(steps: seq<Step>, now: Time): (scanned: seq<Step>)
    ensures |scanned| == |steps|
    ensures forall i | 0 <= i < |steps| :: scanned[i] == if Overdue(steps[i], now) then RecoveredRow(steps[i])
            else steps[i]
  {
    seq(|steps|, i requires 0 <= i < |steps| => if Overdue(steps[i], now) then RecoveredRow(steps[i]) else steps[i])
  }

  function T4(db: Tables, now: Time): Tables { db.(steps := Scan(db.steps, now)) }

  // ---- single-row updates ----

  function MarkRunning(db: Tables, stepId: Id): Outcome {
    if stepId >= |db.steps| then Outcome(db, NotFound)
    else if !ValidStep(db.steps[stepId].state, StepRunning) then Outcome(db, FsmRejected)
    else
      var s := db.steps[stepId];
      Outcome(db.(steps := db.steps[stepId := s.(state := StepRunning, version := s.version + 1)]), Ok)
  }

  function Coalesce(s: string, otherwise: string): string { if s == "" then otherwise else s }

  function UpdateArm(db: Tables, stepId: Id, agentType: string, provider: string): Outcome {
    if stepId >= |db.steps| || !db.steps[stepId].state.StepPending? then Outcome(db, VersionConflict)
    else
      var s := db.steps[stepId];
      var row := s.(agentType := Coalesce(agentType, s.agentType), provider := Coalesce(provider, s.provider),
                    version := s.version + 1);
      Outcome(db.(steps := db.steps[stepId := row]), Ok)
  }

  // Optimistic updates come in two halves: a read that checks version and edge,
  // and a write guarded only by the version.

  function CheckRun(db: Tables, id: Id, version: nat, to: RunState): Error {
    if id >= |db.runs| then NotFound
    else if db.runs[id].version != version then VersionConflict
    else if !ValidRun(db.runs[id].state, to) then FsmRejected
    else Ok
  }

  function WriteRun(db: Tables, id: Id, version: nat, to: RunState): Outcome {
    if id >= |db.runs| || db.runs[id].version != version then Outcome(db, VersionConflict)
    else Outcome(db.(runs := db.runs[id := db.runs[id].(state := to, version := version + 1)]), Ok)
  }

  function CheckFlow(db: Tables, id: Id, version: nat, to: FlowState): Error {
    if id >= |db.flows| then NotFound
    else if db.flows[id].version != version then VersionConflict
    else if !ValidFlow(db.flows[id].state, to) then FsmRejected
    else Ok
  }

  function WriteFlow(db: Tables, id: Id, version: nat, to: FlowState, node: string): Outcome {
    if id >= |db.flows| || db.flows[id].version != version then Outcome(db, VersionConflict)
    else
      var f := db.flows[id];
      Outcome(db.(flows :=
          db.flows[id := f.(state := to, assignedNode := Coalesce(node, f.assignedNode), version := version + 1)]), Ok)
  }

  function CheckStep(db: Tables, id: Id, version: nat, to: StepState): Error {
    if id >= |db.steps| then NotFound
    else if db.steps[id].version != version then VersionConflict
    else if !ValidStep(db.steps[id].state, to) then FsmRejected
    else Ok
  }

  function WriteStep(db: Tables, id: Id, version: nat, to: StepState): Outcome {
    if id >= |db.steps| || db.steps[id].version != version then Outcome(db, VersionConflict)
    else Outcome(db.(steps := db.steps[id := db.steps[id].(state := to, version := version + 1)]), Ok)
  }

  // ---- inserts ----

  function NewRun(budget: nat): Run { Run(RunPending, budget, 0, 0.0, 0) }

  function NewFlow(runId: Id): Flow { Flow(runId, "", FlowPending, 0) }

  function NewStep(flowId: Id, runId: Id, tenant: string, agentType: string, provider: string): Step {
    Step(flowId, runId, tenant, StepPending, agentType, provider, "", None, 0, 0.0, "", None, 0, 0)
  }

  /** The copy of a step row the pending query hands to the scheduler. */
  datatype StepCopy = StepCopy(
    id: Id, flowId: Id, runId: Id, tenant: string, agentType: string, provider: string, retryCount: nat)

  function CopyOf(db: Tables, id: Id): StepCopy
    requires id < |db.steps|
  {
    var s := db.steps[id];
    StepCopy(id, s.flowId, s.runId, s.tenant, s.agentType, s.provider, s.retryCount)
  }

  /** A retry is a new pending row; everything else comes from the scheduler's copy. */
  function RetryRow(parent: StepCopy): Step {
    NewStep(parent.flowId, parent.runId, parent.tenant, parent.agentType, parent.provider)
      .(retryOf := Some(parent.id), retryCount := parent.retryCount + 1)
  }

  function InsertRetry(db: Tables, parent: StepCopy): Outcome {
    if parent.id >= |db.steps| || parent.flowId >= |db.flows| then Outcome(db, Constraint)
    else Outcome(db.(steps := db.steps + [RetryRow(parent)]), Ok)
  }
}
