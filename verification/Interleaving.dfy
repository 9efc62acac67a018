/** Any number of writers against one ledger. Transactions are atomic; the
    optimistic updates are not: another writer may act between a client's read
    (version and edge checked) and its write (version checked only). */
module Interleaving {
  import opened Fsm
  import opened Ledger
  import opened LedgerInvariants
  import opened LedgerAccounts

  datatype Update =
    | RunUpdate(id: Id, version: nat, runTo: RunState)
    | FlowUpdate(id: Id, version: nat, flowTo: FlowState, node: string)
    | StepUpdate(id: Id, version: nat, stepTo: StepState)

  datatype Action =
    | LeaseStep(req: LeaseMirror)
    | CompleteStep(completion: Completion)
    | RenewLease(stepId: Id, expires: Time)
    | ExpiryScan(now: Time)
    | StartStep(stepId: Id)
    | SetArm(stepId: Id, agentType: string, provider: string)
    | AddRetry(parent: StepCopy)
    | AddRun(budget: nat)
    | AddFlow(runId: Id)
    | AddStep(flowId: Id, runId: Id, tenant: string, agentType: string, provider: string)
    | Read(client: nat, update: Update)
    | Write(client: nat)

  /** `open` holds each client's update between its read and its write. */
  datatype System = System(db: Tables, open: map<nat, Update>)

  function Check(db: Tables, u: Update): Error {
    match u
    case RunUpdate(id, version, to) => CheckRun(db, id, version, to)
    case FlowUpdate(id, version, to, _) => CheckFlow(db, id, version, to)
    case StepUpdate(id, version, to) => CheckStep(db, id, version, to)
  }

  function Store(db: Tables, u: Update): Tables {
    match u
    case RunUpdate(id, version, to) => WriteRun(db, id, version, to).db
    case FlowUpdate(id, version, to, node) => WriteFlow(db, id, version, to, node).db
    case StepUpdate(id, version, to) => WriteStep(db, id, version, to).db
  }

  function Act(db: Tables, a: Action): Tables {
    match a
    case LeaseStep(req) => T1(db, req).db
    case CompleteStep(c) => T2(db, c).db
    case RenewLease(id, expires) => T3(db, id, expires)
    case ExpiryScan(now) => T4(db, now)
    case StartStep(id) => MarkRunning(db, id).db
    case SetArm(id, agentType, provider) => UpdateArm(db, id, agentType, provider).db
    case AddRetry(parent) => InsertRetry(db, parent).db
    case AddRun(budget) => db.(runs := db.runs + [NewRun(budget)])
    case AddFlow(runId) => db.(flows := db.flows + [NewFlow(runId)])
    case AddStep(flowId, runId, tenant, agentType, provider) =>
      db.(steps := db.steps + [NewStep(flowId, runId, tenant, agentType, provider)])
    case Read(_, _) => db
    case Write(_) => db
  }

  function Next(s: System, a: Action): System {
    match a
    case Read(client, u) => if client !in s.open && Check(s.db, u).Ok? then s.(open := s.open[client := u]) else s
    case Write(client) => if client in s.open then System(Store(s.db, s.open[client]), s.open - {client}) else s
    case _ => s.(db := Act(s.db, a))
  }

  function After(s: System, actions: seq<Action>): System
    decreases |actions|
  {
    if actions == [] then s else Next(After(s, actions[..|actions| - 1]), actions[|actions| - 1])
  }

  // ---- what interleaving cannot break ----

  /** An open update whose version still matches still names a legal edge. */
  predicate StillLegal(db: Tables, u: Update) {
    match u
    case RunUpdate(id, version, to) =>
      id < |db.runs| && version <= db.runs[id].version &&
      (version == db.runs[id].version ==> ValidRun(db.runs[id].state, to))
    case FlowUpdate(id, version, to, _) =>
      id < |db.flows| && version <= db.flows[id].version &&
      (version == db.flows[id].version ==> ValidFlow(db.flows[id].state, to))
    case StepUpdate(id, version, to) =>
      id < |db.steps| && version <= db.steps[id].version &&
      (version == db.steps[id].version ==> ValidStep(db.steps[id].state, to))
  }

  ghost predicate Sound(s: System) {
    Solvent(s.db) && forall c | c in s.open :: StillLegal(s.db, s.open[c])
  }

  lemma ActMoves(db: Tables, a: Action)
    requires Solvent(db)
    ensures Moves(db, Act(db, a)) && Solvent(Act(db, a))
  {
    hide T1, T2, T3, T4, MarkRunning, UpdateArm;
    match a
    case LeaseStep(req) => T1Moves(db, req);
    case CompleteStep(c) => T2Moves(db, c);
    case ExpiryScan(now) => T4Moves(db, now);
    case RenewLease(stepId, expires) => T3Moves(db, stepId, expires);
    case StartStep(stepId) => MarkRunningMoves(db, stepId);
    case SetArm(stepId, agentType, provider) => UpdateArmMoves(db, stepId, agentType, provider);
    case _ =>
  }

  lemma StoreMoves(db: Tables, u: Update)
    requires StillLegal(db, u)
    ensures Moves(db, Store(db, u)) && (Solvent(db) ==> Solvent(Store(db, u)))
  {
  }

  lemma MovesKeepLegal(a: Tables, b: Tables, u: Update)
    requires Moves(a, b) && StillLegal(a, u)
    ensures StillLegal(b, u)
  {
    match u
    case RunUpdate(id, _, _) => assert RunMoves(a.runs[id], b.runs[id]);
    case FlowUpdate(id, _, _, _) => assert FlowMoves(a.flows[id], b.flows[id]);
    case StepUpdate(id, _, _) => assert StepMoves(a.steps[id], b.steps[id]);
  }

  /** One action of anybody: every row takes a legal edge of its own table. */
  lemma NextIsLegal(s: System, a: Action)
    requires Sound(s)
    ensures Moves(s.db, Next(s, a).db) && Sound(Next(s, a))
  {
    var t := Next(s, a);
    if a.Write? && a.client in s.open {
      StoreMoves(s.db, s.open[a.client]);
    } else {
      ActMoves(s.db, a);
      assert t.db == Act(s.db, a);
    }
    forall c | c in t.open ensures StillLegal(t.db, t.open[c]) {
      if c in s.open { MovesKeepLegal(s.db, t.db, s.open[c]); }
    }
  }

  /** Every state of every run is sound. */
  lemma {:induction false} RunsAreSound(s: System, actions: seq<Action>)
    requires Sound(s)
    ensures Sound(After(s, actions))
    decreases |actions|
  {
    if actions != [] {
      RunsAreSound(s, actions[..|actions| - 1]);
      NextIsLegal(After(s, actions[..|actions| - 1]), actions[|actions| - 1]);
    }
  }

  /** In every run, each row's history is a path in its state machine. */
  lemma HistoriesArePaths(s: System, actions: seq<Action>, k: nat)
    requires Sound(s) && k < |actions|
    ensures Moves(After(s, actions[..k]).db, After(s, actions[..k + 1]).db)
  {
    RunsAreSound(s, actions[..k]);
    assert actions[..k + 1][..k] == actions[..k];
    NextIsLegal(After(s, actions[..k]), actions[k]);
  }

  // ---- across whole stretches of a run ----

  predicate StepLater(a: Step, b: Step) {
    && a.flowId == b.flowId && a.runId == b.runId && a.retryOf == b.retryOf && a.retryCount == b.retryCount
    && a.version <= b.version
    && (a.version == b.version ==> a.state == b.state && SameArm(a, b))
    && (StepTerminal(a.state) ==> b.state == a.state && SameArm(a, b))
  }

  predicate FlowLater(a: Flow, b: Flow) {
    a.version <= b.version && (a.version == b.version ==> a == b) && (FlowTerminal(a.state) ==> b.state == a.state)
  }

  predicate RunLater(a: Run, b: Run) {
    && a.tokenBudget == b.tokenBudget && a.tokensUsed <= b.tokensUsed
    && a.version <= b.version && (a.version == b.version ==> a.state == b.state)
    && (RunTerminal(a.state) ==> b.state == a.state)
  }

  ghost predicate Later(a: Tables, b: Tables) {
    && |a.runs| <= |b.runs| && (forall i | 0 <= i < |a.runs| :: RunLater(a.runs[i], b.runs[i]))
    && |a.flows| <= |b.flows| && (forall i | 0 <= i < |a.flows| :: FlowLater(a.flows[i], b.flows[i]))
    && |a.steps| <= |b.steps| && (forall i | 0 <= i < |a.steps| :: StepLater(a.steps[i], b.steps[i]))
    && (forall k | k in a.effects :: k in b.effects && b.effects[k] == a.effects[k])
  }

  lemma LaterThenMoves(a: Tables, b: Tables, c: Tables)
    requires Solvent(b) && Later(a, b) && Moves(b, c)
    ensures Later(a, c)
  {
    forall i | 0 <= i < |a.runs| ensures RunLater(a.runs[i], c.runs[i]) {
      assert RunLater(a.runs[i], b.runs[i]) && RunMoves(b.runs[i], c.runs[i]);
    }
    forall i | 0 <= i < |a.flows| ensures FlowLater(a.flows[i], c.flows[i]) {
      assert FlowLater(a.flows[i], b.flows[i]) && FlowMoves(b.flows[i], c.flows[i]);
    }
    forall i | 0 <= i < |a.steps| ensures StepLater(a.steps[i], c.steps[i]) {
      assert StepLater(a.steps[i], b.steps[i]) && StepMoves(b.steps[i], c.steps[i]);
    }
  }

  /** Between any two points of any run: versions only grow and equal versions mean
      equal states and arms, terminal states are absorbing, tokens never fall,
      budgets are never exceeded, side-effect rows are written once. */
  lemma {:induction false} RunsGoForward(s: System, actions: seq<Action>, i: nat, j: nat)
    requires Sound(s) && i <= j <= |actions|
    ensures Later(After(s, actions[..i]).db, After(s, actions[..j]).db)
    ensures Solvent(After(s, actions[..j]).db)
    decreases j
  {
    hide After, Moves, StillLegal;
    RunsAreSound(s, actions[..j]);
    if i < j {
      hide Later;
      RunsGoForward(s, actions, i, j - 1);
      HistoriesArePaths(s, actions, j - 1);
      LaterThenMoves(After(s, actions[..i]).db, After(s, actions[..j - 1]).db, After(s, actions[..j]).db);
    }
  }

  predicate VersionMatches(db: Tables, u: Update) {
    match u
    case RunUpdate(id, version, _) => id < |db.runs| && db.runs[id].version == version
    case FlowUpdate(id, version, _, _) => id < |db.flows| && db.flows[id].version == version
    case StepUpdate(id, version, _) => id < |db.steps| && db.steps[id].version == version
  }

  /** The version alone guards nothing: a write that passes it moves the row along its
      machine exactly when the edge is legal, which is what the read has checked. */
  lemma WriteMovesIffLegal(db: Tables, u: Update)
    requires Solvent(db) && VersionMatches(db, u)
    ensures Moves(db, Store(db, u)) <==> StillLegal(db, u)
  {
    match u
    case RunUpdate(id, _, to) =>
      assert RunMoves(db.runs[id], Store(db, u).runs[id]) <==> ValidRun(db.runs[id].state, to);
    case FlowUpdate(id, _, to, _) =>
      assert FlowMoves(db.flows[id], Store(db, u).flows[id]) <==> ValidFlow(db.flows[id].state, to);
    case StepUpdate(id, _, to) =>
      assert StepMoves(db.steps[id], Store(db, u).steps[id]) <==> ValidStep(db.steps[id].state, to);
  }

  // ---- side effects, whoever writes ----

  predicate Honest(a: Action) { a.CompleteStep? ==> OwnBatch(a.completion) }

  lemma HonestNextOwnsEffects(s: System, a: Action)
    requires Sound(s) && EffectsOwned(s.db) && Honest(a)
    ensures EffectsOwned(Next(s, a).db)
  {
    hide T2;
    NextIsLegal(s, a);
    OnlyCompletionsWriteEffects(s, a);
    if a.CompleteStep? && T2(s.db, a.completion).err.Ok? {
      OwnBatchOwnsEffects(s.db, a.completion);
    } else {
      hide Next, Sound, StillLegal;
      var t := Next(s, a);
      forall k | k in s.db.effects ensures k.0 < |t.db.steps| && Completed(t.db.steps[k.0].state) {
        assert StepMoves(s.db.steps[k.0], t.db.steps[k.0]);
      }
    }
  }

  lemma OnlyCompletionsWriteEffects(s: System, a: Action)
    ensures if a.CompleteStep? && T2(s.db, a.completion).err.Ok? then Next(s, a).db == T2(s.db, a.completion).db
            else Next(s, a).db.effects == s.db.effects
  {
    hide InsertEffects, OwnersExist;
  }

  /** In every interleaving of honest writers, each side-effect row belongs to a Step
      that has succeeded or failed. */
  lemma {:induction false} HonestRunsOwnTheirEffects(s: System, actions: seq<Action>)
    requires Sound(s) && EffectsOwned(s.db) && forall k | 0 <= k < |actions| :: Honest(actions[k])
    ensures EffectsOwned(After(s, actions).db)
    decreases |actions|
  {
    if actions != [] {
      var n := |actions| - 1;
      HonestRunsOwnTheirEffects(s, actions[..n]);
      RunsAreSound(s, actions[..n]);
      HonestNextOwnsEffects(After(s, actions[..n]), actions[n]);
    }
  }
}
