/** How the ledger's lease columns follow the lease store, and what one dispatch
    may do to the tables. */
module Recovery {
  import opened Options
  import opened Fsm
  import opened Ledger
  import opened LedgerInvariants
  import opened LedgerAccounts
  import Lease = StepLease

  // ---- the lease store during a dispatch ----

  /** Nobody new holds anything. */
  predicate Fewer(l: Lease.Leases, m: Lease.Leases) { m.closed == l.closed && m.holders.Keys <= l.holders.Keys }

  // ---- the mirror ----

  predicate HasGrant(l: Lease.Leases, s: Id) { s in l.latest && l.latest[s] < |l.grants| }

  function LastExpiry(l: Lease.Leases, s: Id): Time
    requires HasGrant(l, s)
  {
    l.grants[l.latest[s]].expiresAt
  }

  predicate MirrorOk(row: Step, l: Lease.Leases, s: Id) {
    Held(row) ==> row.leaseExpires.Some? && HasGrant(l, s) && row.leaseExpires.value <= LastExpiry(l, s)
  }

  /** A leased or running row carries an expiry no later than its step's last grant;
      with one lease length for all, no grant reaches further than that from now. */
  ghost predicate Mirrored(db: Tables, l: Lease.Leases, ttl: nat) {
    && (forall s | 0 <= s < |db.steps| :: MirrorOk(db.steps[s], l, s))
    && (forall s | HasGrant(l, s) :: LastExpiry(l, s) <= l.clock + ttl)
  }

  /** No Step is stranded: once its last grant has run out, the next scan finds it. */
  lemma ScanRecoversEveryHeldStep(db: Tables, l: Lease.Leases, ttl: nat, s: Id, now: Time)
    requires Mirrored(db, l, ttl) && s < |db.steps| && Held(db.steps[s])
    requires HasGrant(l, s) ==> LastExpiry(l, s) < now
    ensures T4(db, now).steps[s] == RecoveredRow(db.steps[s]) && T4(db, now).steps[s].state.StepPending?
  {
    assert MirrorOk(db.steps[s], l, s);
  }

  ghost predicate GrantsExtend(l: Lease.Leases, m: Lease.Leases) {
    forall s | HasGrant(l, s) :: HasGrant(m, s) && LastExpiry(l, s) <= LastExpiry(m, s)
  }

  lemma AcquireExtends(db: Tables, l: Lease.Leases, s: Id, node: string, ttl: nat, t1: Time, t2: Time)
    requires Lease.Valid(l) && Mirrored(db, l, ttl) && Lease.ReadsClock(l, t1, t2)
    ensures Mirrored(db, Lease.Acquire(l, s, node, ttl, t1, t2), ttl)
    ensures GrantsExtend(l, Lease.Acquire(l, s, node, ttl, t1, t2))
  {
    var m := Lease.Acquire(l, s, node, ttl, t1, t2);
    forall q | HasGrant(l, q) ensures HasGrant(m, q) && LastExpiry(l, q) <= LastExpiry(m, q) {
      assert Lease.LatestOk(l, q);
    }
    forall q | HasGrant(m, q) ensures LastExpiry(m, q) <= m.clock + ttl {
      if q != s || m.grants == l.grants { assert HasGrant(l, q); }
    }
    MirrorSurvives(db, l, m, ttl);
  }

  lemma KeepaliveExtends(db: Tables, l: Lease.Leases, s: Id, ticket: nat, ttl: nat, t1: Time, t2: Time)
    requires Lease.Valid(l) && Mirrored(db, l, ttl) && Lease.ReadsClock(l, t1, t2)
    ensures Mirrored(db, Lease.Keepalive(l, s, ticket, ttl, t1, t2), ttl)
    ensures GrantsExtend(l, Lease.Keepalive(l, s, ticket, ttl, t1, t2))
  {
    var m := Lease.Keepalive(l, s, ticket, ttl, t1, t2);
    forall q | HasGrant(l, q)
      ensures HasGrant(m, q) && LastExpiry(l, q) <= LastExpiry(m, q) <= m.clock + ttl
    { assert LastExpiry(l, q) <= l.clock + ttl; }
    MirrorSurvives(db, l, m, ttl);
  }

  /** Releases and timers leave every grant's expiry alone. */
  lemma LettingGoExtends(db: Tables, l: Lease.Leases, m: Lease.Leases, ttl: nat)
    requires Mirrored(db, l, ttl) && m.grants == l.grants && m.latest == l.latest && l.clock <= m.clock
    ensures Mirrored(db, m, ttl) && GrantsExtend(l, m)
  {
    forall q | HasGrant(m, q) ensures LastExpiry(m, q) <= m.clock + ttl { assert HasGrant(l, q); }
    MirrorSurvives(db, l, m, ttl);
  }

  lemma MirrorSurvives(db: Tables, l: Lease.Leases, m: Lease.Leases, ttl: nat)
    requires Mirrored(db, l, ttl)
    requires forall s | HasGrant(l, s) :: HasGrant(m, s) && LastExpiry(l, s) <= LastExpiry(m, s)
    requires forall s | HasGrant(m, s) :: LastExpiry(m, s) <= m.clock + ttl
    ensures Mirrored(db, m, ttl) && GrantsExtend(l, m)
  {
    forall s | 0 <= s < |db.steps| ensures MirrorOk(db.steps[s], m, s) { assert MirrorOk(db.steps[s], l, s); }
  }

  // ---- changes confined to one row ----

  /** Only row `id` differs, and it keeps its place in the hierarchy and its chain. */
  ghost predicate Only(a: Tables, b: Tables, id: Id) {
    && id < |a.steps| && |b.steps| == |a.steps|
    && (forall s | 0 <= s < |a.steps| && s != id :: b.steps[s] == a.steps[s])
    && a.steps[id].flowId == b.steps[id].flowId && a.steps[id].runId == b.steps[id].runId
    && a.steps[id].retryOf == b.steps[id].retryOf && a.steps[id].retryCount == b.steps[id].retryCount
  }

  lemma RowChangeKeepsMirror(a: Tables, b: Tables, l: Lease.Leases, ttl: nat, id: Id)
    requires Mirrored(a, l, ttl) && Only(a, b, id) && MirrorOk(b.steps[id], l, id)
    ensures Mirrored(b, l, ttl)
  {
    forall s | 0 <= s < |b.steps| ensures MirrorOk(b.steps[s], l, s) {
      if s != id { assert MirrorOk(a.steps[s], l, s); }
    }
  }

  lemma RowChangeKeepsEffects(a: Tables, b: Tables, id: Id)
    requires EffectsOwned(a) && Only(a, b, id) && b.effects == a.effects &&
             ValidStep(a.steps[id].state, b.steps[id].state)
    ensures EffectsOwned(b)
  {
  }

  /** The effect of any number of keepalives on the ledger: one row's expiry. */
  predicate RenewedOnly(a: Tables, b: Tables, id: Id) {
    id < |a.steps| && id < |b.steps| &&
    b == a.(steps := a.steps[id := a.steps[id].(leaseExpires := b.steps[id].leaseExpires)])
  }

  lemma RenewalKeepsPaths(a: Tables, b: Tables, id: Id)
    requires RenewedOnly(a, b, id) && RetryPaths(a)
    ensures RetryPaths(b)
  {
    forall s | 0 <= s < |b.steps| ensures RetryLink(b, s) { assert RetryLink(a, s); }
  }

  lemma RenewalKeepsRest(a: Tables, b: Tables, id: Id)
    requires RenewedOnly(a, b, id)
    ensures Only(a, b, id) && b.steps[id] == a.steps[id].(leaseExpires := b.steps[id].leaseExpires)
    ensures Linked(a) ==> Linked(b)
    ensures Accounts(a) ==> Accounts(b)
    ensures EffectsOwned(a) ==> EffectsOwned(b)
    ensures Progress(a) ==> Progress(b)
  {
    if Accounts(a) { CostsStandStill(a, b); }
  }

  lemma RenewalKeepsSafe(a: Tables, b: Tables, id: Id)
    requires RenewedOnly(a, b, id) && Safe(a)
    ensures Safe(b)
  {
    StepActionKeepsSafe(a, b);
  }

  lemma RenewalIsMutual(a: Tables, b: Tables, id: Id)
    requires RenewedOnly(a, b, id)
    ensures RenewedOnly(b, a, id)
  {
    assert a.steps == b.steps[id := b.steps[id].(leaseExpires := a.steps[id].leaseExpires)];
  }

  lemma RenewalChangesNothingElse(a: Tables, b: Tables, id: Id)
    requires RenewedOnly(a, b, id)
    ensures Only(a, b, id) && b.steps[id] == a.steps[id].(leaseExpires := b.steps[id].leaseExpires)
    ensures RetryPaths(b) == RetryPaths(a)
    ensures Linked(a) ==> Linked(b)
    ensures Accounts(a) ==> Accounts(b)
    ensures EffectsOwned(a) ==> EffectsOwned(b)
    ensures Progress(a) ==> Progress(b)
    ensures Safe(a) ==> Safe(b)
  {
    RenewalKeepsRest(a, b, id);
    RenewalIsMutual(a, b, id);
    if RetryPaths(a) { RenewalKeepsPaths(a, b, id); }
    if RetryPaths(b) { RenewalKeepsPaths(b, a, id); }
    if Safe(a) { RenewalKeepsSafe(a, b, id); }
  }

  lemma RenewalsCompose(a: Tables, b: Tables, c: Tables, id: Id)
    requires RenewedOnly(a, b, id) && RenewedOnly(b, c, id)
    ensures RenewedOnly(a, c, id)
  {
    assert c.steps == a.steps[id := a.steps[id].(leaseExpires := c.steps[id].leaseExpires)];
  }

  // ---- what a dispatch leaves behind ----

  /** A dispatch changes one row, and appends the retry of `step` when it retries. */
  ghost predicate Confined(a: Tables, b: Tables, step: StepCopy, retried: bool) {
    && step.id < |a.steps| && |b.steps| == |a.steps| + (if retried then 1 else 0)
    && (forall s | 0 <= s < |a.steps| && s != step.id :: b.steps[s] == a.steps[s])
    && a.steps[step.id].flowId == b.steps[step.id].flowId && a.steps[step.id].runId == b.steps[step.id].runId
    && a.steps[step.id].retryOf == b.steps[step.id].retryOf
    && a.steps[step.id].retryCount == b.steps[step.id].retryCount
    && (retried ==> b.steps[|a.steps|] == RetryRow(step))
  }

  /** A row that has not failed has not been retried. */
  lemma LiveRowIsLeaf(db: Tables, s: Id)
    requires RetryPaths(db) && s < |db.steps| && !db.steps[s].state.StepFailed?
    ensures IsLeaf(db, s)
  {
    forall r | 0 <= r < |db.steps| ensures db.steps[r].retryOf != Some(s) { assert RetryLink(db, r); }
  }

  lemma StepsDecideLeaves(a: Tables, b: Tables, f: Id)
    requires a.steps == b.steps
    ensures LeavesTerminal(a, f) == LeavesTerminal(b, f) && FlowVerdict(a, f) == FlowVerdict(b, f)
  {
    assert forall s :: LeafOf(a, f, s) <==> LeafOf(b, f, s);
    SameLeaves(a, b, f);
  }

  /** A Flow whose leaves are all terminal is terminal. */
  ghost predicate FlowDone(db: Tables, f: Id) {
    f < |db.flows| && LeavesTerminal(db, f) ==> FlowTerminal(db.flows[f].state)
  }

  ghost predicate RunDone(db: Tables, r: Id) {
    r < |db.runs| && FlowsTerminal(db, r) ==> RunTerminal(db.runs[r].state)
  }

  lemma LiveLeafKeepsFlowOpen(db: Tables, s: Id)
    requires s < |db.steps| && IsLeaf(db, s) && !StepTerminal(db.steps[s].state)
    ensures FlowDone(db, db.steps[s].flowId)
  {
    assert LeafOf(db, db.steps[s].flowId, s);
  }

  lemma RowChangeKeepsProgress(a: Tables, b: Tables, id: Id)
    requires Progress(a) && Only(a, b, id) && b.flows == a.flows && |b.runs| == |a.runs|
    requires forall r | 0 <= r < |a.runs| :: b.runs[r].state == a.runs[r].state
    requires !b.steps[id].state.StepExpired? && b.steps[id].flowId < |b.flows|
    requires b.steps[id].state.StepRunning? || Completed(b.steps[id].state) ==>
               !b.flows[b.steps[id].flowId].state.FlowPending? && !b.flows[b.steps[id].flowId].state.FlowAssigned?
    ensures Progress(b)
  {
  }

  lemma RetryKeepsProgress(a: Tables, step: StepCopy)
    requires Progress(a)
    ensures Progress(InsertRetry(a, step).db)
  {
  }

  /** Above the step, only its own Flow and Run may have changed. */
  ghost predicate FramedParents(a: Tables, b: Tables, step: StepCopy) {
    && |b.flows| == |a.flows| && |b.runs| == |a.runs|
    && (forall f | 0 <= f < |a.flows| ::
        b.flows[f].runId == a.flows[f].runId && (f != step.flowId ==> b.flows[f] == a.flows[f]))
    && (forall r | 0 <= r < |a.runs| :: b.runs[r].tokenBudget == a.runs[r].tokenBudget)
    && (forall r | 0 <= r < |a.runs| && r != step.runId :: b.runs[r] == a.runs[r])
  }

  ghost predicate Within(a: Tables, b: Tables, step: StepCopy) {
    Confined(a, b, step, false) && FramedParents(a, b, step)
  }

  lemma WithinComposes(a: Tables, b: Tables, c: Tables, step: StepCopy)
    requires Within(a, b, step) && Within(b, c, step)
    ensures Within(a, c, step)
  {
  }

  /** Finished work has finished parents: the Flow if its leaves are all terminal,
      the Run if this is what finished the Flow and all its Flows are. */
  ghost predicate Settles(a: Tables, b: Tables, step: StepCopy) {
    step.flowId < |a.flows| && step.flowId < |b.flows| ==>
      FlowDone(b, step.flowId) &&
      (b.flows[step.flowId].state != a.flows[step.flowId].state && FlowTerminal(b.flows[step.flowId].state) ==>
          RunDone(b, step.runId))
  }

  /** The Flow has a leaf to finish besides this Step. */
  ghost predicate OtherWork(a: Tables, step: StepCopy) {
    exists s :: LeafOf(a, step.flowId, s) && s != step.id && !StepTerminal(a.steps[s].state)
  }

  /** Cancelling for want of budget looks at no parent. It still leaves a finished Flow
      finalized exactly when the Flow was not finished by it. */
  ghost predicate Strands(a: Tables, b: Tables, step: StepCopy) {
    && b.flows == a.flows && b.runs == a.runs && step.id < |b.steps|
    && (b.steps[step.id].state.StepCancelled? ==> (FlowDone(b, step.flowId) <==> OtherWork(a, step)))
  }

  lemma OtherWorkStays(a: Tables, b: Tables, step: StepCopy)
    requires Within(a, b, step)
    ensures OtherWork(a, step) <==> OtherWork(b, step)
  {
    forall s ensures LeafOf(a, step.flowId, s) <==> LeafOf(b, step.flowId, s) {
      assert forall r | 0 <= r < |a.steps| :: a.steps[r].retryOf == b.steps[r].retryOf;
    }
  }

  lemma OverBudgetStrandsIff(a: Tables, b: Tables, step: StepCopy)
    requires Shape(a) && Confined(a, b, step, false) && b.flows == a.flows && step.flowId == a.steps[step.id].flowId
    requires !StepTerminal(a.steps[step.id].state) && b.steps[step.id].state.StepCancelled?
    ensures FlowDone(b, step.flowId) <==> OtherWork(a, step)
  {
    var f := step.flowId;
    if FlowTerminal(a.flows[f].state) { TerminalFlowIsDone(a, step.id); }
    LiveRowIsLeaf(a, step.id);
    forall s ensures LeafOf(a, f, s) <==> LeafOf(b, f, s) {
      assert forall r | 0 <= r < |a.steps| :: a.steps[r].retryOf == b.steps[r].retryOf;
    }
    assert LeafOf(b, f, step.id);
    if OtherWork(a, step) {
      var s :| LeafOf(a, f, s) && s != step.id && !StepTerminal(a.steps[s].state);
      assert LeafOf(b, f, s) && b.steps[s] == a.steps[s];
    }
  }

  /** All that holds between the tables before and after a dispatch. `swallowed` says
      the dispatch retried a Step whose failure never committed; `quiet` that no call
      lost its connection; `settles` that the exit taken finalizes parents. */
  ghost predicate Ends(
    a: Tables, b: Tables, step: StepCopy, retried: bool, swallowed: bool, quiet: bool, settles: bool) {
    && Confined(a, b, step, retried) && FramedParents(a, b, step)
    && (Shape(b) <==> !swallowed)
    && (swallowed ==> retried && !quiet && !RetryPaths(b))
    && (Progress(a) && quiet ==> Progress(b))
    && (Progress(a) && quiet && settles && !StepTerminal(a.steps[step.id].state) ==> Settles(a, b, step))
    && (!settles && !StepTerminal(a.steps[step.id].state) ==> Strands(a, b, step))
  }

  /** An exit that leaves the Step unfinished owes its parents nothing. */
  lemma UnfinishedEnds(a: Tables, b: Tables, step: StepCopy, quiet: bool)
    requires Within(a, b, step) && Shape(b) && step.flowId == b.steps[step.id].flowId &&
             !StepTerminal(b.steps[step.id].state)
    requires Progress(a) && quiet ==> Progress(b)
    ensures Ends(a, b, step, false, false, quiet, true)
  {
    LiveRowIsLeaf(b, step.id);
    LiveLeafKeepsFlowOpen(b, step.id);
    if FlowTerminal(b.flows[step.flowId].state) { TerminalFlowIsDone(b, step.id); }
  }

  lemma SettledEnds(a: Tables, b: Tables, c: Tables, step: StepCopy, quiet: bool)
    requires Within(a, b, step) && Within(b, c, step) && Shape(c)
    requires Shape(b) && step.flowId < |a.flows| && step.flowId < |b.flows|
    requires b.flows[step.flowId].state != a.flows[step.flowId].state ==> !FlowTerminal(b.flows[step.flowId].state)
    requires Progress(a) && quiet ==> Progress(c) && Settles(b, c, step)
    ensures Ends(a, c, step, false, false, quiet, true)
  {
    WithinComposes(a, b, c, step);
  }

  lemma RenewalKeepsDone(a: Tables, b: Tables, id: Id, f: Id)
    requires RenewedOnly(a, b, id)
    ensures FlowDone(a, f) == FlowDone(b, f)
  {
    forall s ensures LeafOf(a, f, s) <==> LeafOf(b, f, s) {
      assert forall r | 0 <= r < |a.steps| :: a.steps[r].retryOf == b.steps[r].retryOf;
    }
    SameLeaves(a, b, f);
  }

  /** Keepalives after the fact change none of it. */
  lemma RenewalKeepsEnds(
    a: Tables, b: Tables, c: Tables, step: StepCopy, retried: bool, swallowed: bool, quiet: bool, still: bool)
    requires Ends(a, b, step, retried, swallowed, quiet, true) && RenewedOnly(b, c, step.id) && Accounts(b)
    requires still ==> quiet
    ensures Ends(a, c, step, retried, swallowed, still, true)
  {
    hide Shape, Progress, Accounts, RetryPaths, Linked, EffectsOwned, FlowDone, RunDone;
    RenewalChangesNothingElse(b, c, step.id);
    RenewalKeepsDone(b, c, step.id, step.flowId);
    RenewalKeepsRunDone(b, c, step.id, step.runId);
    RenewalKeepsFrame(a, b, c, step, retried);
    RenewalKeepsShape(b, c, step.id);
    hide Confined, FramedParents, Only;
  }

  lemma RenewalKeepsShape(a: Tables, b: Tables, id: Id)
    requires RenewedOnly(a, b, id) && Accounts(a)
    ensures Shape(a) == Shape(b)
  {
    hide Shape, Accounts;
    RenewalChangesNothingElse(a, b, id);
    RenewalIsMutual(a, b, id);
    RenewalChangesNothingElse(b, a, id);
  }

  lemma RenewalKeepsFrame(a: Tables, b: Tables, c: Tables, step: StepCopy, retried: bool)
    requires Confined(a, b, step, retried) && FramedParents(a, b, step) && RenewedOnly(b, c, step.id)
    ensures Confined(a, c, step, retried) && FramedParents(a, c, step) && c.flows == b.flows
    ensures StepTerminal(c.steps[step.id].state) == StepTerminal(b.steps[step.id].state)
  {
  }

  lemma RenewalKeepsRunDone(a: Tables, b: Tables, id: Id, r: Id)
    requires RenewedOnly(a, b, id)
    ensures RunDone(a, r) == RunDone(b, r)
  {
    assert forall f :: FlowIn(a, r, f) <==> FlowIn(b, r, f);
    SameFlows(a, b, r);
  }

  lemma RetryKeepsFlowOpen(a: Tables, step: StepCopy)
    requires RetryPaths(a) && InsertRetry(a, step).err.Ok?
    ensures FlowDone(InsertRetry(a, step).db, step.flowId)
  {
    var b := InsertRetry(a, step).db;
    forall r | 0 <= r < |b.steps| ensures b.steps[r].retryOf != Some(|a.steps|) {
      if r < |a.steps| { assert RetryLink(a, r); }
    }
    LiveLeafKeepsFlowOpen(b, |a.steps|);
  }

  /** What a dispatch owes at its start follows from what it owes later on. */
  lemma LaterEnds(
    a: Tables, b: Tables, c: Tables, step: StepCopy, retried: bool, swallowed: bool, calm: bool, quiet: bool,
        settles: bool)
    requires Within(a, b, step) && Ends(b, c, step, retried, swallowed, calm, settles) && (quiet ==> calm)
    requires Progress(a) && quiet ==> Progress(b)
    requires StepTerminal(b.steps[step.id].state) ==> StepTerminal(a.steps[step.id].state)
    requires step.flowId < |a.flows| && FlowTerminal(b.flows[step.flowId].state) ==>
             b.flows[step.flowId] == a.flows[step.flowId]
    requires !settles ==> b.flows == a.flows && b.runs == a.runs
    ensures Ends(a, c, step, retried, swallowed, quiet, settles)
  {
    if !settles { OtherWorkStays(a, b, step); }
  }

  lemma RenewalIsWithin(a: Tables, b: Tables, step: StepCopy)
    requires RenewedOnly(a, b, step.id)
    ensures Within(a, b, step)
  {
  }

  /** An exit that leaves the Step in the state it was in. */
  lemma SameStateEnds(a: Tables, b: Tables, step: StepCopy, quiet: bool)
    requires Within(a, b, step) && Shape(b) && step.flowId == b.steps[step.id].flowId && b.flows == a.flows
    requires b.steps[step.id].state == a.steps[step.id].state && (Progress(a) && quiet ==> Progress(b))
    ensures Ends(a, b, step, false, false, quiet, true)
  {
    if !StepTerminal(b.steps[step.id].state) { UnfinishedEnds(a, b, step, quiet); }
  }

  /** The exit that finalizes nothing. */
  lemma CancelledEnds(a: Tables, b: Tables, step: StepCopy, quiet: bool)
    requires Within(a, b, step) && Shape(a) && Shape(b) && (Progress(a) && quiet ==> Progress(b))
    requires b.flows == a.flows && b.runs == a.runs && step.flowId == a.steps[step.id].flowId
    ensures Ends(a, b, step, false, false, quiet, false)
  {
    if !StepTerminal(a.steps[step.id].state) && b.steps[step.id].state.StepCancelled? {
      OverBudgetStrandsIff(a, b, step);
    }
  }
}
