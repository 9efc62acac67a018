/** One scheduler driving pending Steps through lease, execution and completion. */
module Schedulers {
  import opened Options
  import opened Fsm
  import opened Ledger
  import opened LedgerInvariants
  import opened LedgerAccounts
  import opened Repositories
  import opened Services
  import opened MemoryLeases
  import opened Recovery
  import opened RetryPolicy
  import opened Termination
  import Lease = StepLease

  datatype ExecutionResult = ExecutionResult(
    finalState: StepState, tokensUsed: int, costUsd: real, failureReason: string, sideEffects: seq<Effect>)

  /** How a dispatch ended. */
  datatype Exit =
    | NotAcquired
    | Unroutable
    | ArmRefused
    | NoInstance
    | OverBudget(estimate: int)
    | MirrorRefused
    | NotStarted
    | AssignmentRefused
    | ExecutorFailed(reason: string, retried: bool)
    | CommitFailed(report: ExecutionResult)
    | Committed(report: ExecutionResult, retried: bool)
  {
    predicate Retried() { (ExecutorFailed? || Committed?) && retried }

    /** Past the lease mirror. */
    predicate Started() { NotStarted? || AssignmentRefused? || ExecutorFailed? || CommitFailed? || Committed? }
  }

  /** A copy of a row is good as long as what never changes about the row matches. */
  ghost predicate Matches(db: Tables, step: StepCopy) {
    && step.id < |db.steps| && step.flowId == db.steps[step.id].flowId && step.runId == db.steps[step.id].runId
    && step.retryCount == db.steps[step.id].retryCount
  }

  predicate OwnEffects(report: ExecutionResult, id: Id) {
    forall i | 0 <= i < |report.sideEffects| ::
        report.sideEffects[i].stepId == None || report.sideEffects[i].stepId == Some(id)
  }

  ghost predicate OtherRunsSame(a: Tables, b: Tables, step: StepCopy) {
    && |b.runs| == |a.runs|
    && (forall r | 0 <= r < |a.runs| :: b.runs[r].tokenBudget == a.runs[r].tokenBudget)
    && (forall r | 0 <= r < |a.runs| && r != step.runId :: b.runs[r] == a.runs[r])
  }

  /** The Step's state at each exit. */
  predicate ExitState(before: StepState, after: StepState, exit: Exit, quiet: bool) {
    match exit
    case NotAcquired => after == before
    case Unroutable => after.StepCancelled? || (after == before && !(quiet && before.StepPending?))
    case ArmRefused => after == before
    case NoInstance => after == before
    case OverBudget(_) => after.StepCancelled? || (after == before && !(quiet && before.StepPending?))
    case MirrorRefused => after == before
    case NotStarted => after.StepLeased?
    case AssignmentRefused => after.StepFailed? || (after.StepRunning? && !quiet)
    case ExecutorFailed(_, _) => after.StepFailed? || (after.StepRunning? && !quiet)
    case CommitFailed(_) => after.StepRunning?
    case Committed(report, _) => after == report.finalState && Completed(after)
  }

  /** Whether the ledger will take this report. */
  predicate CanCommit(db: Tables, step: StepCopy, report: ExecutionResult) {
    step.runId < |db.runs| &&
    (forall i | 0 <= i < |report.sideEffects| && report.sideEffects[i].stepId.Some? ::
       report.sideEffects[i].stepId.value < |db.steps|) &&
    (db.runs[step.runId].tokenBudget == 0 || report.tokensUsed <= db.runs[step.runId].tokenBudget)
  }

  /** What stays on the books. A committed report is recorded in the Step's row and its
      side effects are inserted; a failure without a report costs nothing; and no exit
      but the first touches the side effects. */
  ghost predicate Booked(a: Tables, b: Tables, step: StepCopy, exit: Exit)
    requires step.id < |b.steps|
  {
    var row := b.steps[step.id];
    if exit.Committed? then
      && b.effects == InsertEffects(a.effects, exit.report.sideEffects, step.id)
      && row.tokensUsed == exit.report.tokensUsed && row.costUsd == exit.report.costUsd
      && row.failureReason == exit.report.failureReason
    else
      && b.effects == a.effects
      && ((exit.ExecutorFailed? || exit.AssignmentRefused?) && row.state.StepFailed? ==>
            row.tokensUsed == 0 && row.costUsd == 0.0)
      && (exit.ExecutorFailed? && row.state.StepFailed? ==> row.failureReason == exit.reason)
  }

  /** A failed Step is retried only when it has an attempt left and its reason names
      nothing that no retry can mend; when no call failed, also whenever it has and does. */
  predicate RetriedAsDue(step: StepCopy, exit: Exit, quiet: bool, maxRetries: nat) {
    match exit
    case ExecutorFailed(reason, retried) =>
      var due := step.retryCount < maxRetries && IsTransient(reason);
      (retried ==> due) && (quiet && due ==> retried)
    case Committed(report, retried) =>
      var due := report.finalState.StepFailed? && step.retryCount < maxRetries && IsTransient(report.failureReason);
      (retried ==> due) && (quiet && due ==> retried)
    case _ => true
  }

  /** The Run has a limit, and the estimate does not fit under it. */
  predicate CannotPay(db: Tables, step: StepCopy, estimate: int) {
    step.runId < |db.runs| &&
    0 < db.runs[step.runId].tokenBudget < db.runs[step.runId].tokensUsed + estimate
  }

  /** All that a dispatch owes the tables it found: what `Ends` says of rows and parents,
      the Step's own state, and, when no call failed, a report committed exactly when
      the ledger could take it. */
  ghost predicate Dispatched(
    a: Tables, b: Tables, step: StepCopy, exit: Exit, swallowed: bool, quiet: bool, maxRetries: nat) {
    && Ends(a, b, step, exit.Retried(), swallowed, quiet, !exit.OverBudget?)
    && ExitState(a.steps[step.id].state, b.steps[step.id].state, exit, quiet)
    && (exit.Retried() ==> !swallowed ==> b.steps[step.id].state.StepFailed?)
    && RetriedAsDue(step, exit, quiet, maxRetries)
    && (exit.OverBudget? ==> CannotPay(a, step, exit.estimate))
    && (exit.CommitFailed? ==> Completed(exit.report.finalState) && (quiet ==> !CanCommit(a, step, exit.report)))
    && (exit.Committed? && quiet ==> CanCommit(a, step, exit.report))
    && Booked(a, b, step, exit)
  }

  /** What a dispatch owes at its start follows from what it owes later on. */
  lemma LaterDispatched(
    a: Tables, b: Tables, c: Tables, step: StepCopy, exit: Exit, swallowed: bool, calm: bool, quiet: bool,
        maxRetries: nat)
    requires Within(a, b, step) && Dispatched(b, c, step, exit, swallowed, calm, maxRetries) && (quiet ==> calm)
    requires Progress(a) && quiet ==> Progress(b)
    requires StepTerminal(b.steps[step.id].state) ==> StepTerminal(a.steps[step.id].state)
    requires step.flowId < |a.flows| && FlowTerminal(b.flows[step.flowId].state) ==>
             b.flows[step.flowId] == a.flows[step.flowId]
    requires exit.OverBudget? ==> b.flows == a.flows && b.runs == a.runs
    requires exit.Started() || b.steps[step.id].state == a.steps[step.id].state
    requires b.effects == a.effects
    ensures Dispatched(a, c, step, exit, swallowed, quiet, maxRetries)
  {
    LaterEnds(a, b, c, step, exit.Retried(), swallowed, calm, quiet, !exit.OverBudget?);
  }

  lemma RenewalDispatched(
    a: Tables, b: Tables, c: Tables, step: StepCopy, exit: Exit, swallowed: bool, quiet: bool, still: bool,
        maxRetries: nat)
    requires Dispatched(a, b, step, exit, swallowed, quiet, maxRetries) && !exit.OverBudget?
    requires RenewedOnly(b, c, step.id) && Accounts(b) && (still ==> quiet)
    ensures Dispatched(a, c, step, exit, swallowed, still, maxRetries)
  {
    RenewalKeepsEnds(a, b, c, step, exit.Retried(), swallowed, quiet, still);
    RenewalKeepsState(b, c, step.id);
  }

  lemma RenewalKeepsState(b: Tables, c: Tables, id: Id)
    requires RenewedOnly(b, c, id) && id < |b.steps|
    ensures id < |c.steps| && c.steps[id] == b.steps[id].(leaseExpires := c.steps[id].leaseExpires)
    ensures c.effects == b.effects
  {
  }

  // ---- attempts at one piece of work ----

  /** A dispatch: the tables before and after it, its Step and how it ended. */
  datatype Attempt = Attempt(before: Tables, after: Tables, step: StepCopy, exit: Exit)

  /** No call failed, but the Step did, for a reason that may pass. */
  ghost predicate FailsInPassing(t: Attempt, maxRetries: nat) {
    && Matches(t.before, t.step) && Dispatched(t.before, t.after, t.step, t.exit, false, true, maxRetries)
    && match t.exit
       case ExecutorFailed(reason, _) => IsTransient(reason)
       case Committed(report, _) => report.finalState.StepFailed? && IsTransient(report.failureReason)
       case _ => false
  }

  /** The dispatch of the row that the earlier one appended, whatever came between. */
  ghost predicate TriesAgain(t: Attempt, u: Attempt) {
    t.exit.Retried() && u.step.id == |t.before.steps| && Moves(t.after, u.before)
  }

  /** An original Step that fails in passing each time is dispatched exactly MaxRetries + 1
      times: every attempt but that last one is followed up, and that one is not. */
  lemma {:induction false} AttemptsAreCounted(ts: seq<Attempt>, maxRetries: nat)
    requires ts != [] && ts[0].step.retryCount == 0
    requires forall i | 0 <= i < |ts| :: FailsInPassing(ts[i], maxRetries)
    requires forall i | 0 <= i < |ts| - 1 :: TriesAgain(ts[i], ts[i + 1])
    ensures |ts| <= maxRetries + 1
    ensures forall i | 0 <= i < |ts| :: ts[i].step.retryCount == i
    ensures ts[|ts| - 1].exit.Retried() <==> |ts| < maxRetries + 1
    decreases |ts|
  {
    hide FailsInPassing, TriesAgain;
    var n := |ts| - 1;
    if n > 0 {
      assert TriesAgain(ts[n - 1], ts[n - 1 + 1]);
      AttemptsAreCounted(ts[..n], maxRetries);
      assert ts[n - 1].step.retryCount == n - 1;
      AttemptAddsOne(ts[n - 1], ts[n], maxRetries);
    }
    AttemptIsFollowedUp(ts[n], maxRetries);
  }

  lemma AttemptAddsOne(t: Attempt, u: Attempt, maxRetries: nat)
    requires FailsInPassing(t, maxRetries) && FailsInPassing(u, maxRetries) && TriesAgain(t, u)
    ensures u.step.retryCount == t.step.retryCount + 1 && t.step.retryCount < maxRetries
  {
    hide IsTransient, Shape, Progress, RetryPaths, Settles, Strands;
    var n := |t.before.steps|;
    assert t.after.steps[n] == RetryRow(t.step);
    assert StepMoves(t.after.steps[n], u.before.steps[n]);
  }

  lemma AttemptIsFollowedUp(t: Attempt, maxRetries: nat)
    requires FailsInPassing(t, maxRetries)
    ensures t.exit.Retried() <==> t.step.retryCount < maxRetries
  {
    hide IsTransient, Shape, Progress, RetryPaths, Settles, Strands;
  }

  /** Where the keepalive loop stands: between rounds, between renewing the lease
      and mirroring it, or given up. */
  datatype Renewal = Idle | Renewed(expires: Time) | Stopped

  /** One dispatch, as history records it: the Step with the arm it ran under, how it
      ended, whether it finished the Step, and whether it cancelled over budget the last
      work left in its Flow. */
  datatype Dispatch = Dispatch(step: StepCopy, exit: Exit, finished: bool, lastWork: bool)

  function Finishes(history: seq<Dispatch>): nat {
    if history == [] then 0
    else Finishes(history[..|history| - 1]) + if history[|history| - 1].finished then 1 else 0
  }

  /** The Flows whose last work was cancelled over budget. */
  function Cut(history: seq<Dispatch>): set<Id> { set d | d in history && d.lastWork :: d.step.flowId }

  lemma {:induction false} HistoryConcat(a: seq<Dispatch>, b: seq<Dispatch>)
    ensures Finishes(a + b) == Finishes(a) + Finishes(b) && Cut(a + b) == Cut(a) + Cut(b)
    decreases |b|
  {
    if b == [] {
      assert a + b == a;
    } else {
      assert (a + b)[..|a + b| - 1] == a + b[..|b| - 1];
      HistoryConcat(a, b[..|b| - 1]);
      assert forall d :: d in a + b <==> d in a || d in b;
    }
  }

  class Scheduler {
    /** Every dispatch so far; only `DispatchStep` adds to it. */
    ghost var history: seq<Dispatch>
    const svc: Service
    const leases: MemoryLease
    const nodeId: string
    /** Whose Steps it polls; everybody's when empty. */
    const tenant: string
    const ttl: nat
    const hasSelector: bool
    const maxRetries: nat
    /** Executors that label side effects with their own Step, or not at all. */
    const honest: bool

    constructor (
      svc: Service, leases: MemoryLease, nodeId: string, tenant: string, ttl: nat, hasSelector: bool, maxRetries: int,
      honest: bool)
      ensures this.svc == svc && this.leases == leases && this.ttl == ttl && this.tenant == tenant && history == []
      ensures this.maxRetries == (if maxRetries < 0 then 0 else maxRetries) && this.honest == honest
    {
      this.svc, this.leases, this.nodeId, this.tenant, this.ttl := svc, leases, nodeId, tenant, ttl;
      history := [];
      this.hasSelector, this.maxRetries, this.honest := hasSelector, if maxRetries < 0 then 0 else maxRetries, honest;
    }

    /** Everything but the shape of the hierarchy. */
    ghost predicate Sound()
      reads svc.repo, leases
    {
      && Accounts(svc.repo.View()) && Linked(svc.repo.View()) && Lease.Valid(leases.View())
      && Mirrored(svc.repo.View(), leases.View(), ttl) && (honest ==> EffectsOwned(svc.repo.View()))
    }

    ghost predicate Ready()
      reads svc.repo, leases
    {
      Sound() && Shape(svc.repo.View())
    }

    /** Nobody else holds the step: at most a timer has dropped the record. */
    ghost predicate Ours(h: Handle)
      reads leases
    {
      h.stepId in leases.holders ==> leases.holders[h.stepId] == h.ticket
    }

    method Release(h: Handle)
      requires Lease.Valid(leases.View()) && Mirrored(svc.repo.View(), leases.View(), ttl)
      modifies leases
      ensures Lease.Valid(leases.View()) && Mirrored(svc.repo.View(), leases.View(), ttl)
      ensures GrantsExtend(old(leases.View()), leases.View())
      ensures old(Ours(h)) ==> h.stepId !in leases.holders
      ensures Fewer(old(leases.View()), leases.View())
    {
      assert h.stepId in leases.holders ==> Lease.HolderOk(leases.View(), h.stepId);
      var now := leases.Now();
      LettingGoExtends(svc.repo.View(), leases.View(), Lease.Release(leases.View(), h.stepId, h.ticket, now), ttl);
      leases.Release(h, now);
    }

    method TimerFires(s: Id)
      requires Sound()
      modifies leases
      ensures Sound() && GrantsExtend(old(leases.View()), leases.View())
      ensures leases.holders == old(leases.holders) || leases.holders == old(leases.holders) - {s}
      ensures Fewer(old(leases.View()), leases.View())
    {
      var now := leases.Now();
      LettingGoExtends(svc.repo.View(), leases.View(), Lease.Expire(leases.View(), s, now), ttl);
      var _ := leases.Expire(s, now);
    }

    method KeepaliveRound(h: Handle) returns (after: Renewal)
      requires Sound()
      modifies leases, h`expiresAt
      ensures Sound() && GrantsExtend(old(leases.View()), leases.View()) && leases.holders == old(leases.holders)
      ensures leases.closed == old(leases.closed)
      ensures after.Renewed? ==>
              HasGrant(leases.View(), h.stepId) && after.expires <= LastExpiry(leases.View(), h.stepId) &&
              after.expires == leases.clock + ttl
      ensures after.Stopped? ==>
                !old(Lease.Current(leases.View(), h.stepId, h.ticket)) ||
                old(leases.grants)[h.ticket].expiresAt < leases.clock
    {
      var t1 := leases.Now();
      ghost var was := leases.View();
      var t2 := leases.Now();
      if t2 < t1 { t2 := t1; }
      KeepaliveExtends(svc.repo.View(), was, h.stepId, h.ticket, ttl, t1, t2);
      assert h.stepId in was.holders ==> Lease.HolderOk(was, h.stepId);
      var err := leases.Keepalive(h, ttl, t1, t2);
      after := if err.Granted? then Renewed(h.expiresAt) else Stopped;
    }

    method MirrorRenewal(step: StepCopy, expires: Time)
      requires Sound() && step.id < |svc.repo.steps|
      requires HasGrant(leases.View(), step.id) && expires <= LastExpiry(leases.View(), step.id)
      modifies svc.repo
      ensures Sound() && RenewedOnly(old(svc.repo.View()), svc.repo.View(), step.id)
      ensures old(svc.repo.faults) <= svc.repo.faults
    {
      ghost var was := svc.repo.View();
      var _ := svc.repo.T3LeaseRenewal(step.id, expires);
      assert RenewedOnly(was, svc.repo.View(), step.id) by {
        assert svc.repo.View().steps ==
            was.steps[step.id := was.steps[step.id].(leaseExpires := svc.repo.View().steps[step.id].leaseExpires)];
      }
      RenewalChangesNothingElse(was, svc.repo.View(), step.id);
      assert MirrorOk(was.steps[step.id], leases.View(), step.id);
      RowChangeKeepsMirror(was, svc.repo.View(), leases.View(), ttl, step.id);
    }

    /** The keepalive goroutine and the lease timers, between two actions of a
        dispatch: any number of rounds, each renewing the lease and then mirroring it. */
    method Meanwhile(h: Handle, step: StepCopy, renewal: Renewal) returns (after: Renewal)
      requires Sound() && step.id == h.stepId && step.id < |svc.repo.steps|
      requires renewal.Renewed? ==>
               HasGrant(leases.View(), step.id) && renewal.expires <= LastExpiry(leases.View(), step.id)
      modifies svc.repo, leases, h`expiresAt
      ensures Sound() && RenewedOnly(old(svc.repo.View()), svc.repo.View(), step.id)
      ensures after.Renewed? ==> HasGrant(leases.View(), step.id) && after.expires <= LastExpiry(leases.View(), step.id)
      ensures old(svc.repo.faults) <= svc.repo.faults
      ensures Fewer(old(leases.View()), leases.View()) && (old(Ours(h)) ==> Ours(h))
      ensures old(Ready()) ==> Ready()
      ensures old(Progress(svc.repo.View())) ==> Progress(svc.repo.View())
    {
      hide Shape, Accounts, Progress, Mirrored, EffectsOwned, Lease.Valid, FlowDone, RunDone, MirrorOk, Linked;
      after := renewal;
      var rounds: int := *;
      assert RenewedOnly(svc.repo.View(), svc.repo.View(), step.id);
      while rounds > 0
        invariant Sound() && RenewedOnly(old(svc.repo.View()), svc.repo.View(), step.id)
        invariant after.Renewed? ==>
                  HasGrant(leases.View(), step.id) && after.expires <= LastExpiry(leases.View(), step.id)
        invariant old(svc.repo.faults) <= svc.repo.faults
        invariant Fewer(old(leases.View()), leases.View()) && (old(Ours(h)) ==> Ours(h))
      {
        rounds := rounds - 1;
        var timer: bool := *;
        if timer {
          var s: Id := *;
          TimerFires(s);
        } else if after.Idle? {
          after := KeepaliveRound(h);
        } else if after.Renewed? {
          ghost var mid := svc.repo.View();
          MirrorRenewal(step, after.expires);
          RenewalsCompose(old(svc.repo.View()), mid, svc.repo.View(), step.id);
          after := Idle;
        }
      }
      RenewalChangesNothingElse(old(svc.repo.View()), svc.repo.View(), step.id);
    }

    // ---- finalization, failure and retry ----

    /** TryFinalizeFlow as the scheduler sees it. */
    method FinalizeFlow(step: StepCopy) returns (done: bool)
      requires Ready() && Matches(svc.repo.View(), step)
      modifies svc.repo
      ensures Ready() && svc.repo.faults >= old(svc.repo.faults)
      ensures svc.repo.View() == old(svc.repo.View()).(flows := svc.repo.flows)
      ensures |svc.repo.flows| == |old(svc.repo.flows)|
      ensures forall f | 0 <= f < |svc.repo.flows| && f != step.flowId :: svc.repo.flows[f] == old(svc.repo.flows)[f]
      ensures svc.repo.flows[step.flowId].runId == old(svc.repo.flows)[step.flowId].runId
      ensures !done ==> svc.repo.flows == old(svc.repo.flows)
      ensures old(Progress(svc.repo.View())) ==> Progress(svc.repo.View())
      ensures old(Progress(svc.repo.View())) && svc.repo.faults == old(svc.repo.faults) ==>
              FlowDone(svc.repo.View(), step.flowId)
    {
      hide Shape, Accounts, Progress, Mirrored, EffectsOwned, LeavesTerminal, Lease.Valid;
      ghost var was := svc.repo.View();
      if Progress(was) { VerdictIsNeverRefused(was); }
      var err;
      done, err := svc.TryFinalizeFlow(step.flowId);
      StepsDecideLeaves(was, svc.repo.View(), step.flowId);
      StepsSettleMirror(was, svc.repo.View());
    }

    method FinalizeRun(step: StepCopy)
      requires Ready() && Matches(svc.repo.View(), step)
      modifies svc.repo
      ensures Ready() && svc.repo.faults >= old(svc.repo.faults)
      ensures svc.repo.View() == old(svc.repo.View()).(runs := svc.repo.runs)
      ensures |svc.repo.runs| == |old(svc.repo.runs)|
      ensures forall r | 0 <= r < |svc.repo.runs| :: svc.repo.runs[r].tokenBudget == old(svc.repo.runs)[r].tokenBudget
      ensures forall r | 0 <= r < |svc.repo.runs| && r != step.runId :: svc.repo.runs[r] == old(svc.repo.runs)[r]
      ensures old(Progress(svc.repo.View())) ==> Progress(svc.repo.View())
      ensures old(Progress(svc.repo.View())) && svc.repo.faults == old(svc.repo.faults) ==>
              RunDone(svc.repo.View(), step.runId)
    {
      hide Shape, Accounts, Progress, Mirrored, EffectsOwned, FlowsTerminal, Lease.Valid;
      ghost var was := svc.repo.View();
      if Progress(was) { VerdictIsNeverRefused(was); }
      var _, _ := svc.TryFinalizeRun(step.runId);
      StepsSettleMirror(was, svc.repo.View());
      assert forall f :: FlowIn(was, step.runId, f) <==> FlowIn(svc.repo.View(), step.runId, f);
      SameFlows(was, svc.repo.View(), step.runId);
    }

    method PropagateTerminal(step: StepCopy)
      requires Ready() && Matches(svc.repo.View(), step)
      modifies svc.repo
      ensures Ready() && svc.repo.faults >= old(svc.repo.faults)
      ensures svc.repo.View() == old(svc.repo.View()).(flows := svc.repo.flows, runs := svc.repo.runs)
      ensures FramedParents(old(svc.repo.View()), svc.repo.View(), step)
      ensures old(Progress(svc.repo.View())) ==> Progress(svc.repo.View())
      ensures old(Progress(svc.repo.View())) && svc.repo.faults == old(svc.repo.faults) ==>
                Settles(old(svc.repo.View()), svc.repo.View(), step)
    {
      var done := FinalizeFlow(step);
      if !done { return; }
      ghost var mid := svc.repo.View();
      FinalizeRun(step);
      StepsDecideLeaves(mid, svc.repo.View(), step.flowId);
    }

    /** Mirror and side effects depend on the steps alone. */
    lemma StepsSettleMirror(a: Tables, b: Tables)
      requires a.steps == b.steps && a.effects == b.effects
      ensures Mirrored(a, leases.View(), ttl) == Mirrored(b, leases.View(), ttl)
      ensures EffectsOwned(a) == EffectsOwned(b)
    {
    }

    // ---- completion, failure and retry ----

    /** T2 as the scheduler sees it, on a running Step. */
    method CompleteStep(step: StepCopy, c: Completion) returns (err: Error)
      requires Ready() && Matches(svc.repo.View(), step) && svc.repo.steps[step.id].state.StepRunning?
      requires c.stepId == step.id
      requires honest ==>
               forall i | 0 <= i < |c.effects| :: c.effects[i].stepId == None || c.effects[i].stepId == Some(step.id)
      modifies svc.repo
      ensures Ready()
      ensures svc.repo.faults == if err.Fault? then old(svc.repo.faults) + 1 else old(svc.repo.faults)
      ensures !err.Ok? ==> svc.repo.View() == old(svc.repo.View())
      ensures err.Ok? ==>
                Only(old(svc.repo.View()), svc.repo.View(), step.id) && svc.repo.flows == old(svc.repo.flows) &&
                OtherRunsSame(old(svc.repo.View()), svc.repo.View(), step) &&
                svc.repo.steps[step.id] == CompletedRow(old(svc.repo.steps)[step.id], c) && Completed(c.finalState) &&
                svc.repo.effects == InsertEffects(old(svc.repo.effects), c.effects, step.id)
      ensures !err.Fault? ==>
                (err.Ok? <==>
                   Completed(c.finalState) && OwnersExist(old(svc.repo.View()), c.effects, step.id) &&
                   (old(svc.repo.runs)[step.runId].tokenBudget == 0 ||
                   c.tokensUsed <= old(svc.repo.runs)[step.runId].tokenBudget))
      ensures old(Progress(svc.repo.View())) ==> Progress(svc.repo.View())
    {
      hide Shape, Accounts, Progress, Mirrored, EffectsOwned, Lease.Valid, FlowDone, RunDone, MirrorOk;
      ghost var was := svc.repo.View();
      T2CommitsIff(was, c);
      err := svc.repo.T2StepComplete(c);
      if err.Ok? {
        CompletionKeepsSound(was, svc.repo.View(), c);
      }
    }

    lemma CompletionKeepsSound(a: Tables, b: Tables, c: Completion)
      requires Linked(a) && T2(a, c) == Outcome(b, Ok) && a.steps[c.stepId].state.StepRunning?
      requires honest ==>
               forall i | 0 <= i < |c.effects| :: c.effects[i].stepId == None || c.effects[i].stepId == Some(c.stepId)
      ensures Only(a, b, c.stepId) && b.flows == a.flows && b.steps[c.stepId] == CompletedRow(a.steps[c.stepId], c)
      ensures Linked(b)
      ensures Mirrored(a, leases.View(), ttl) ==> Mirrored(b, leases.View(), ttl)
      ensures honest && EffectsOwned(a) ==> EffectsOwned(b)
      ensures Progress(a) ==> Progress(b)
    {
      if Mirrored(a, leases.View(), ttl) { RowChangeKeepsMirror(a, b, leases.View(), ttl, c.stepId); }
      if honest && EffectsOwned(a) { T2OwnsItsEffectsIff(a, c); }
      if Progress(a) { RowChangeKeepsProgress(a, b, c.stepId); }
    }

    /** A retry row, when the policy asks for one and the insert succeeds. The shape
        survives exactly when the parent really has failed. */
    method EnqueueRetryIfApproved(step: StepCopy, reason: string) returns (created: bool)
      requires Ready() && Matches(svc.repo.View(), step)
      requires IsLeaf(svc.repo.View(), step.id) && !FlowTerminal(svc.repo.flows[step.flowId].state)
      modifies svc.repo
      ensures Sound() && |svc.repo.steps| >= |old(svc.repo.steps)|
      ensures Shape(svc.repo.View()) <==> !created || svc.repo.steps[step.id].state.StepFailed?
      ensures created && !svc.repo.steps[step.id].state.StepFailed? ==> !RetryPaths(svc.repo.View())
      ensures created ==>
                step.retryCount < maxRetries && IsTransient(reason) && svc.repo.faults == old(svc.repo.faults)
      ensures svc.repo.faults == old(svc.repo.faults) ==>
                (created <==> step.retryCount < maxRetries && IsTransient(reason))
      ensures svc.repo.faults >= old(svc.repo.faults)
      ensures svc.repo.View() == if created then InsertRetry(old(svc.repo.View()), step).db else old(svc.repo.View())
      ensures old(Progress(svc.repo.View())) ==> Progress(svc.repo.View())
    {
      hide Shape, Accounts, Progress, Mirrored, EffectsOwned, RetryPaths, IsLeaf, Lease.Valid, IsTransient,
        ShouldRetry;
      RetriedIffTransient(maxRetries, step.retryCount, reason);
      if !ShouldRetry(maxRetries, step.retryCount, reason) {
        return false;
      }
      ghost var was := svc.repo.View();
      var err := svc.repo.InsertRetryStep(step);
      if !err.Ok? {
        return false;
      }
      RetryKeepsSound(was, step);
      return true;
    }

    lemma RetryKeepsSound(a: Tables, step: StepCopy)
      requires Safe(a) && Matches(a, step) && IsLeaf(a, step.id) && !FlowTerminal(a.flows[step.flowId].state)
      ensures var b := InsertRetry(a, step).db;
              && Accounts(b) && Linked(b) && b.steps[step.id] == a.steps[step.id]
              && (Mirrored(a, leases.View(), ttl) ==> Mirrored(b, leases.View(), ttl))
              && (EffectsOwned(a) ==> EffectsOwned(b))
              && (Shape(b) <==> a.steps[step.id].state.StepFailed?)
              && (!a.steps[step.id].state.StepFailed? ==> !RetryPaths(b))
              && (Progress(a) ==> Progress(b))
    {
      var b := InsertRetry(a, step).db;
      FreeStepKeepsAccounts(a, RetryRow(step));
      assert forall s | 0 <= s < |a.steps| :: b.steps[s] == a.steps[s];
      FreshRowKeepsMirror(a, RetryRow(step));
      if Progress(a) { RetryKeepsProgress(a, step); }
      if a.steps[step.id].state.StepFailed? {
        InsertRetryKeepsSafe(a, step);
      } else {
        RetryOfLiveStepBreaksPaths(a, step);
      }
    }

    /** What both failing exits share. T2's error is dropped: when it faults and a
        retry is still created, the Step stays running beneath its own retry. */
    method HandleExecutorFailure(step: StepCopy, reason: string) returns (retried: bool, swallowed: bool)
      requires Ready() && Matches(svc.repo.View(), step) && svc.repo.steps[step.id].state.StepRunning?
      modifies svc.repo
      ensures Sound() && svc.repo.faults >= old(svc.repo.faults) && |svc.repo.steps| >= |old(svc.repo.steps)|
      ensures Ends(old(svc.repo.View()), svc.repo.View(), step, retried, swallowed,
              svc.repo.faults == old(svc.repo.faults), true)
      ensures svc.repo.steps[step.id].state.StepFailed? ||
              (svc.repo.steps[step.id].state.StepRunning? && svc.repo.faults > old(svc.repo.faults))
      ensures RetriedAsDue(step, ExecutorFailed(reason, retried), svc.repo.faults == old(svc.repo.faults), maxRetries)
      ensures retried && svc.repo.steps[step.id].state.StepRunning? ==> swallowed
      ensures svc.repo.effects == old(svc.repo.effects)
      ensures svc.repo.steps[step.id].state.StepFailed? ==>
                svc.repo.steps[step.id].tokensUsed == 0 && svc.repo.steps[step.id].costUsd == 0.0 &&
                svc.repo.steps[step.id].failureReason == reason
    {
      hide Shape, Accounts, Progress, Mirrored, EffectsOwned, RetryPaths, IsLeaf, Lease.Valid, Linked, Ends, Within,
        FlowDone, RunDone, IsTransient;
      ghost var was, calm := svc.repo.View(), svc.repo.faults;
      LiveStepHasLiveFlow(was, step);
      var err := CompleteStep(step, Completion(step.id, StepFailed, 0, 0.0, reason, []));
      ghost var mid := svc.repo.View();
      CompletionStaysWithin(was, mid, step);
      LiveStepStaysLeaf(was, mid, step);
      retried := EnqueueRetryIfApproved(step, reason);
      swallowed := retried && !err.Ok?;
      if retried {
        RetriedEnds(was, mid, step, swallowed, svc.repo.faults == calm);
        return;
      }
      PropagateTerminal(step);
      PropagatedEnds(was, mid, svc.repo.View(), step, svc.repo.faults == calm);
    }

    lemma LiveStepHasLiveFlow(a: Tables, step: StepCopy)
      requires Shape(a) && Matches(a, step) && !StepTerminal(a.steps[step.id].state)
      ensures step.flowId < |a.flows| && step.runId < |a.runs| && !FlowTerminal(a.flows[step.flowId].state)
      ensures a.flows[step.flowId].runId == step.runId
      ensures IsLeaf(a, step.id)
    {
      if FlowTerminal(a.flows[step.flowId].state) { TerminalFlowIsDone(a, step.id); }
      LiveRowIsLeaf(a, step.id);
    }

    lemma CompletionStaysWithin(a: Tables, b: Tables, step: StepCopy)
      requires Matches(a, step)
      requires b == a || (Only(a, b, step.id) && b.flows == a.flows && OtherRunsSame(a, b, step))
      ensures Within(a, b, step) && Matches(b, step)
    {
    }

    lemma LiveStepStaysLeaf(a: Tables, b: Tables, step: StepCopy)
      requires Matches(a, step) && Within(a, b, step) && IsLeaf(a, step.id)
      ensures IsLeaf(b, step.id)
    {
      forall r | 0 <= r < |b.steps| ensures b.steps[r].retryOf != Some(step.id) {
        assert a.steps[r].retryOf == b.steps[r].retryOf;
      }
    }

    lemma RetriedEnds(a: Tables, b: Tables, step: StepCopy, swallowed: bool, quiet: bool)
      requires Within(a, b, step) && Shape(b) && InsertRetry(b, step).err.Ok? && b.flows == a.flows
      requires var c := InsertRetry(b, step).db;
               (Shape(c) <==> !swallowed) && (swallowed ==> !quiet && !RetryPaths(c)) &&
               (Progress(a) && quiet ==> Progress(c))
      ensures Ends(a, InsertRetry(b, step).db, step, true, swallowed, quiet, true)
    {
      RetryKeepsFlowOpen(b, step);
      assert forall s | 0 <= s < |b.steps| :: InsertRetry(b, step).db.steps[s] == b.steps[s];
    }

    lemma PropagatedEnds(a: Tables, b: Tables, c: Tables, step: StepCopy, quiet: bool)
      requires Within(a, b, step) && b.flows == a.flows && Shape(b) && Shape(c) && Matches(b, step)
      requires c == b.(flows := c.flows, runs := c.runs) && FramedParents(b, c, step)
      requires Progress(a) && quiet ==> Progress(c) && Settles(b, c, step)
      ensures Ends(a, c, step, false, false, quiet, true)
    {
      SettledEnds(a, b, c, step, quiet);
    }

    // ---- the ledger calls of the pipeline, as the scheduler sees them ----

    /** A row in this state is at home in a ledger that makes progress. */
    predicate MayStand(db: Tables, step: StepCopy, state: StepState) {
      && step.flowId < |db.flows| && !state.StepExpired?
      && (state.StepRunning? || Completed(state) ==> !Waiting(db.flows[step.flowId].state))
    }

    /** A legal move of one row, touching nothing else but its Run's amounts. */
    lemma RowMoveKeepsReady(a: Tables, b: Tables, step: StepCopy)
      requires Matches(a, step) && Only(a, b, step.id) && b.flows == a.flows && b.effects == a.effects &&
               OtherRunsSame(a, b, step)
      requires forall r | 0 <= r < |a.runs| :: b.runs[r].state == a.runs[r].state
      requires ValidStep(a.steps[step.id].state, b.steps[step.id].state) &&
               MirrorOk(b.steps[step.id], leases.View(), step.id)
      ensures Within(a, b, step) && Matches(b, step)
      ensures Mirrored(a, leases.View(), ttl) ==> Mirrored(b, leases.View(), ttl)
      ensures EffectsOwned(a) ==> EffectsOwned(b)
      ensures Progress(a) && MayStand(a, step, b.steps[step.id].state) ==> Progress(b)
    {
      if Mirrored(a, leases.View(), ttl) { RowChangeKeepsMirror(a, b, leases.View(), ttl, step.id); }
      if EffectsOwned(a) { RowChangeKeepsEffects(a, b, step.id); }
      if Progress(a) && MayStand(a, step, b.steps[step.id].state) { RowChangeKeepsProgress(a, b, step.id); }
    }

    method CancelStep(step: StepCopy)
      requires Ready() && Matches(svc.repo.View(), step)
      modifies svc.repo
      ensures Ready() && svc.repo.faults >= old(svc.repo.faults)
      ensures Within(old(svc.repo.View()), svc.repo.View(), step) && Matches(svc.repo.View(), step)
      ensures svc.repo.flows == old(svc.repo.flows) && svc.repo.runs == old(svc.repo.runs)
      ensures svc.repo.effects == old(svc.repo.effects)
      ensures svc.repo.steps[step.id].state == old(svc.repo.steps)[step.id].state ||
              svc.repo.steps[step.id].state.StepCancelled?
      ensures svc.repo.faults == old(svc.repo.faults) && old(svc.repo.steps)[step.id].state.StepPending? ==>
                svc.repo.steps[step.id].state.StepCancelled?
      ensures old(Progress(svc.repo.View())) ==> Progress(svc.repo.View())
    {
      hide Shape, Accounts, Progress, Mirrored, EffectsOwned, Lease.Valid, FlowDone, RunDone;
      ghost var was := svc.repo.View();
      var err := svc.CancelStep(step.id);
      if err.Ok? {
        assert Only(was, svc.repo.View(), step.id);
        RowMoveKeepsReady(was, svc.repo.View(), step);
      }
    }

    method MirrorLease(step: StepCopy, h: Handle, estimate: int) returns (err: Error)
      requires Ready() && Matches(svc.repo.View(), step)
      requires HasGrant(leases.View(), step.id) && h.expiresAt <= LastExpiry(leases.View(), step.id)
      modifies svc.repo
      ensures svc.repo.effects == old(svc.repo.effects)
      ensures Ready() && Matches(svc.repo.View(), step)
      ensures svc.repo.faults == if err.Fault? then old(svc.repo.faults) + 1 else old(svc.repo.faults)
      ensures !err.Ok? ==> svc.repo.View() == old(svc.repo.View())
      ensures err.Ok? ==>
                Within(old(svc.repo.View()), svc.repo.View(), step) && svc.repo.flows == old(svc.repo.flows) &&
                svc.repo.steps[step.id] == LeasedRow(old(svc.repo.steps)[step.id], nodeId, h.expiresAt)
      ensures !err.Fault? ==> (err.FsmRejected? <==> !ValidStep(old(svc.repo.steps)[step.id].state, StepLeased))
      ensures !err.Fault? && !err.FsmRejected? ==>
                (err.BudgetExhausted? <==> estimate > 0 && CannotPay(old(svc.repo.View()), step, estimate)) &&
                (err.BudgetExhausted? || err.Ok?)
      ensures old(Progress(svc.repo.View())) ==> Progress(svc.repo.View())
    {
      hide Shape, Accounts, Progress, Mirrored, EffectsOwned, Lease.Valid, FlowDone, RunDone;
      ghost var was := svc.repo.View();
      err := svc.repo.T1LeaseMirror(LeaseMirror(step.id, step.runId, nodeId, h.expiresAt, estimate));
      if err.Ok? {
        assert Only(was, svc.repo.View(), step.id);
        RowMoveKeepsReady(was, svc.repo.View(), step);
      }
    }

    method SetArm(step: StepCopy, agentType: string, provider: string) returns (err: Error)
      requires Ready() && Matches(svc.repo.View(), step)
      modifies svc.repo
      ensures svc.repo.effects == old(svc.repo.effects)
      ensures Ready() && Matches(svc.repo.View(), step)
      ensures svc.repo.faults == if err.Fault? then old(svc.repo.faults) + 1 else old(svc.repo.faults)
      ensures svc.repo.flows == old(svc.repo.flows) && svc.repo.runs == old(svc.repo.runs)
      ensures Within(old(svc.repo.View()), svc.repo.View(), step)
      ensures svc.repo.steps[step.id].state == old(svc.repo.steps)[step.id].state
      ensures !err.Ok? ==> svc.repo.View() == old(svc.repo.View())
      ensures err.Ok? ==>
                svc.repo.steps[step.id].state.StepPending? &&
                svc.repo.steps[step.id].agentType == Coalesce(agentType, old(svc.repo.steps)[step.id].agentType) &&
                svc.repo.steps[step.id].provider == Coalesce(provider, old(svc.repo.steps)[step.id].provider)
      ensures !err.Fault? ==> (err.Ok? <==> old(svc.repo.steps)[step.id].state.StepPending?)
      ensures old(Progress(svc.repo.View())) ==> Progress(svc.repo.View())
    {
      hide Shape, Accounts, Progress, Mirrored, EffectsOwned, Lease.Valid, FlowDone, RunDone;
      ghost var was := svc.repo.View();
      err := svc.repo.UpdateStepArm(step.id, agentType, provider);
      if err.Ok? {
        assert Only(was, svc.repo.View(), step.id);
        RowMoveKeepsReady(was, svc.repo.View(), step);
      }
    }

    method MarkRunning(step: StepCopy) returns (err: Error)
      requires Ready() && Matches(svc.repo.View(), step)
      requires svc.repo.steps[step.id].state.StepLeased?
      modifies svc.repo
      ensures svc.repo.effects == old(svc.repo.effects)
      ensures Ready() && Matches(svc.repo.View(), step)
      ensures svc.repo.faults == if err.Fault? then old(svc.repo.faults) + 1 else old(svc.repo.faults)
      ensures err.Ok? || (err.Fault? && svc.repo.View() == old(svc.repo.View()))
      ensures svc.repo.flows == old(svc.repo.flows) && svc.repo.runs == old(svc.repo.runs)
      ensures Within(old(svc.repo.View()), svc.repo.View(), step)
      ensures err.Ok? ==> svc.repo.steps[step.id].state.StepRunning?
      ensures old(Progress(svc.repo.View())) && !Waiting(svc.repo.flows[step.flowId].state) ==>
              Progress(svc.repo.View())
    {
      hide Shape, Accounts, Progress, Mirrored, EffectsOwned, Lease.Valid, FlowDone, RunDone;
      ghost var was := svc.repo.View();
      assert MirrorOk(was.steps[step.id], leases.View(), step.id) by { HeldRowIsMirrored(was, step.id); }
      err := svc.repo.MarkStepRunning(step.id);
      if err.Ok? {
        assert Only(was, svc.repo.View(), step.id);
        RowMoveKeepsReady(was, svc.repo.View(), step);
      }
    }

    lemma HeldRowIsMirrored(a: Tables, s: Id)
      requires Mirrored(a, leases.View(), ttl) && s < |a.steps|
      ensures MirrorOk(a.steps[s], leases.View(), s)
    {
    }

    /** Drive the Run, then the Flow, toward running; errors are only logged. */
    method EnsureParentsRunning(step: StepCopy)
      requires Ready() && Matches(svc.repo.View(), step)
      modifies svc.repo
      ensures svc.repo.effects == old(svc.repo.effects)
      ensures Ready() && Matches(svc.repo.View(), step) && svc.repo.faults >= old(svc.repo.faults)
      ensures Within(old(svc.repo.View()), svc.repo.View(), step) && svc.repo.steps == old(svc.repo.steps)
      ensures FlowTerminal(svc.repo.flows[step.flowId].state) ==>
              svc.repo.flows[step.flowId] == old(svc.repo.flows)[step.flowId]
      ensures svc.repo.faults == old(svc.repo.faults) ==> !Waiting(svc.repo.flows[step.flowId].state)
      ensures svc.repo.faults == old(svc.repo.faults) && old(Progress(svc.repo.View())) ==> Progress(svc.repo.View())
    {
      hide Shape, Accounts, Progress, Mirrored, EffectsOwned, Lease.Valid, FlowDone, RunDone, MirrorOk;
      ghost var was := svc.repo.View();
      var _ := svc.EnsureRunRunning(step.runId);
      StepsSettleMirror(was, svc.repo.View());
      ghost var mid := svc.repo.View();
      var _ := svc.EnsureFlowRunning(step.flowId, nodeId);
      StepsSettleMirror(mid, svc.repo.View());
    }

    // ---- the pipeline ----

    /** The Step cannot be routed: it is cancelled, not failed. */
    method FailUnroutable(step: StepCopy, h: Handle)
      requires Ready() && Matches(svc.repo.View(), step) && h.stepId == step.id && Ours(h)
      modifies svc.repo, leases
      ensures Sound() && svc.repo.faults >= old(svc.repo.faults) && Fewer(old(leases.View()), leases.View())
      ensures Dispatched(old(svc.repo.View()), svc.repo.View(), step, Unroutable, false,
              svc.repo.faults == old(svc.repo.faults), maxRetries)
      ensures step.id !in leases.holders
    {
      hide Shape, Accounts, Progress, Mirrored, EffectsOwned, Lease.Valid, FlowDone, RunDone, MirrorOk, Ends, Settles;
      ghost var was, calm := svc.repo.View(), svc.repo.faults;
      CancelStep(step);
      ghost var mid := svc.repo.View();
      Release(h);
      PropagateTerminal(step);
      PropagatedEnds(was, mid, svc.repo.View(), step, svc.repo.faults == calm);
    }

    /** Any executor at all; an honest one labels its side effects with its own Step. */
    method Execute(step: StepCopy) returns (failed: bool, reason: string, report: ExecutionResult)
      ensures honest ==> OwnEffects(report, step.id)
    {
      failed, reason, report := *, *, *;
      if honest && !OwnEffects(report, step.id) {
        report := report.(sideEffects := []);
      }
    }

    /** From a running Step to the end of the dispatch. */
    method RunStep(step: StepCopy, h: Handle) returns (exit: Exit, swallowed: bool)
      requires Ready() && Matches(svc.repo.View(), step) && svc.repo.steps[step.id].state.StepRunning?
      requires h.stepId == step.id && Ours(h)
      modifies svc.repo, leases, h`expiresAt
      ensures Sound() && svc.repo.faults >= old(svc.repo.faults) && Fewer(old(leases.View()), leases.View())
      ensures Dispatched(old(svc.repo.View()), svc.repo.View(), step, exit, swallowed,
              svc.repo.faults == old(svc.repo.faults), maxRetries)
      ensures exit.ExecutorFailed? || exit.CommitFailed? || exit.Committed?
      ensures step.id !in leases.holders
    {
      hide Shape, Accounts, Progress, Mirrored, EffectsOwned, Lease.Valid, FlowDone, RunDone, MirrorOk, Linked, Ends,
        Within, Settles, Dispatched, RenewedOnly, StateName, IsTransient, ShouldRetry, Lease.Current;
      ghost var was, calm := svc.repo.View(), svc.repo.faults;
      var renewal := Meanwhile(h, step, Idle);
      ghost var mid, midCalm := svc.repo.View(), svc.repo.faults;
      RenewalKeepsStep(was, mid, step);
      var failed, reason, report := Execute(step);
      if failed || !Completed(report.finalState) {
        if !failed { reason := "executor returned non-terminal final_state: " + StateName(report.finalState); }
        exit, swallowed := FailExecution(step, h, renewal, reason);
      } else {
        exit, swallowed := Commit(step, h, renewal, report);
      }
      RenewalThenDispatched(was, mid, svc.repo.View(), step, exit, swallowed,
                            svc.repo.faults == midCalm, svc.repo.faults == calm);
    }

    lemma RenewalKeepsStep(a: Tables, b: Tables, step: StepCopy)
      requires RenewedOnly(a, b, step.id) && Matches(a, step)
      ensures Matches(b, step) && b.steps[step.id].state == a.steps[step.id].state
    {
    }

    lemma RenewalThenDispatched(
      a: Tables, b: Tables, c: Tables, step: StepCopy, exit: Exit, swallowed: bool, calm: bool, quiet: bool)
      requires RenewedOnly(a, b, step.id) && Matches(a, step) && exit.Started()
      requires Dispatched(b, c, step, exit, swallowed, calm, maxRetries) && (quiet ==> calm)
      requires Progress(a) ==> Progress(b)
      ensures Dispatched(a, c, step, exit, swallowed, quiet, maxRetries)
    {
      RenewalIsWithin(a, b, step);
      LaterDispatched(a, b, c, step, exit, swallowed, calm, quiet, maxRetries);
    }

    /** The executor gave up, or reported nonsense. */
    method FailExecution(step: StepCopy, h: Handle, renewal: Renewal, reason: string)
      returns (exit: Exit, swallowed: bool)
      requires Ready() && Matches(svc.repo.View(), step) && svc.repo.steps[step.id].state.StepRunning?
      requires h.stepId == step.id && Ours(h) && Renewing(renewal, step.id)
      modifies svc.repo, leases, h`expiresAt
      ensures Sound() && svc.repo.faults >= old(svc.repo.faults) && Fewer(old(leases.View()), leases.View())
      ensures Dispatched(old(svc.repo.View()), svc.repo.View(), step, exit, swallowed,
              svc.repo.faults == old(svc.repo.faults), maxRetries)
      ensures exit.ExecutorFailed? && exit.reason == reason && step.id !in leases.holders
    {
      hide Shape, Accounts, Progress, Mirrored, EffectsOwned, Lease.Valid, FlowDone, RunDone, MirrorOk, Linked, Ends,
        Within, Settles;
      ghost var was, calm := svc.repo.View(), svc.repo.faults;
      var retried;
      retried, swallowed := HandleExecutorFailure(step, reason);
      exit := ExecutorFailed(reason, retried);
      WindDown(h, step, renewal, was, exit, swallowed, calm);
    }

    /** The renewal at hand, if any, is no later than the last grant. */
    ghost predicate Renewing(renewal: Renewal, id: Id)
      reads leases
    {
      renewal.Renewed? ==> HasGrant(leases.View(), id) && renewal.expires <= LastExpiry(leases.View(), id)
    }

    /** Release, with the keepalive still ticking before and after. */
    method LetGo(h: Handle, step: StepCopy, renewal: Renewal) returns (after: Renewal)
      requires Sound() && step.id == h.stepId && step.id < |svc.repo.steps| && Ours(h) && Renewing(renewal, step.id)
      modifies svc.repo, leases, h`expiresAt
      ensures Sound() && RenewedOnly(old(svc.repo.View()), svc.repo.View(), step.id) && Renewing(after, step.id)
      ensures old(svc.repo.faults) <= svc.repo.faults && Fewer(old(leases.View()), leases.View())
      ensures step.id !in leases.holders
      ensures old(Ready()) ==> Ready()
      ensures old(Progress(svc.repo.View())) ==> Progress(svc.repo.View())
    {
      hide Shape, Accounts, Progress, Mirrored, EffectsOwned, Lease.Valid, FlowDone, RunDone, MirrorOk, Linked;
      after := Meanwhile(h, step, renewal);
      ghost var mid := svc.repo.View();
      Release(h);
      after := Meanwhile(h, step, after);
      RenewalsCompose(old(svc.repo.View()), mid, svc.repo.View(), step.id);
    }

    method WindDown(
      h: Handle, step: StepCopy, renewal: Renewal, ghost was: Tables, ghost exit: Exit, ghost swallowed: bool,
          ghost calm: nat)
      requires Sound() && step.id == h.stepId && step.id < |svc.repo.steps| && Ours(h) && Renewing(renewal, step.id)
      requires Dispatched(was, svc.repo.View(), step, exit, swallowed, svc.repo.faults == calm, maxRetries)
      requires calm <= svc.repo.faults && !exit.OverBudget?
      modifies svc.repo, leases, h`expiresAt
      ensures Sound() && svc.repo.faults >= old(svc.repo.faults) && Fewer(old(leases.View()), leases.View())
      ensures Dispatched(was, svc.repo.View(), step, exit, swallowed, svc.repo.faults == calm, maxRetries)
      ensures step.id !in leases.holders
    {
      hide Shape, Accounts, Progress, Mirrored, EffectsOwned, Lease.Valid, FlowDone, RunDone, MirrorOk, Linked,
        Dispatched;
      ghost var a, quiet := svc.repo.View(), svc.repo.faults == calm;
      var _ := LetGo(h, step, renewal);
      RenewalDispatched(was, a, svc.repo.View(), step, exit, swallowed, quiet, svc.repo.faults == calm, maxRetries);
    }

    /** T2 with what the executor reported, then release, then retry or finalize. */
    method Commit(step: StepCopy, h: Handle, renewal: Renewal, report: ExecutionResult)
      returns (exit: Exit, swallowed: bool)
      requires Ready() && Matches(svc.repo.View(), step) && svc.repo.steps[step.id].state.StepRunning?
      requires h.stepId == step.id && Ours(h) && Completed(report.finalState) &&
               (honest ==> OwnEffects(report, step.id))
      requires Renewing(renewal, step.id)
      modifies svc.repo, leases, h`expiresAt
      ensures Sound() && svc.repo.faults >= old(svc.repo.faults) && Fewer(old(leases.View()), leases.View())
      ensures Dispatched(old(svc.repo.View()), svc.repo.View(), step, exit, swallowed,
              svc.repo.faults == old(svc.repo.faults), maxRetries)
      ensures (exit.CommitFailed? || exit.Committed?) && exit.report == report
      ensures step.id !in leases.holders
    {
      hide Shape, Accounts, Progress, Mirrored, EffectsOwned, RetryPaths, IsLeaf, Lease.Valid, Linked, Ends, Within,
        Settles;
      ghost var was, calm := svc.repo.View(), svc.repo.faults;
      swallowed := false;
      LiveStepHasLiveFlow(was, step);
      var err := CompleteStep(step,
          Completion(step.id, report.finalState, report.tokensUsed, report.costUsd, report.failureReason,
              report.sideEffects));
      CompletionStaysWithin(was, svc.repo.View(), step);
      LiveStepStaysLeaf(was, svc.repo.View(), step);
      if !err.Ok? {
        exit := CommitFailed(report);
        UnfinishedEnds(was, svc.repo.View(), step, svc.repo.faults == calm);
        WindDown(h, step, renewal, was, exit, swallowed, calm);
        return;
      }
      exit := Settle(step, h, renewal, report, was, calm);
    }

    /** The row and the side effects of a report that has just committed. */
    ghost predicate OnRecord(a: Tables, b: Tables, step: StepCopy, report: ExecutionResult) {
      step.id < |b.steps| && Booked(a, b, step, Committed(report, false))
    }

    /** The Step has committed: give the lease back, then retry or finalize. */
    method Settle(
      step: StepCopy, h: Handle, renewal: Renewal, report: ExecutionResult, ghost was: Tables, ghost calm: nat)
      returns (exit: Exit)
      requires Ready() && Matches(svc.repo.View(), step) && h.stepId == step.id && Ours(h) && Renewing(renewal, step.id)
      requires svc.repo.steps[step.id].state == report.finalState && Completed(report.finalState)
      requires Within(was, svc.repo.View(), step) && svc.repo.flows == was.flows && IsLeaf(svc.repo.View(), step.id)
      requires step.flowId < |was.flows| && !FlowTerminal(was.flows[step.flowId].state)
      requires calm <= svc.repo.faults && (Progress(was) ==> Progress(svc.repo.View()))
      requires svc.repo.faults == calm ==> CanCommit(was, step, report)
      requires OnRecord(was, svc.repo.View(), step, report)
      modifies svc.repo, leases, h`expiresAt
      ensures Sound() && svc.repo.faults >= old(svc.repo.faults) && Fewer(old(leases.View()), leases.View())
      ensures Dispatched(was, svc.repo.View(), step, exit, false, svc.repo.faults == calm, maxRetries)
      ensures exit.Committed? && exit.report == report
      ensures step.id !in leases.holders
    {
      hide Shape, Accounts, Progress, Mirrored, EffectsOwned, RetryPaths, IsLeaf, Lease.Valid, Linked, Ends, Within,
        Settles, Dispatched;
      ghost var done := svc.repo.View();
      var ticking := LetGo(h, step, renewal);
      ghost var mid := svc.repo.View();
      RenewalIsWithin(done, mid, step);
      WithinComposes(was, done, mid, step);
      CompletionStaysWithin(done, mid, step);
      LiveStepStaysLeaf(done, mid, step);
      var retried := RetryOrFinalize(step, report, was, calm);
      exit := Committed(report, retried);
      ghost var after, quiet := svc.repo.View(), svc.repo.faults == calm;
      var _ := Meanwhile(h, step, ticking);
      RenewalDispatched(was, after, svc.repo.View(), step, exit, false, quiet, svc.repo.faults == calm, maxRetries);
    }

    method RetryOrFinalize(step: StepCopy, report: ExecutionResult, ghost was: Tables, ghost calm: nat)
      returns (retried: bool)
      requires Ready() && Matches(svc.repo.View(), step)
      requires svc.repo.steps[step.id].state == report.finalState && Completed(report.finalState)
      requires Within(was, svc.repo.View(), step) && svc.repo.flows == was.flows && IsLeaf(svc.repo.View(), step.id)
      requires step.flowId < |was.flows| && !FlowTerminal(was.flows[step.flowId].state)
      requires calm <= svc.repo.faults && (Progress(was) ==> Progress(svc.repo.View()))
      requires svc.repo.faults == calm ==> CanCommit(was, step, report)
      requires OnRecord(was, svc.repo.View(), step, report)
      modifies svc.repo
      ensures Sound() && svc.repo.faults >= old(svc.repo.faults) && |svc.repo.steps| >= |old(svc.repo.steps)|
      ensures Dispatched(was, svc.repo.View(), step, Committed(report, retried), false, svc.repo.faults == calm,
              maxRetries)
      ensures svc.repo.steps[step.id] == old(svc.repo.steps)[step.id]
      ensures svc.repo.faults == old(svc.repo.faults) ==>
                (retried <==>
                   report.finalState.StepFailed? && step.retryCount < maxRetries && IsTransient(report.failureReason))
    {
      hide Shape, Accounts, Progress, Mirrored, EffectsOwned, RetryPaths, IsLeaf, Lease.Valid, Linked, Ends, Within,
        Settles;
      ghost var mid := svc.repo.View();
      WithinHasStep(was, mid, step);
      retried := false;
      if report.finalState.StepFailed? {
        retried := EnqueueRetryIfApproved(step, report.failureReason);
      }
      if retried {
        RetriedEnds(was, mid, step, false, svc.repo.faults == calm);
      } else {
        PropagateTerminal(step);
        PropagatedEnds(was, mid, svc.repo.View(), step, svc.repo.faults == calm);
      }
    }

    lemma WithinHasStep(a: Tables, b: Tables, step: StepCopy)
      requires Within(a, b, step)
      ensures step.id < |a.steps| == |b.steps|
    {
    }

    /** The instance would not take the Step: it fails without having run, and is not retried. */
    method RefuseAssignment(step: StepCopy, h: Handle) returns (exit: Exit)
      requires Ready() && Matches(svc.repo.View(), step) && svc.repo.steps[step.id].state.StepRunning?
      requires h.stepId == step.id && Ours(h)
      modifies svc.repo, leases
      ensures Sound() && svc.repo.faults >= old(svc.repo.faults) && Fewer(old(leases.View()), leases.View())
      ensures exit.AssignmentRefused?
      ensures Dispatched(old(svc.repo.View()), svc.repo.View(), step, exit, false,
              svc.repo.faults == old(svc.repo.faults), maxRetries)
      ensures step.id !in leases.holders
    {
      hide Shape, Accounts, Progress, Mirrored, EffectsOwned, Lease.Valid, FlowDone, RunDone, MirrorOk, Ends, Settles;
      ghost var was, calm := svc.repo.View(), svc.repo.faults;
      var why: string := *;
      var _ := CompleteStep(step, Completion(step.id, StepFailed, 0, 0.0, "instance refused assignment: " + why, []));
      ghost var mid := svc.repo.View();
      CompletionStaysWithin(was, mid, step);
      Release(h);
      PropagateTerminal(step);
      PropagatedEnds(was, mid, svc.repo.View(), step, svc.repo.faults == calm);
      exit := AssignmentRefused;
    }

    /** Arm selection for a Step submitted without a provider. */
    method SelectArmIfNeeded(step: StepCopy, h: Handle) returns (armed: StepCopy, handled: bool, refused: bool)
      requires Ready() && Matches(svc.repo.View(), step) && h.stepId == step.id && Ours(h)
      modifies svc.repo, leases
      ensures Sound() && svc.repo.faults >= old(svc.repo.faults) && Fewer(old(leases.View()), leases.View())
      ensures armed == step.(agentType := armed.agentType, provider := armed.provider)
      ensures step.provider != "" ==> armed == step && !handled && !refused && svc.repo.View() == old(svc.repo.View())
      ensures handled ==>
                Dispatched(old(svc.repo.View()), svc.repo.View(), armed, Unroutable, false,
                    svc.repo.faults == old(svc.repo.faults), maxRetries)
      ensures !handled ==>
                Ready() && Matches(svc.repo.View(), armed) && Within(old(svc.repo.View()), svc.repo.View(), armed) &&
                svc.repo.flows == old(svc.repo.flows) && svc.repo.runs == old(svc.repo.runs) &&
                svc.repo.effects == old(svc.repo.effects) &&
                svc.repo.steps[step.id].state == old(svc.repo.steps)[step.id].state &&
                (old(Progress(svc.repo.View())) ==> Progress(svc.repo.View()))
      ensures !handled && !refused ==> Ours(h) && leases.View() == old(leases.View())
      ensures !handled && !refused && step.provider == "" && armed.provider != "" ==>
              svc.repo.steps[step.id].provider == armed.provider
      ensures refused && old(svc.repo.steps)[step.id].state.StepPending? ==> svc.repo.faults > old(svc.repo.faults)
      ensures handled || refused ==> step.id !in leases.holders
      ensures !(handled && refused)
    {
      hide Shape, Accounts, Progress, Mirrored, EffectsOwned, Lease.Valid, FlowDone, RunDone, MirrorOk, Ends, Settles,
        Dispatched;
      armed, handled, refused := step, false, false;
      if step.provider != "" {
        return;
      }
      var picked: bool := *;
      if !hasSelector || !picked {
        FailUnroutable(step, h);
        handled := true;
        return;
      }
      var agentType, provider: string := *, *;
      armed := step.(agentType := agentType, provider := provider);
      var err := SetArm(step, agentType, provider);
      if !err.Ok? {
        Release(h);
        refused := true;
      }
    }

    /** One Step, from lease to outcome. */
    method DispatchStep(step: StepCopy) returns (exit: Exit, ghost armed: StepCopy, swallowed: bool)
      requires Ready() && Matches(svc.repo.View(), step)
      modifies svc.repo, leases, this`history
      ensures Sound() && svc.repo.faults >= old(svc.repo.faults) && Fewer(old(leases.View()), leases.View())
      ensures armed == step.(agentType := armed.agentType, provider := armed.provider)
      ensures step.provider != "" ==> armed == step
      ensures Dispatched(old(svc.repo.View()), svc.repo.View(), armed, exit, swallowed,
              svc.repo.faults == old(svc.repo.faults), maxRetries)
      ensures exit.NotAcquired? ==> old(leases.closed) || step.id in old(leases.holders)
      ensures !exit.NotAcquired? ==> !old(leases.closed) && step.id !in leases.holders
      ensures old(svc.repo.steps)[step.id].state.StepPending? && svc.repo.faults == old(svc.repo.faults) ==>
                !exit.ArmRefused? && !exit.MirrorRefused? && !exit.NotStarted?
      ensures step.id < |svc.repo.steps| &&
              history == old(history) + [Dispatch(armed, exit,
                !StepTerminal(old(svc.repo.steps)[step.id].state) && StepTerminal(svc.repo.steps[step.id].state),
                exit.OverBudget? && !OtherWork(old(svc.repo.View()), armed))]
    {
      hide Shape, Accounts, Progress, Mirrored, EffectsOwned, Lease.Valid, FlowDone, RunDone, MirrorOk, Ends, Settles,
        Dispatched, Within, Linked, OtherWork;
      ghost var was, calm := svc.repo.View(), svc.repo.faults;
      armed, swallowed := step, false;
      var h := AcquireLease(step);
      if h == null {
        exit := NotAcquired;
        NothingIsWithin(was, step);
        SameStateDispatched(was, was, step, exit, true);
      } else {
        exit, armed, swallowed := DispatchLeased(step, h);
      }
      DispatchedKeepsRow(was, svc.repo.View(), armed, exit, swallowed, svc.repo.faults == calm);
      history := history + [Dispatch(armed, exit,
        !StepTerminal(was.steps[step.id].state) && StepTerminal(svc.repo.steps[step.id].state),
        exit.OverBudget? && !OtherWork(was, armed))];
    }

    lemma DispatchedKeepsRow(a: Tables, b: Tables, step: StepCopy, exit: Exit, swallowed: bool, quiet: bool)
      requires Dispatched(a, b, step, exit, swallowed, quiet, maxRetries)
      ensures step.id < |a.steps| <= |b.steps|
    {
    }

    /** The lease is ours: choose an arm, find an instance, and run. */
    method DispatchLeased(step: StepCopy, h: Handle) returns (exit: Exit, ghost armed: StepCopy, swallowed: bool)
      requires Ready() && Matches(svc.repo.View(), step) && h.stepId == step.id && Ours(h)
      requires HasGrant(leases.View(), step.id) && h.expiresAt <= LastExpiry(leases.View(), step.id)
      modifies svc.repo, leases, h`expiresAt
      ensures Sound() && svc.repo.faults >= old(svc.repo.faults) && Fewer(old(leases.View()), leases.View())
      ensures armed == step.(agentType := armed.agentType, provider := armed.provider)
      ensures step.provider != "" ==> armed == step
      ensures Dispatched(old(svc.repo.View()), svc.repo.View(), armed, exit, swallowed,
              svc.repo.faults == old(svc.repo.faults), maxRetries)
      ensures !exit.NotAcquired? && step.id !in leases.holders
      ensures old(svc.repo.steps)[step.id].state.StepPending? && svc.repo.faults == old(svc.repo.faults) ==>
                !exit.ArmRefused? && !exit.MirrorRefused? && !exit.NotStarted?
    {
      hide Shape, Accounts, Progress, Mirrored, EffectsOwned, Lease.Valid, FlowDone, RunDone, MirrorOk, Ends, Settles,
        Dispatched, Within, Linked;
      ghost var was, calm := svc.repo.View(), svc.repo.faults;
      swallowed := false;
      var toRun, handled, refused := SelectArmIfNeeded(step, h);
      armed := toRun;
      if refused || handled {
        exit := if refused then ArmRefused else Unroutable;
        if refused { SameStateDispatched(was, svc.repo.View(), armed, exit, svc.repo.faults == calm); }
        return;
      }
      var spawned: bool := *;
      if !spawned {
        Release(h);
        exit := NoInstance;
        SameStateDispatched(was, svc.repo.View(), armed, exit, svc.repo.faults == calm);
        return;
      }
      ghost var mid, midCalm := svc.repo.View(), svc.repo.faults;
      exit, swallowed := RunWithInstance(toRun, h);
      LaterDispatched(was, mid, svc.repo.View(), armed, exit, swallowed,
                      svc.repo.faults == midCalm, svc.repo.faults == calm, maxRetries);
    }

    lemma NothingIsWithin(a: Tables, step: StepCopy)
      requires Matches(a, step)
      ensures Within(a, a, step)
    {
    }

    /** An exit that leaves the Step as it was. */
    lemma SameStateDispatched(a: Tables, b: Tables, step: StepCopy, exit: Exit, quiet: bool)
      requires exit.NotAcquired? || exit.ArmRefused? || exit.NoInstance? || exit.MirrorRefused?
      requires Within(a, b, step) && Shape(b) && Matches(b, step) && b.flows == a.flows
      requires step.id < |a.steps| && b.steps[step.id].state == a.steps[step.id].state && b.effects == a.effects &&
               (Progress(a) && quiet ==> Progress(b))
      ensures Dispatched(a, b, step, exit, false, quiet, maxRetries)
    {
      SameStateEnds(a, b, step, quiet);
    }

    /** An instance is at hand: mirror the lease, start the parents and the Step, run it. */
    method RunWithInstance(step: StepCopy, h: Handle) returns (exit: Exit, swallowed: bool)
      requires Ready() && Matches(svc.repo.View(), step) && h.stepId == step.id && Ours(h)
      requires HasGrant(leases.View(), step.id) && h.expiresAt <= LastExpiry(leases.View(), step.id)
      modifies svc.repo, leases, h`expiresAt
      ensures Sound() && svc.repo.faults >= old(svc.repo.faults) && Fewer(old(leases.View()), leases.View())
      ensures Dispatched(old(svc.repo.View()), svc.repo.View(), step, exit, swallowed,
              svc.repo.faults == old(svc.repo.faults), maxRetries)
      ensures exit.OverBudget? || exit.MirrorRefused? || exit.Started()
      ensures step.id !in leases.holders
      ensures old(svc.repo.steps)[step.id].state.StepPending? && svc.repo.faults == old(svc.repo.faults) ==>
                !exit.MirrorRefused? && !exit.NotStarted?
    {
      hide Shape, Accounts, Progress, Mirrored, EffectsOwned, Lease.Valid, FlowDone, RunDone, MirrorOk, Ends, Settles,
        Linked, CannotPay, Dispatched;
      ghost var was, calm := svc.repo.View(), svc.repo.faults;
      swallowed := false;
      var estimate: int := *;
      if estimate < 0 { estimate := 0; }
      var err := MirrorLease(step, h, estimate);
      if err.BudgetExhausted? {
        CancelStep(step);
        Release(h);
        exit := OverBudget(estimate);
        CancelledDispatched(was, svc.repo.View(), step, estimate, svc.repo.faults == calm);
        return;
      }
      if !err.Ok? {
        Release(h);
        exit := MirrorRefused;
        SameStateDispatched(was, svc.repo.View(), step, exit, svc.repo.faults == calm);
        return;
      }
      ghost var leased, leasedCalm := svc.repo.View(), svc.repo.faults;
      exit, swallowed := StartAndRun(step, h);
      LaterDispatched(was, leased, svc.repo.View(), step, exit, swallowed,
                      svc.repo.faults == leasedCalm, svc.repo.faults == calm, maxRetries);
    }

    lemma CancelledDispatched(a: Tables, b: Tables, step: StepCopy, estimate: int, quiet: bool)
      requires Within(a, b, step) && Shape(a) && Shape(b) && (Progress(a) && quiet ==> Progress(b))
      requires b.flows == a.flows && b.runs == a.runs && step.flowId == a.steps[step.id].flowId
      requires ExitState(a.steps[step.id].state, b.steps[step.id].state, OverBudget(estimate), quiet)
      requires b.effects == a.effects && CannotPay(a, step, estimate)
      ensures Dispatched(a, b, step, OverBudget(estimate), false, quiet, maxRetries)
    {
      CancelledEnds(a, b, step, quiet);
    }

    method StartAndRun(step: StepCopy, h: Handle) returns (exit: Exit, swallowed: bool)
      requires Ready() && Matches(svc.repo.View(), step) && h.stepId == step.id && Ours(h)
      requires svc.repo.steps[step.id].state.StepLeased?
      modifies svc.repo, leases, h`expiresAt
      ensures Sound() && svc.repo.faults >= old(svc.repo.faults) && Fewer(old(leases.View()), leases.View())
      ensures Dispatched(old(svc.repo.View()), svc.repo.View(), step, exit, swallowed,
              svc.repo.faults == old(svc.repo.faults), maxRetries)
      ensures exit.Started()
      ensures exit.NotStarted? ==> svc.repo.faults > old(svc.repo.faults)
      ensures step.id !in leases.holders
    {
      hide Shape, Accounts, Progress, Mirrored, EffectsOwned, Lease.Valid, FlowDone, RunDone, MirrorOk, Ends, Settles,
        Linked, Dispatched;
      ghost var was, calm := svc.repo.View(), svc.repo.faults;
      swallowed := false;
      LiveStepHasLiveFlow(was, step);
      EnsureParentsRunning(step);
      ghost var begun := svc.repo.View();
      var err := MarkRunning(step);
      ghost var mid, midCalm := svc.repo.View(), svc.repo.faults;
      WithinComposes(was, begun, mid, step);
      if !err.Ok? {
        Release(h);
        exit := NotStarted;
        UnstartedDispatched(was, mid, step, svc.repo.faults == calm);
        return;
      }
      var accepted: bool := *;
      if accepted {
        exit, swallowed := RunStep(step, h);
      } else {
        exit := RefuseAssignment(step, h);
      }
      LaterDispatched(was, mid, svc.repo.View(), step, exit, swallowed,
                      svc.repo.faults == midCalm, svc.repo.faults == calm, maxRetries);
    }

    lemma UnstartedDispatched(a: Tables, b: Tables, step: StepCopy, quiet: bool)
      requires Within(a, b, step) && Shape(b) && step.flowId == b.steps[step.id].flowId &&
               b.steps[step.id].state.StepLeased?
      requires Progress(a) && quiet ==> Progress(b)
      requires b.effects == a.effects
      ensures Dispatched(a, b, step, NotStarted, false, quiet, maxRetries)
    {
      UnfinishedEnds(a, b, step, quiet);
    }

    /** Refused exactly when the store is closed or somebody owns the Step. */
    method AcquireLease(step: StepCopy) returns (h: Handle?)
      requires Ready()
      modifies leases
      ensures Ready() && leases.closed == old(leases.closed)
      ensures h == null ==>
                leases.holders == old(leases.holders) &&
                (leases.closed || (step.id in leases.holders && exists now: Time ::
                    old(leases.clock) <= now && !Lease.Free(old(leases.View()), step.id, now)))
      ensures h != null ==>
                !leases.closed && leases.holders.Keys == old(leases.holders).Keys + {step.id} &&
                exists now: Time :: old(leases.clock) <= now && Lease.Free(old(leases.View()), step.id, now)
      ensures h != null ==>
                fresh(h) && h.stepId == step.id && Ours(h) && HasGrant(leases.View(), step.id) &&
                h.expiresAt <= LastExpiry(leases.View(), step.id)
    {
      var t1 := leases.Now();
      var t2 := leases.Now();
      if t2 < t1 { t2 := t1; }
      ghost var was := leases.View();
      AcquireExtends(svc.repo.View(), was, step.id, nodeId, ttl, t1, t2);
      var err;
      err, h := leases.Acquire(step.id, nodeId, ttl, t1, t2);
      assert h != null <==> !leases.closed && Lease.Free(was, step.id, t1);
      assert h == null && !leases.closed ==> Lease.Busy(was, step.id, t1);
    }

    // ---- the run loop ----

    /** Everything a run has kept so far, since `base` Steps had finished. */
    ghost predicate OnTrack(base: nat)
      reads svc.repo, leases
    {
      Ready() && Owed(svc.repo.View()) <= base
    }

    /** What has been finished and what may still be, beyond what the original Steps allow. */
    ghost function Owed(db: Tables): int {
      |Finished(db)| + Potential(db.steps, maxRetries) - |Originals(db)| * (maxRetries + 1)
    }

    /** Started work has started parents, and finished Flows have finished Runs. */
    ghost predicate Complete()
      reads svc.repo
    {
      Progress(svc.repo.View()) && RunsDone(svc.repo.View())
    }

    /** Nobody holds a lease, and the store is open. */
    ghost predicate Unheld()
      reads leases
    {
      !leases.closed && leases.holders == map[]
    }

    lemma AfterDispatch(a: Tables, b: Tables, armed: StepCopy, exit: Exit, quiet: bool)
      requires Dispatched(a, b, armed, exit, false, quiet, maxRetries) && Shape(a) && Matches(a, armed)
      requires a.steps[armed.id].state.StepPending?
      ensures |b.steps| >= |a.steps| && armed.id < |b.steps| && Owed(b) <= Owed(a)
      ensures RetriesBounded(a, maxRetries) ==> RetriesBounded(b, maxRetries)
      ensures |Finished(b)| == |Finished(a)| + if StepTerminal(b.steps[armed.id].state) then 1 else 0
      ensures Shape(b) && forall s | 0 <= s < |a.steps| && s != armed.id :: b.steps[s] == a.steps[s]
    {
      DispatchConfined(a, b, armed, exit, quiet);
      hide Dispatched, Shape, Finished, RetriesBounded, Originals, Potential;
      DispatchSpendsPotential(a, b, armed, exit.Retried(), maxRetries);
      DispatchFinishes(a, b, armed, exit.Retried());
      OriginalsStay(a, b, armed, exit.Retried());
    }

    lemma DispatchConfined(a: Tables, b: Tables, armed: StepCopy, exit: Exit, quiet: bool)
      requires Dispatched(a, b, armed, exit, false, quiet, maxRetries)
      ensures Confined(a, b, armed, exit.Retried()) && Shape(b)
      ensures exit.Retried() ==> armed.retryCount < maxRetries && b.steps[armed.id].state.StepFailed?
    {
    }

    lemma OriginalsStay(a: Tables, b: Tables, step: StepCopy, retried: bool)
      requires Confined(a, b, step, retried)
      ensures Originals(b) == Originals(a)
    {
      forall s: nat ensures s in Originals(b) <==> s in Originals(a) {
        if s < |a.steps| { assert b.steps[s].retryOf == a.steps[s].retryOf; }
      }
    }

    /** What a dispatch does to the list of stranded Flows: nothing is added to it but the
        Flow of a Step cancelled over budget with no other work left beside it. */
    lemma DispatchStrands(a: Tables, b: Tables, armed: StepCopy, exit: Exit)
      requires Dispatched(a, b, armed, exit, false, true, maxRetries) && Shape(a) && Matches(a, armed)
      requires a.steps[armed.id].state.StepPending? && Progress(a)
      ensures Progress(b) && (RunsDone(a) ==> RunsDone(b))
      ensures Stranded(b) == if exit.OverBudget? && !OtherWork(a, armed) then Stranded(a) + {armed.flowId}
                             else Stranded(a) - {armed.flowId}
    {
      if exit.OverBudget? {
        CancellingStrandsIff(a, b, armed);
      } else {
        SettlingStrandsNobody(a, b, armed, exit.Retried());
      }
    }

    /** What a stretch of history has to do with the tables before and after it. */
    ghost predicate Accounted(a: Tables, b: Tables, recent: seq<Dispatch>, quiet: bool) {
      && (Shape(b) ==> Finishes(recent) == |Finished(b)| - |Finished(a)|)
      && (Shape(b) && RetriesBounded(a, maxRetries) ==> RetriesBounded(b, maxRetries))
      && (quiet && Progress(a) && RunsDone(a) ==>
            Progress(b) && RunsDone(b) && Stranded(b) <= Stranded(a) + Cut(recent))
    }

    lemma AccountedConcat(a: Tables, b: Tables, c: Tables, ab: seq<Dispatch>, bc: seq<Dispatch>, calm: bool,
        quiet: bool)
      requires Shape(b) && Accounted(a, b, ab, calm) && Accounted(b, c, bc, quiet)
      ensures Accounted(a, c, ab + bc, calm && quiet)
    {
      hide Shape, Progress, RunsDone, Stranded, Finished, RetriesBounded;
      HistoryConcat(ab, bc);
    }

    /** One poll: the oldest pending Steps, one after another. The account of a run stops
        where a failure is swallowed, which is where the hierarchy breaks. */
    method Tick(batch: int, ghost base: nat) returns (swallowed: bool)
      requires OnTrack(base)
      modifies svc.repo, leases, this`history
      ensures !swallowed ==> OnTrack(base)
      ensures swallowed ==> !Shape(svc.repo.View()) && svc.repo.faults > old(svc.repo.faults)
      ensures svc.repo.faults >= old(svc.repo.faults) && old(history) <= history
      ensures Accounted(old(svc.repo.View()), svc.repo.View(), history[|old(history)|..],
              svc.repo.faults == old(svc.repo.faults))
      ensures svc.repo.faults == old(svc.repo.faults) ==>
                Polled(old(svc.repo.View()), history[|old(history)|..], if batch <= 0 then 50 else batch)
      ensures old(Unheld()) ==> Unheld() && forall d | d in history[|old(history)|..] :: !d.exit.NotAcquired?
    {
      hide Shape, Accounts, Progress, Mirrored, EffectsOwned, Lease.Valid, FlowDone, RunDone, MirrorOk, Linked,
        Stranded, RunsDone, RetriesBounded, Accounted, Finished, Owed, Polled, Matches, Oldest;
      ghost var was, n, bound := svc.repo.View(), |history|, if batch <= 0 then 50 else batch;
      var err, steps := Poll(batch);
      ghost var calm := svc.repo.faults;
      swallowed := DispatchAll(steps, base);
      WeakerAccount(was, svc.repo.View(), history[n..], svc.repo.faults == old(svc.repo.faults),
          svc.repo.faults == calm);
      if err.Ok? && !swallowed { PolledAll(was, steps, history[n..], bound); }
    }

    /** The oldest pending Steps of the tenant, in order, and as many as there is room for. */
    ghost predicate Oldest(a: Tables, steps: seq<StepCopy>, bound: int) {
      && |steps| <= bound
      && (forall i | 0 <= i < |steps| :: steps[i].id < |a.steps| && Due(a.steps[steps[i].id], tenant))
      && forall s: nat | s < |a.steps| && Due(a.steps[s], tenant) ::
           Repositories.Listed(steps, s) || (steps != [] && |steps| == bound && steps[|steps| - 1].id < s)
    }

    method Poll(batch: int) returns (err: Error, steps: seq<StepCopy>)
      requires Ready()
      modifies svc.repo
      ensures Ready() && svc.repo.View() == old(svc.repo.View())
      ensures svc.repo.faults == if err.Fault? then old(svc.repo.faults) + 1 else old(svc.repo.faults)
      ensures err.Ok? || err.Fault?
      ensures forall j | 0 <= j < |steps| ::
                Matches(svc.repo.View(), steps[j]) && svc.repo.steps[steps[j].id].state.StepPending?
      ensures forall i, j | 0 <= i < j < |steps| :: steps[i].id < steps[j].id
      ensures err.Ok? ==> Oldest(svc.repo.View(), steps, if batch <= 0 then 50 else batch)
    {
      hide Shape, Accounts, Progress, Mirrored, EffectsOwned, Lease.Valid, Linked;
      err, steps := svc.repo.ListPendingSteps(tenant, batch);
      SameTables(old(svc.repo.View()), svc.repo.View());
      CopiesMatch(svc.repo.View(), steps);
    }

    lemma CopiesMatch(a: Tables, steps: seq<StepCopy>)
      requires forall i | 0 <= i < |steps| :: steps[i].id < |a.steps| && steps[i] == CopyOf(a, steps[i].id)
      ensures forall i | 0 <= i < |steps| :: Matches(a, steps[i])
    {
    }

    /** The listed Steps, one after another, until a failure is swallowed. */
    method DispatchAll(steps: seq<StepCopy>, ghost base: nat) returns (swallowed: bool)
      requires OnTrack(base)
      requires forall j | 0 <= j < |steps| ::
                 Matches(svc.repo.View(), steps[j]) && svc.repo.steps[steps[j].id].state.StepPending?
      requires forall i, j | 0 <= i < j < |steps| :: steps[i].id < steps[j].id
      modifies svc.repo, leases, this`history
      ensures !swallowed ==> OnTrack(base) && |history| == |old(history)| + |steps|
      ensures swallowed ==> !Shape(svc.repo.View()) && svc.repo.faults > old(svc.repo.faults)
      ensures svc.repo.faults >= old(svc.repo.faults) && old(history) <= history
      ensures |history| <= |old(history)| + |steps| &&
              forall j | 0 <= j < |history| - |old(history)| :: history[|old(history)| + j].step.id == steps[j].id
      ensures Accounted(old(svc.repo.View()), svc.repo.View(), history[|old(history)|..],
              svc.repo.faults == old(svc.repo.faults))
      ensures old(Unheld()) ==> Unheld() && forall d | d in history[|old(history)|..] :: !d.exit.NotAcquired?
    {
      hide Shape, Accounts, Progress, Mirrored, EffectsOwned, Lease.Valid, FlowDone, RunDone, MirrorOk, Linked,
        Stranded, RunsDone, RetriesBounded, Accounted, Finished, Owed;
      swallowed := false;
      ghost var was, n := svc.repo.View(), |history|;
      NothingAccounted(was, true);
      assert history[n..] == [];
      var i := 0;
      while i < |steps|
        invariant 0 <= i <= |steps| && OnTrack(base)
        invariant svc.repo.faults >= old(svc.repo.faults)
        invariant old(history) <= history && |history| == n + i
        invariant forall j | i <= j < |steps| ::
                  Matches(svc.repo.View(), steps[j]) && svc.repo.steps[steps[j].id].state.StepPending?
        invariant forall j | 0 <= j < i :: history[n + j].step.id == steps[j].id
        invariant Accounted(was, svc.repo.View(), history[n..], svc.repo.faults == old(svc.repo.faults))
        invariant old(Unheld()) ==> Unheld() && forall d | d in history[n..] :: !d.exit.NotAcquired?
      {
        ghost var mid, sofar, calm := svc.repo.View(), history[n..], svc.repo.faults;
        ghost var d;
        swallowed, d := DispatchListed(steps[i], base);
        assert history[n..] == sofar + [d];
        AccountedConcat(was, mid, svc.repo.View(), sofar, [d], calm == old(svc.repo.faults), svc.repo.faults == calm);
        if swallowed {
          return;
        }
        i := i + 1;
      }
    }

    /** The Steps dispatched are the oldest that were pending, and as many as there was room for. */
    ghost predicate Polled(a: Tables, recent: seq<Dispatch>, bound: int) {
      && |recent| <= bound
      && (forall i, j | 0 <= i < j < |recent| :: recent[i].step.id < recent[j].step.id)
      && (forall i | 0 <= i < |recent| :: recent[i].step.id < |a.steps| && Due(a.steps[recent[i].step.id], tenant))
      && forall s: nat | s < |a.steps| && Due(a.steps[s], tenant) ::
           (exists i | 0 <= i < |recent| :: recent[i].step.id == s) ||
           (recent != [] && |recent| == bound && recent[|recent| - 1].step.id < s)
    }

    lemma PolledAll(a: Tables, steps: seq<StepCopy>, recent: seq<Dispatch>, bound: int)
      requires |recent| == |steps| && Oldest(a, steps, bound)
      requires forall j | 0 <= j < |recent| :: recent[j].step.id == steps[j].id
      requires forall i, j | 0 <= i < j < |steps| :: steps[i].id < steps[j].id
      ensures Polled(a, recent, bound)
    {
      forall s: nat | s < |a.steps| && Due(a.steps[s], tenant) && Repositories.Listed(steps, s)
        ensures exists i | 0 <= i < |recent| :: recent[i].step.id == s
      {
        var i :| 0 <= i < |steps| && steps[i].id == s;
        assert recent[i].step.id == s;
      }
    }

    lemma NothingAccounted(a: Tables, quiet: bool)
      ensures Accounted(a, a, [], quiet)
    {
    }

    /** One Step off the list. */
    method DispatchListed(step: StepCopy, ghost base: nat) returns (swallowed: bool, ghost d: Dispatch)
      requires OnTrack(base) && Matches(svc.repo.View(), step) && svc.repo.steps[step.id].state.StepPending?
      modifies svc.repo, leases, this`history
      ensures !swallowed ==>
                OnTrack(base) && |svc.repo.steps| >= |old(svc.repo.steps)| &&
                forall s | 0 <= s < |old(svc.repo.steps)| && s != step.id :: svc.repo.steps[s] == old(svc.repo.steps)[s]
      ensures swallowed ==> !Shape(svc.repo.View()) && svc.repo.faults > old(svc.repo.faults)
      ensures svc.repo.faults >= old(svc.repo.faults) && history == old(history) + [d] && d.step.id == step.id
      ensures Accounted(old(svc.repo.View()), svc.repo.View(), [d], svc.repo.faults == old(svc.repo.faults))
      ensures old(Unheld()) ==> Unheld() && !d.exit.NotAcquired?
    {
      hide Shape, Accounts, Progress, Mirrored, EffectsOwned, Lease.Valid, FlowDone, RunDone, MirrorOk, Linked,
        Stranded, RunsDone, RetriesBounded, Dispatched, OtherWork, Finished, Accounted, Owed;
      ghost var was, calm := svc.repo.View(), svc.repo.faults;
      ghost var armed;
      var exit;
      exit, armed, swallowed := DispatchStep(step);
      d := history[|history| - 1];
      if swallowed {
        SwallowedFaults(was, svc.repo.View(), armed, exit, svc.repo.faults == calm);
        SwallowedAccounted(was, svc.repo.View(), d);
        return;
      }
      AfterDispatch(was, svc.repo.View(), armed, exit, svc.repo.faults == calm);
      DispatchAccounted(was, svc.repo.View(), d, svc.repo.faults == calm);
    }

    lemma SwallowedAccounted(a: Tables, b: Tables, d: Dispatch)
      requires !Shape(b)
      ensures Accounted(a, b, [d], false)
    {
    }

    lemma DispatchAccounted(a: Tables, b: Tables, d: Dispatch, quiet: bool)
      requires Dispatched(a, b, d.step, d.exit, false, quiet, maxRetries) && Shape(a) && Matches(a, d.step)
      requires a.steps[d.step.id].state.StepPending?
      requires d.step.id < |b.steps| && d.finished == StepTerminal(b.steps[d.step.id].state)
      requires d.lastWork == (d.exit.OverBudget? && !OtherWork(a, d.step))
      ensures Accounted(a, b, [d], quiet)
    {
      AfterDispatch(a, b, d.step, d.exit, quiet);
      hide Shape, Finished, RetriesBounded, OtherWork;
      if quiet && Progress(a) { DispatchStrands(a, b, d.step, d.exit); }
      hide Progress, RunsDone, Stranded, Dispatched;
      assert [d][..0] == [];
      assert Finishes([]) == 0;
      assert d in [d];
    }

    lemma SwallowedFaults(a: Tables, b: Tables, step: StepCopy, exit: Exit, quiet: bool)
      requires Dispatched(a, b, step, exit, true, quiet, maxRetries)
      ensures !quiet && !Shape(b)
    {
    }

    lemma SameTables(a: Tables, b: Tables)
      requires a == b
      ensures Ready() == Ready()
    {
    }

    method ExpiryScan() returns (now: Time)
      requires Ready()
      modifies svc.repo
      ensures Ready() && svc.repo.faults >= old(svc.repo.faults) && now >= leases.clock
      ensures svc.repo.View() == if svc.repo.faults == old(svc.repo.faults) then T4(old(svc.repo.View()), now)
              else old(svc.repo.View())
      ensures old(Progress(svc.repo.View())) ==> Progress(svc.repo.View())
      ensures svc.repo.faults == old(svc.repo.faults) ==>
                forall s | 0 <= s < |svc.repo.steps| && Held(old(svc.repo.steps)[s]) &&
                    (HasGrant(leases.View(), s) ==> LastExpiry(leases.View(), s) < now) ::
                  svc.repo.steps[s].state.StepPending?
    {
      ghost var was := svc.repo.View();
      now := leases.Now();
      var err, _ := svc.repo.T4ExpiryBackupScanner(now);
      if err.Ok? {
        ScanKeepsRest(was, now);
        forall s | 0 <= s < |was.steps| && Held(was.steps[s]) &&
            (HasGrant(leases.View(), s) ==> LastExpiry(leases.View(), s) < now)
          ensures svc.repo.View().steps[s].state.StepPending?
        { ScanRecoversEveryHeldStep(was, leases.View(), ttl, s, now); }
      }
    }

    lemma ScanKeepsRest(a: Tables, now: Time)
      requires Mirrored(a, leases.View(), ttl)
      ensures Mirrored(T4(a, now), leases.View(), ttl)
      ensures EffectsOwned(a) ==> EffectsOwned(T4(a, now))
      ensures Linked(a) ==> Linked(T4(a, now))
      ensures Progress(a) ==> Progress(T4(a, now))
      ensures RetriesBounded(a, maxRetries) ==> RetriesBounded(T4(a, now), maxRetries)
      ensures Owed(T4(a, now)) == Owed(a)
      ensures Originals(T4(a, now)) == Originals(a)
      ensures Potential(T4(a, now).steps, maxRetries) == Potential(a.steps, maxRetries)
    {
      var b := T4(a, now);
      forall s | 0 <= s < |b.steps| ensures MirrorOk(b.steps[s], leases.View(), s) {
        assert MirrorOk(a.steps[s], leases.View(), s);
      }
      forall s | 0 <= s < |a.steps| ensures b.steps[s] == a.steps[s] || b.steps[s] == RecoveredRow(a.steps[s]) {}
      forall s: nat ensures s in Originals(b) <==> s in Originals(a) {}
      PotentialSame(a.steps, b.steps, maxRetries);
      ScanFinishesNothing(a, now);
      assert Originals(b) == Originals(a);
    }

    /** Work arriving from outside: a run, a flow under a live run, a step under a live
        flow of the same run. */
    method Arrive()
      requires Ready()
      modifies svc.repo
      ensures Ready() && svc.repo.faults >= old(svc.repo.faults)
      ensures Owed(svc.repo.View()) == old(Owed(svc.repo.View()))
      ensures Accounted(old(svc.repo.View()), svc.repo.View(), [], true)
    {
      hide Shape, Accounts, Progress, Mirrored, EffectsOwned, Lease.Valid, FlowDone, RunDone, MirrorOk, Stranded,
        RunsDone, RetriesBounded, Linked;
      var kind: int := *;
      var number: int := *;
      if kind == 0 && 0 <= number {
        AddRun(number);
      } else if kind == 1 && 0 <= number < |svc.repo.runs| && !RunTerminal(svc.repo.runs[number].state) {
        AddFlow(number);
      } else if kind == 2 && 0 <= number < |svc.repo.flows| && !FlowTerminal(svc.repo.flows[number].state) {
        AddStep(number);
      } else if kind == 3 && 0 <= number {
        StartByHand(number);
      }
    }

    /** Somebody starts a Run by hand. */
    method StartByHand(runId: Id)
      requires Ready()
      modifies svc.repo
      ensures Ready() && svc.repo.faults >= old(svc.repo.faults)
      ensures Owed(svc.repo.View()) == old(Owed(svc.repo.View()))
      ensures Accounted(old(svc.repo.View()), svc.repo.View(), [], true)
    {
      hide Shape, Accounts, Progress, Mirrored, EffectsOwned, Lease.Valid, FlowDone, RunDone, MirrorOk, Stranded,
        RunsDone;
      ghost var was := svc.repo.View();
      var err := svc.TransitionRun(runId, RunRunning);
      if err.Ok? {
        RunMoveKeepsSafe(was, svc.repo.View(), runId);
        StepsSettleMirror(was, svc.repo.View());
        MovedRunStrandsNobody(was, svc.repo.View(), runId);
        if Progress(was) { StartedRunKeepsProgress(was, svc.repo.View(), runId); }
      }
    }

    method AddRun(budget: nat)
      requires Ready()
      modifies svc.repo
      ensures Ready() && svc.repo.faults >= old(svc.repo.faults)
      ensures Owed(svc.repo.View()) == old(Owed(svc.repo.View()))
      ensures Accounted(old(svc.repo.View()), svc.repo.View(), [], true)
    {
      hide Shape, Accounts, Progress, Mirrored, EffectsOwned, Lease.Valid, FlowDone, RunDone, MirrorOk, Stranded,
        RunsDone;
      ghost var was := svc.repo.View();
      var err := svc.repo.InsertRun(budget);
      if err.Ok? { NewRunKeeps(was, budget); }
    }

    method AddFlow(runId: Id)
      requires Ready()
      requires runId < |svc.repo.runs| && !RunTerminal(svc.repo.runs[runId].state)
      modifies svc.repo
      ensures Ready() && svc.repo.faults >= old(svc.repo.faults)
      ensures Owed(svc.repo.View()) == old(Owed(svc.repo.View()))
      ensures Accounted(old(svc.repo.View()), svc.repo.View(), [], true)
    {
      hide Shape, Accounts, Progress, Mirrored, EffectsOwned, Lease.Valid, FlowDone, RunDone, MirrorOk, Stranded,
        RunsDone;
      ghost var was := svc.repo.View();
      var err := svc.repo.InsertFlow(runId);
      if err.Ok? { NewFlowKeeps(was, runId); }
    }

    method AddStep(flowId: Id)
      requires Ready()
      requires flowId < |svc.repo.flows| && !FlowTerminal(svc.repo.flows[flowId].state)
      modifies svc.repo
      ensures Ready() && svc.repo.faults >= old(svc.repo.faults)
      ensures Owed(svc.repo.View()) == old(Owed(svc.repo.View()))
      ensures Accounted(old(svc.repo.View()), svc.repo.View(), [], true)
    {
      hide Shape, Accounts, Progress, Mirrored, EffectsOwned, Lease.Valid, FlowDone, RunDone, MirrorOk, Stranded,
        RunsDone, RetriesBounded;
      ghost var was := svc.repo.View();
      var whose, agentType, provider: string := *, *, *;
      var err := svc.repo.InsertStep(flowId, svc.repo.flows[flowId].runId, whose, agentType, provider);
      if err.Ok? { NewStepKeeps(was, flowId, whose, agentType, provider); }
    }

    lemma NewRunKeeps(a: Tables, budget: nat)
      requires Safe(a)
      ensures var b := a.(runs := a.runs + [NewRun(budget)]);
              && Safe(b) && (Mirrored(a, leases.View(), ttl) ==> Mirrored(b, leases.View(), ttl))
              && (EffectsOwned(a) ==> EffectsOwned(b)) && Owed(b) == Owed(a) && Accounted(a, b, [], true)
    {
      hide Accounted, Owed, Finished, Progress;
      var b := a.(runs := a.runs + [NewRun(budget)]);
      AppendRunKeepsShape(a, b, budget);
      UnusedRunCostsNothing(a.steps, |a.runs|);
      assert forall r | 0 <= r < |a.runs| :: b.runs[r] == a.runs[r];
      NewRunAccounted(a, budget);
    }

    lemma NewRunAccounted(a: Tables, budget: nat)
      requires Linked(a)
      ensures var b := a.(runs := a.runs + [NewRun(budget)]); Owed(b) == Owed(a) && Accounted(a, b, [], true)
    {
      hide Shape, Stranded, RunsDone;
      var b := a.(runs := a.runs + [NewRun(budget)]);
      assert forall r | 0 <= r < |a.runs| :: b.runs[r] == a.runs[r];
      NewRunStrandsNobody(a, budget);
      assert Finished(b) == Finished(a) && Originals(b) == Originals(a);
    }

    lemma NewFlowKeeps(a: Tables, runId: Id)
      requires Safe(a) && runId < |a.runs| && !RunTerminal(a.runs[runId].state)
      ensures var b := a.(flows := a.flows + [NewFlow(runId)]);
              && Safe(b) && (Mirrored(a, leases.View(), ttl) ==> Mirrored(b, leases.View(), ttl))
              && (EffectsOwned(a) ==> EffectsOwned(b)) && Owed(b) == Owed(a) && Accounted(a, b, [], true)
    {
      hide Accounted, Owed, Finished, Progress;
      var b := a.(flows := a.flows + [NewFlow(runId)]);
      AppendFlowKeepsShape(a, b, runId);
      assert forall f | 0 <= f < |a.flows| :: b.flows[f] == a.flows[f];
      NewFlowAccounted(a, runId);
    }

    lemma NewFlowAccounted(a: Tables, runId: Id)
      requires Linked(a) && runId < |a.runs|
      ensures var b := a.(flows := a.flows + [NewFlow(runId)]); Owed(b) == Owed(a) && Accounted(a, b, [], true)
    {
      hide Shape, Stranded, RunsDone;
      var b := a.(flows := a.flows + [NewFlow(runId)]);
      assert forall f | 0 <= f < |a.flows| :: b.flows[f] == a.flows[f];
      NewFlowStrandsNobody(a, runId);
      assert Finished(b) == Finished(a) && Originals(b) == Originals(a);
    }

    lemma NewStepKeeps(a: Tables, flowId: Id, tenant: string, agentType: string, provider: string)
      requires Safe(a) && flowId < |a.flows| && !FlowTerminal(a.flows[flowId].state)
      ensures var b := a.(steps := a.steps + [NewStep(flowId, a.flows[flowId].runId, tenant, agentType, provider)]);
              && Safe(b) && Owed(b) == Owed(a) && Accounted(a, b, [], true)
              && (Mirrored(a, leases.View(), ttl) ==> Mirrored(b, leases.View(), ttl))
              && (EffectsOwned(a) ==> EffectsOwned(b))
    {
      hide Shape, Accounts, Accounted, Owed, Finished;
      var row := NewStep(flowId, a.flows[flowId].runId, tenant, agentType, provider);
      var b := a.(steps := a.steps + [row]);
      AppendStepKeepsShape(a, b, row);
      FreeStepKeepsAccounts(a, row);
      FreshRowKeepsMirror(a, row);
      assert forall s | 0 <= s < |a.steps| :: b.steps[s] == a.steps[s];
      NewStepAccounted(a, row);
    }

    lemma NewStepAccounted(a: Tables, row: Step)
      requires Shape(a) && row.state.StepPending? && row.flowId < |a.flows| && row.retryOf.None? && row.retryCount == 0
      ensures var b := a.(steps := a.steps + [row]); Owed(b) == Owed(a) && Accounted(a, b, [], true)
    {
      var b := a.(steps := a.steps + [row]);
      assert RetryPaths(a) by { ShapeHasPaths(a); }
      hide Shape, Stranded, RunsDone, Progress, RetriesBounded;
      NewStepOwesItsAttempts(a, row, maxRetries);
      NewStepFinishesNothing(a, row);
      NewStepStrandsNobody(a, row);
      PendingRowIsModest(a, row);
      hide Finished;
    }

    lemma PendingRowIsModest(a: Tables, row: Step)
      requires row.state.StepPending? && row.retryCount == 0
      ensures var b := a.(steps := a.steps + [row]);
              (Progress(a) ==> Progress(b)) && (RetriesBounded(a, maxRetries) ==> RetriesBounded(b, maxRetries))
    {
      var b := a.(steps := a.steps + [row]);
      assert forall s | 0 <= s < |a.steps| :: b.steps[s] == a.steps[s];
      assert b.steps[|a.steps|] == row;
    }

    lemma ShapeHasPaths(a: Tables)
      requires Shape(a)
      ensures RetryPaths(a)
    {
    }

    lemma FreshRowKeepsMirror(a: Tables, row: Step)
      requires row.state.StepPending?
      ensures Mirrored(a, leases.View(), ttl) ==> Mirrored(a.(steps := a.steps + [row]), leases.View(), ttl)
    {
      if Mirrored(a, leases.View(), ttl) {
        var b := a.(steps := a.steps + [row]);
        forall s | 0 <= s < |b.steps| ensures MirrorOk(b.steps[s], leases.View(), s) {
          if s < |a.steps| { assert b.steps[s] == a.steps[s] && MirrorOk(a.steps[s], leases.View(), s); }
        }
      }
    }

    /** The scheduler's loop: polls, expiry scans and lease timers in any order, with
        work arriving between them, for as long as nobody stops it.

        However it goes, until a failure is swallowed and the hierarchy breaks with it, the
        ledger stays ready; the dispatches that finished a Step are as many as the Steps
        that have finished since, at most (MaxRetries + 1) per original Step. If no call
        lost its connection, every finished Flow has a finished Run, and every Flow
        without unfinished leaves is finished itself, unless it was not before or its
        last work was cancelled over budget. Started with nobody holding a lease, the
        scheduler always gets the lease it asks for. */
    method Run(batch: int) returns (swallowed: bool)
      requires Ready()
      modifies svc.repo, leases, this`history
      ensures !swallowed ==> Ready()
      ensures swallowed ==> !Shape(svc.repo.View()) && svc.repo.faults > old(svc.repo.faults)
      ensures old(history) <= history
      ensures !swallowed ==> Finishes(history[|old(history)|..]) <= |Originals(svc.repo.View())| * (maxRetries + 1)
      ensures Accounted(old(svc.repo.View()), svc.repo.View(), history[|old(history)|..],
              svc.repo.faults == old(svc.repo.faults))
      ensures old(Unheld()) ==> Unheld() && forall d | d in history[|old(history)|..] :: !d.exit.NotAcquired?
    {
      hide Shape, Accounts, Progress, Mirrored, EffectsOwned, Lease.Valid, FlowDone, RunDone, MirrorOk, Linked,
        Stranded, RunsDone, RetriesBounded, Accounted, Finished, Owed;
      StartOnTrack(svc.repo.View());
      NothingAccounted(svc.repo.View(), true);
      swallowed := false;
      ghost var first, n, base := svc.repo.View(), |history|, |Finished(svc.repo.View())|;
      assert history[n..] == [];
      var rounds: int := *;
      while rounds > 0 && !swallowed
        invariant !swallowed ==> OnTrack(base)
        invariant swallowed ==> !Shape(svc.repo.View()) && svc.repo.faults > old(svc.repo.faults)
        invariant svc.repo.faults >= old(svc.repo.faults) && old(history) <= history
        invariant Accounted(first, svc.repo.View(), history[n..], svc.repo.faults == old(svc.repo.faults))
        invariant old(Unheld()) ==> Unheld() && forall d | d in history[n..] :: !d.exit.NotAcquired?
      {
        rounds := rounds - 1;
        var event: int := *;
        ghost var was, sofar, calm := svc.repo.View(), history, svc.repo.faults;
        if event == 0 {
          swallowed := Tick(batch, base);
        } else if event == 1 {
          var now := ExpiryScan();
          ScanKeepsRest(was, now);
          ScanAccounted(was, now);
          NothingAccounted(was, true);
          WeakerAccount(was, svc.repo.View(), [], svc.repo.faults == calm, true);
        } else if event == 2 {
          var s: Id := *;
          TimerFires(s);
          NothingAccounted(was, true);
        } else {
          Arrive();
          WeakerAccount(was, svc.repo.View(), [], svc.repo.faults == calm, true);
        }
        ghost var recent := history[|sofar|..];
        assert history[n..] == sofar[n..] + recent;
        AccountedConcat(first, was, svc.repo.View(), sofar[n..], recent, calm == old(svc.repo.faults),
            svc.repo.faults == calm);
      }
      if !swallowed { BoundedByOwed(first, svc.repo.View(), history[n..], base); }
    }

    /** An account of a stretch holds all the more when more was lost. */
    lemma WeakerAccount(a: Tables, b: Tables, recent: seq<Dispatch>, quiet: bool, calm: bool)
      requires Accounted(a, b, recent, calm) && (quiet ==> calm)
      ensures Accounted(a, b, recent, quiet)
    {
    }

    lemma ScanAccounted(a: Tables, now: Time)
      ensures Shape(a) && (Progress(a) ==> Progress(T4(a, now))) ==> Accounted(a, T4(a, now), [], true)
    {
      ScanStrandsNobody(a, now);
      ScanFinishesNothing(a, now);
    }

    lemma BoundedByOwed(a: Tables, b: Tables, recent: seq<Dispatch>, base: nat)
      requires Accounted(a, b, recent, false) || Accounted(a, b, recent, true)
      requires Shape(b) && base == |Finished(a)| && Owed(b) <= base
      ensures Finishes(recent) <= |Originals(b)| * (maxRetries + 1)
    {
    }

    /** What a run needs, it finds in an empty ledger with an empty lease store. */
    lemma EmptyLedgerIsReady(now: Time)
      requires svc.repo.View() == Tables([], [], [], map[]) && leases.View() == Lease.Empty(now)
      ensures Ready() && Complete() && RetriesBounded(svc.repo.View(), maxRetries)
    {
    }

    lemma StartOnTrack(a: Tables)
      requires Shape(a)
      ensures Owed(a) <= |Finished(a)|
    {
      PotentialIsBounded(a, maxRetries);
    }
  }
}
