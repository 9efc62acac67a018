/** The four transition tables of the execution ledger, their validators and
    their terminal predicates. A validator also passes every self-transition. */
module Fsm {

  datatype RunState = RunPending | RunRunning | RunSucceeded | RunFailed | RunCancelled

  datatype FlowState = FlowPending | FlowAssigned | FlowRunning | FlowSucceeded | FlowFailed | FlowCancelled

  datatype StepState =
    StepPending | StepLeased | StepRunning | StepSucceeded | StepFailed | StepCancelled | StepExpired

  datatype SideEffectState = SEPending | SEExecuting | SECommitted | SEFailed | SESkipped

  function RunTransitions(from: RunState): set<RunState> {
    match from
    case RunPending => {RunRunning, RunCancelled}
    case RunRunning => {RunSucceeded, RunFailed, RunCancelled}
    case _ => {}
  }

  function FlowTransitions(from: FlowState): set<FlowState> {
    match from
    case FlowPending => {FlowAssigned, FlowCancelled}
    case FlowAssigned => {FlowRunning, FlowPending, FlowCancelled}
    case FlowRunning => {FlowSucceeded, FlowFailed, FlowCancelled}
    case _ => {}
  }

  function StepTransitions(from: StepState): set<StepState> {
    match from
    case StepPending => {StepLeased, StepCancelled}
    case StepLeased => {StepRunning, StepPending, StepExpired}
    case StepRunning => {StepSucceeded, StepFailed, StepPending, StepCancelled, StepExpired}
    case _ => {}
  }

  function SideEffectTransitions(from: SideEffectState): set<SideEffectState> {
    match from
    case SEPending => {SEExecuting, SESkipped}
    case SEExecuting => {SECommitted, SEFailed}
    case _ => {}
  }

  predicate ValidRun(from: RunState, to: RunState) { from == to || to in RunTransitions(from) }

  predicate ValidFlow(from: FlowState, to: FlowState) { from == to || to in FlowTransitions(from) }

  predicate ValidStep(from: StepState, to: StepState) { from == to || to in StepTransitions(from) }

  function StateName(s: StepState): string {
    match s
    case StepPending => "pending"
    case StepLeased => "leased"
    case StepRunning => "running"
    case StepSucceeded => "succeeded"
    case StepFailed => "failed"
    case StepCancelled => "cancelled"
    case StepExpired => "expired"
  }

  predicate ValidSideEffect(from: SideEffectState, to: SideEffectState) {
    from == to || to in SideEffectTransitions(from)
  }

  predicate RunTerminal(s: RunState) { s.RunSucceeded? || s.RunFailed? || s.RunCancelled? }

  predicate FlowTerminal(s: FlowState) { s.FlowSucceeded? || s.FlowFailed? || s.FlowCancelled? }

  predicate StepTerminal(s: StepState) {
    s.StepSucceeded? || s.StepFailed? || s.StepCancelled? || s.StepExpired?
  }

  predicate SideEffectTerminal(s: SideEffectState) { s.SECommitted? || s.SEFailed? || s.SESkipped? }

  /** Where each state of a Step is entered from, itself aside: it runs only once leased,
      succeeds or fails only by running, and comes back to pending only while held. */
  lemma StepEntries(from: StepState, to: StepState)
    requires from != to
    ensures ValidStep(from, to) <==>
            match to
            case StepPending => from.StepLeased? || from.StepRunning?
            case StepLeased => from.StepPending?
            case StepRunning => from.StepLeased?
            case StepSucceeded => from.StepRunning?
            case StepFailed => from.StepRunning?
            case StepCancelled => from.StepPending? || from.StepRunning?
            case StepExpired => from.StepLeased? || from.StepRunning?
  {
  }

  lemma ParentEntries()
    ensures forall from, to | from != to ::
              ValidFlow(from, to) <==>
              match to
              case FlowPending => from.FlowAssigned?
              case FlowAssigned => from.FlowPending?
              case FlowRunning => from.FlowAssigned?
              case FlowSucceeded => from.FlowRunning?
              case FlowFailed => from.FlowRunning?
              case FlowCancelled => from.FlowPending? || from.FlowAssigned? || from.FlowRunning?
    ensures forall from, to | from != to ::
              ValidRun(from, to) <==>
              match to
              case RunPending => false
              case RunRunning => from.RunPending?
              case RunSucceeded => from.RunRunning?
              case RunFailed => from.RunRunning?
              case RunCancelled => from.RunPending? || from.RunRunning?
  {
  }

  /** The terminal predicates name exactly the absorbing states of the tables. */
  lemma TerminalIsAbsorbing()
    ensures forall s :: RunTerminal(s) <==> forall t | ValidRun(s, t) :: t == s
    ensures forall s :: FlowTerminal(s) <==> forall t | ValidFlow(s, t) :: t == s
    ensures forall s :: StepTerminal(s) <==> forall t | ValidStep(s, t) :: t == s
    ensures forall s :: SideEffectTerminal(s) <==> forall t | ValidSideEffect(s, t) :: t == s
  {
    forall s ensures RunTerminal(s) <==> forall t | ValidRun(s, t) :: t == s {
      assert ValidRun(RunPending, RunRunning) && ValidRun(RunRunning, RunFailed);
    }
    forall s ensures FlowTerminal(s) <==> forall t | ValidFlow(s, t) :: t == s {
      assert ValidFlow(FlowPending, FlowAssigned) && ValidFlow(FlowAssigned, FlowRunning) &&
          ValidFlow(FlowRunning, FlowFailed);
    }
    forall s ensures StepTerminal(s) <==> forall t | ValidStep(s, t) :: t == s {
      assert ValidStep(StepPending, StepLeased) && ValidStep(StepLeased, StepRunning) &&
          ValidStep(StepRunning, StepFailed);
    }
    forall s ensures SideEffectTerminal(s) <==> forall t | ValidSideEffect(s, t) :: t == s {
      assert ValidSideEffect(SEPending, SEExecuting) && ValidSideEffect(SEExecuting, SEFailed);
    }
  }
}
