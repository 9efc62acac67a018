# Dafny model of the Open Kraken backend core

Five backend components with real state or arithmetic, each modelled as the code
does it and proved against what it is for.

**Execution ledger and scheduler.** `Fsm`, `Ledger`, `LedgerInvariants`,
`LedgerAccounts`, `RetryChains`, `RetryPolicy`, `Repositories`, `Services`,
`Recovery`, `Termination`, `Schedulers`, `Interleaving`, `Finalization`. `Ledger`
gives every transaction as a function on the tables. `Repositories`, `Services`
and `Schedulers` hold the classes that call them, with loops and early returns
where the code has them. Three views are proved:

- *One scheduler.* `Ready` is what every call keeps: linked hierarchy, retry
  edges forming disjoint paths behind failed rows, finalized Flows and Runs
  carrying the verdict of their leaves, Run cost equal to the sum of Step costs,
  leased rows mirrored no later than the last grant. `DispatchStep` says what
  each exit leaves behind, `Run` what holds over polls, scans and timers in any
  order, with work arriving between them. `history` is a ghost record of all
  dispatches, which `Run` holds against the tables.
- *Any number of writers.* `Interleaving` splits the optimistic updates into a
  read and a write with anybody in between, and proves that all histories are
  paths of the state machines.
- *Finalization among them.* `Finalization` also splits counting the leaves,
  looking up the parent and writing its state, with Steps, Flows, retries and
  other updates in between, and says exactly which action spoils the hierarchy.

A connection can fail at any call (`Fault`); executor, estimator, instance pool,
arm picker and clock are arbitrary choices. An executor may also return side
effects naming other Steps: `honest` marks schedulers whose executors do not.

**Step lease.** `StepLease` specifies the store over time, with late timers and
stale handles; `MemoryLeases` holds the class. Each call reads the clock twice,
as the code does.

**Realtime hub.** `Cursors`, `Events`, `Realtime`. A ghost log of everything ever
published is the reference for the bounded history, the snapshot index and each
subscriber's channel. The clauses about replay and resync are in the contract of
`Subscribe` and in the invariant `Follows`, which `Publish` keeps.

**Terminal session.** `TerminalCursor`, `Sessions`. The ghost list of all outputs
is the reference for buffer, sequence, window and cursor.

**Node placement and arm selection.** `Strings`, `Fleets`, `Migrations`, `Sweeps`,
`NodeServices`, `Placements`; `Arms`, `Rewards`, `Selectors`. Migration is a function on
fleets, whose lemmas say who is housed, who waits and how level the load is; the
service methods are proved equal to it. `Sweeps` reads off a listing whether
sweeping it loses anybody; `Placements` lets calls run beside each other. Statistics are held against the history of rewards.

## What the code does differently from what one might expect

- The table CHECK on runs (backend/go/internal/ael/migrations/001_ael_init.sql:55)
  makes a completion abort when the reported tokens exceed a non-zero budget, so
  no Run ever exceeds it (`T2CommitsIff`); a Step that will always report more is
  dispatched again and again without finishing (`HopelessForever`).
- `handleExecutorFailure` drops the error of the completion. If that call failed
  and the retry is still inserted, a retry hangs below a running Step
  (`RetryOfLiveStepBreaksPaths`). The model returns `swallowed`, which the program
  does not have; the hierarchy is intact if and only if it is false, and the
  account of a run stops there.
- The exit taken when the budget is exhausted cancels the Step without looking
  at its parents. Its Flow is left unfinished above finished work exactly when no
  other leaf of it was unfinished (`OverBudgetStrandsIff`, `OverBudgetStrandsAFlow`).
- `AddStep` and `AddFlow` are handlers that run beside the scheduler. Adding a
  row changes no version, so one that arrives between the count of a finished
  parent and the write of its verdict is passed over, and the parent ends up
  terminal above pending work (`StepArrivalDefeatsFinalization`,
  `FlowArrivalDefeatsFinalization`). As long as nobody adds below a parent being
  finalized, every verdict written is true (`RespectfulRunsStayInShape`).
- `AddStep` takes a Run besides the Flow and compares them nowhere, `AddStep` and
  `AddFlow` insert below a parent in any state (`NewStepKeepsShapeIff`), and a Run
  can be moved by hand to a state its Flows do not bear out (`TransitionRun`).
- A completion applied twice passes the validator as a self-transition and
  charges the Run twice (`RepeatedT2ChargesTwice`).
- The node service holds no lock between reading a record and saving it: one agent
  assigned twice at a time lands on two nodes, and of two assigned to one node the
  first is overwritten (`OneAgentOnTwoNodes`, `FirstOfTwoIsOverwritten`).
- `scanOfflineNodes` migrates from records listed before the sweep began; a node
  that received agents and then expires in the same sweep loses them
  (`SweepCanLoseAnAgent`). `SweepConservesIffRoom` tells beforehand.
- A cursor of zero, which an empty hub hands out as its latest cursor, always
  leads to snapshot mode without `ResyncRequired`; any positive cursor on an
  empty hub asks for a resync rather than failing as ahead of the head
  (`Subscribe`).
- `ParseCursor` accepts more than `NewCursor` writes (`LenientCursor`).
- A colon in an id can make two snapshot streams share a key (`KeyIsOwnIff`).
- `PickResult.Ranked` is documented as descending; the code returns it in
  candidate order (`Pick`), which need not descend (`RankedNeedNotDescend`).
- Output read after the exit notice is dropped, because the session is frozen
  (`HandleOutput`).

## Model

| member | source | states |
|---|---|---|
| `Fsm.TerminalIsAbsorbing` | backend/go/internal/ael/fsm.go:29-195 | For each of the four tables, a state is terminal if and only if its only valid successor is itself. |
| `Fsm.StepEntries` | backend/go/internal/ael/fsm.go:111-143 | From where a Step enters each state: it runs only once leased, succeeds or fails only by running, comes back to pending only while leased or running, is cancelled only from pending or running. |
| `Fsm.ParentEntries` | backend/go/internal/ael/fsm.go:29-109 | The same for Flows and Runs: neither succeeds or fails without running. |
| `RetryChains.RetryCountIsDistance` | backend/go/internal/ael/repository.go:697-733 | Following retry_of upwards from a row reaches an original after exactly retry_count hops and not before, inside one Flow. |
| `RetryChains.PathsDoNotFork` | backend/go/internal/ael/repository.go:697-733 | Two rows of equal depth under one original are the same row: retry edges form disjoint paths. |
| `RetryChains.ProperAncestorIsNoLeaf` | backend/go/internal/ael/repository.go:239-281 | Every row that was retried is excluded by the NOT EXISTS of the count. |
| `RetryChains.LeafIsUnique` | backend/go/internal/ael/repository.go:239-281 | Two leaves of the same original are the same row. |
| `RetryChains.LeafExists` | backend/go/internal/ael/repository.go:239-281 | Every row has a leaf below it, in its own Flow and with the same original. |
| `RetryChains.LeavesCountOriginals` | backend/go/internal/ael/repository.go:239-281 | A Flow has exactly as many leaves as original Steps, however many retries there were. |
| `Repositories.CountsDecideFlow` | backend/go/internal/ael/repository.go:217-281 | Whatever counters the leaf query fills in, AllTerminal holds exactly when there are leaves and all are terminal, and comparing counters with zero gives the verdict of the leaves themselves. |
| `Repositories.CountsDecideRun` | backend/go/internal/ael/repository.go:283-331 | The same for the Flows of a Run. |
| `Repositories.LeavesSplitByState` | backend/go/internal/ael/repository.go:239-281 | The seven per-state counts add up to the number of leaves. |
| `Repositories.TotalCountsOriginals` | backend/go/internal/ael/repository.go:239-281 | The Total a Flow is judged by equals its number of original Steps. |
| `Repositories.Repository.CountLeaves` | backend/go/internal/ael/repository.go:239-281 | The counting loop returns the cardinality of the set of leaves in one state. |
| `Repositories.Repository.CountStepsByFlow` | backend/go/internal/ael/repository.go:217-281 | Each counter is the cardinality of the set of leaves in its state; Total is their sum. |
| `Repositories.Repository.CountFlowsByRun` | backend/go/internal/ael/repository.go:283-331 | Each counter is the cardinality of the set of Flows in its state; Total is their sum. |
| `Repositories.Repository.ListPendingSteps` | backend/go/internal/ael/repository.go:648-686 | The oldest pending rows of the tenant, or of everybody when none is named, in creation order without repetition, at most the limit (50 when none is given), each copied as it stands; such a row is missing only when the limit was reached by older ones. |
| `Repositories.Repository.T1LeaseMirror` | backend/go/internal/ael/tx.go:51-112 | For an existing Run and a pending Step, when the call does not fault: refused as over budget if and only if the estimate is positive and 0 < token_budget < tokens_used + estimate, and granted otherwise; a grant writes state, node, expiry and version of that Step and adds a positive estimate to that Run, a refusal changes nothing. |
| `Repositories.Repository.InsertSideEffects` | backend/go/internal/ael/tx.go:207-236 | The insertion loop builds the table in which the first entry per (step, seq) wins. |
| `Repositories.Repository.T2StepComplete` | backend/go/internal/ael/tx.go:131-204 | Commits only from running, or as a repeat of the same final state; then the row carries outcome, amounts and reason, and row, side effects and Run change together or not at all. |
| `Repositories.Repository.T3LeaseRenewal` | backend/go/internal/ael/tx.go:262-273 | Moves the mirrored expiry of a leased or running row and nothing else. |
| `Repositories.Repository.T4ExpiryBackupScanner` | backend/go/internal/ael/tx.go:291-319 | Returns exactly the leased or running rows whose expiry lies before now to pending, without node and expiry, leaves every other row as it was, and reports which. |
| `Repositories.Repository.MarkStepRunning` | backend/go/internal/ael/repository.go:451-485 | Commits, when the call does not fault, exactly from leased or running, and changes state and version of that one row. |
| `Repositories.Repository.UpdateStepArm` | backend/go/internal/ael/repository.go:427-444 | Writes the arm of a pending row only; empty strings keep the old value. |
| `Repositories.Repository.UpdateRunState` | backend/go/internal/ael/repository.go:160-185 | With nobody in between, read and write amount to one checked, versioned update. |
| `Repositories.Repository.UpdateFlowState` | backend/go/internal/ael/repository.go:187-213 | The same for Flows, keeping the node when none is given. |
| `Repositories.Repository.UpdateStepStateFromScheduler` | backend/go/internal/ael/repository.go:396-418 | The same for Steps. |
| `Repositories.Repository.InsertRetryStep` | backend/go/internal/ael/repository.go:697-733 | Appends one pending row chained to the parent that repeats its Flow, Run, tenant and arm, with retry_count one higher and no lease, amounts or reason; the parent row is not touched. |
| `LedgerAccounts.T2TokensAreTheLarger` | backend/go/internal/ael/tx.go:162-201 | Overwriting, subtracting and adding nets out to max(tokens_used, reported) on the Run of the Step; cost grows by the report; other Runs stand still. |
| `LedgerAccounts.T2CommitsIff` | backend/go/internal/ael/tx.go:131-201 | Completion of a running Step commits if and only if the final state is succeeded or failed, all named owners exist, and the report fits a non-zero budget (the table CHECK); otherwise nothing changed. |
| `LedgerAccounts.T2KeepsAccounts` | backend/go/internal/ael/tx.go:162-201 | After completing a running Step, every Run still costs exactly the sum of its Steps and stays within a non-zero budget. |
| `LedgerAccounts.RepeatedT2ChargesTwice` | backend/go/internal/ael/tx.go:131-201 | Applied again to a completed Step, the self-transition passes and the books stay right if and only if that Step had cost nothing. |
| `LedgerAccounts.T1DebitsWithinBudget` | backend/go/internal/ael/tx.go:74-89 | A granted debit changes one Run by exactly the estimate and never leaves it above a non-zero budget. |
| `LedgerAccounts.OwnBatchOwnsEffects` | backend/go/internal/flowscheduler/loop.go:174-186 | Entries that name their own Step, or none, leave every side-effect row with a succeeded or failed Step. |
| `LedgerAccounts.FirstWriteIsKept` | backend/go/internal/ael/tx.go:207-236 | Rows already there stand, every key of the batch is present afterwards, and a new key holds the first entry that named it. |
| `LedgerAccounts.T2EffectsAreAllOrNothing` | backend/go/internal/ael/tx.go:131-236 | A committed completion leaves exactly the old keys and those of its batch, each entry under its own number and the Step it names or else the completed one; a new key holds payload and state of the first entry for it, committed when it reports no state; nothing is overwritten, and an aborted completion leaves no trace. |
| `LedgerAccounts.T2OwnsItsEffectsIff` | backend/go/internal/ael/tx.go:207-236 | Side-effect rows all belong to succeeded or failed Steps after a completion if and only if no entry of the batch names another Step that is neither. |
| `LedgerAccounts.RenewalSparesUntilExpiry` | backend/go/internal/ael/tx.go:262-319 | After a committed renewal every scan up to the new expiry leaves the leased or running row alone, and any later one returns it to pending. |
| `LedgerAccounts.SumCostUpdate` | backend/go/internal/ael/tx.go:162-201 | Changing one row changes the total cost of its Run by the difference and of no other Run. |
| `LedgerAccounts.T2KeepsSafe` | backend/go/internal/ael/tx.go:131-204 | Completing a running Step keeps hierarchy, retry chains, settled parents and accounts. |
| `LedgerAccounts.T1KeepsSafe` | backend/go/internal/ael/tx.go:51-112 | So does the lease mirror. |
| `LedgerAccounts.T4KeepsSafe` | backend/go/internal/ael/tx.go:291-319 | So does the expiry scan. |
| `LedgerAccounts.InsertRetryKeepsSafe` | backend/go/internal/ael/repository.go:697-733 | So does the retry of a failed leaf under a live Flow. |
| `LedgerAccounts.RetryOfLiveStepBreaksPaths` | backend/go/internal/flowscheduler/loop.go:389-396 | Retrying a Step that has not failed always breaks the retry chains. |
| `LedgerInvariants.TerminalFlowIsDone` | backend/go/internal/ael/service.go:241-273 | Every Step of a terminal Flow, leaf or not, is terminal. |
| `LedgerInvariants.TerminalStatesTell` | backend/go/internal/ael/service.go:241-304 | In every sound ledger a failed Flow has a failed or expired leaf, a cancelled one has a cancelled leaf and otherwise succeeded ones, a succeeded one succeeded leaves only; the same for Runs over their Flows. |
| `LedgerInvariants.StepMovesKeepShape` | backend/go/internal/ael/fsm.go:131-143 | Moving Steps along legal edges never unsettles a finalized Flow or Run. |
| `LedgerInvariants.FlowMoveKeepsShape` | backend/go/internal/ael/service.go:241-273 | A Flow may settle only on the verdict of its leaves, and doing so unsettles nothing above or below. |
| `LedgerInvariants.RunMoveKeepsShape` | backend/go/internal/ael/service.go:275-304 | The same for a Run over its Flows. |
| `LedgerInvariants.AppendStepKeepsShape` | backend/go/internal/ael/repository.go:697-733 | A new Step, original or retry of a failed leaf, under a live Flow keeps every finalized parent right. |
| `LedgerInvariants.NewStepKeepsShapeIff` | backend/go/internal/ael/service.go:104-115 | AddStep takes a Flow and, independently, a Run, and looks at the state of neither: the ledger keeps its shape if and only if the Run is the Flow's own and the Flow is not finalized. |
| `LedgerInvariants.NewFlowKeepsShapeIff` | backend/go/internal/ael/service.go:90-98 | The same for AddFlow under a Run. |
| `LedgerInvariants.FlowWriteKeepsShapeIff` | backend/go/internal/ael/repository.go:187-213 | A versioned write along a legal edge of a Flow keeps the shape if and only if it finishes the Flow with the verdict its leaves give at that moment, or does not finish it. |
| `LedgerInvariants.RunWriteKeepsShapeIff` | backend/go/internal/ael/repository.go:160-185 | The same for a Run over its Flows, whoever writes. |
| `Interleaving.ActMoves` | backend/go/internal/ael/tx.go:51-319 | Each transaction takes every row along a legal edge of its own table. |
| `Interleaving.NextIsLegal` | backend/go/internal/ael/repository.go:160-213 | With any number of clients between their read and their write, one action of anybody moves every row along a legal edge, and every open update whose version still matches is still legal. |
| `Interleaving.RunsAreSound` | backend/go/internal/ael/repository.go:160-213 | That holds in every state of every interleaving. |
| `Interleaving.HistoriesArePaths` | backend/go/internal/ael/fsm.go:29-143 | In every interleaving each row, step by step, follows a path in its state machine; its arm changes only while pending. |
| `Interleaving.RunsGoForward` | backend/go/internal/ael/repository.go:396-485 | Between any two points of any interleaving: versions only grow, equal versions mean equal states and arms, terminal states are absorbing, tokens never fall, budgets hold, side-effect rows are never rewritten. |
| `Interleaving.WriteMovesIffLegal` | backend/go/internal/ael/repository.go:160-213 | A write whose version matches moves its row along the state machine if and only if its edge is legal: the version alone guards nothing, the check at the read does. |
| `Interleaving.HonestNextOwnsEffects` | backend/go/internal/ael/tx.go:131-236 | One action of anybody keeps every side-effect row with a completed Step, as long as batches name their own Step or none. |
| `Interleaving.HonestRunsOwnTheirEffects` | backend/go/internal/ael/tx.go:131-236 | That holds in every state of every interleaving of such writers. |
| `Finalization.AddStepKeepsShapeIff` | backend/go/internal/ael/service.go:104-115 | Adding a Step, with any ids at all, keeps the shape if and only if Flow and Run exist, belong together and the Flow is live. |
| `Finalization.AddRetryKeepsShapeIff` | backend/go/internal/ael/repository.go:697-733 | Inserting a retry keeps the shape if and only if the copy is right about its parent and the parent is a failed leaf of a live Flow. |
| `Finalization.AttemptKeepsShapeIff` | backend/go/internal/ael/repository.go:160-213 | An optimistic update keeps the shape if and only if it fails its check, finishes nothing, or finishes with the verdict of the moment. |
| `Finalization.NextKeepsShapeIff` | backend/go/internal/ael/service.go:241-304 | With count, lookup and write as separate actions and anybody in between: one action keeps finalized parents right if and only if it is harmless where it happens, a finishing write being judged at the write and not at the count. |
| `Finalization.ShapeThroughoutIff` | backend/go/internal/ael/service.go:241-304 | Over whole interleavings: every state is in shape if and only if every action was harmless. |
| `Finalization.CountHoldsOn` | backend/go/internal/ael/service.go:241-273 | What was counted stays true through any legal moves as long as no row is added below the parent. |
| `Finalization.RespectfulRunsStayInShape` | backend/go/internal/ael/service.go:241-304 | As long as nobody adds below a parent somebody has counted and not yet finished, every finalization in every interleaving writes the truth. |
| `Finalization.StepArrivalDefeatsFinalization` | backend/go/internal/ael/service.go:241-273 | The proviso is needed: in any ledger, a Step added to a finished, still running Flow between count and write is passed over, because it leaves the version of its Flow alone. |
| `Finalization.FlowArrivalDefeatsFinalization` | backend/go/internal/ael/service.go:275-304 | The same for a Flow added to a Run. |
| `Services.Service.EnsureRunRunning` | backend/go/internal/ael/service.go:71-85 | Unless the call failed a pending Run is running afterwards and any other is as it was; a lost race counts as success; the ledger stays safe. |
| `Services.Service.EnsureFlowRunning` | backend/go/internal/ael/service.go:196-238 | Unless a call failed a pending or assigned Flow is running afterwards, a pending one on the node given, and any other is as it was; both hops keep the ledger safe. |
| `Services.Service.TryFinalizeFlow` | backend/go/internal/ael/service.go:241-273 | With nobody in between, finalizes if and only if all leaves are terminal and the Flow is not: as failed if a leaf failed or expired, else cancelled if one was cancelled, else succeeded; otherwise changes nothing. |
| `Services.Service.TryFinalizeRun` | backend/go/internal/ael/service.go:275-304 | The same for a Run over its Flows. |
| `Services.Service.TransitionRun` | backend/go/internal/ael/service.go:184-190 | A Run moved by hand: which moves are accepted, and that the shape survives if and only if a terminal target is the verdict of finished Flows. |
| `Services.Service.CancelStep` | backend/go/internal/ael/service.go:153-161 | Cancels exactly when the state machine allows it. |
| `Services.VerdictIsNeverRefused` | backend/go/internal/ael/service.go:241-304 | Where started work has started parents, the verdict of a finished Flow or Run is always a legal target. |
| `StepLease.AcquireKeepsValid` | backend/go/internal/stepLease/memory.go:36-63 | A grant is given only when the previous one has ended, so grants of one Step stay apart. |
| `StepLease.RunsStayValid` | backend/go/internal/stepLease/memory.go:36-160 | Every state reachable by any calls with any handles and any delays keeps grants apart and superseded handles out. |
| `StepLease.OneOwnerAtATime` | backend/go/internal/stepLease/memory.go:36-160 | In every run, at every instant, at most one grant ever made for a Step confers ownership. |
| `StepLease.StaleHandleIsPowerless` | backend/go/internal/stepLease/memory.go:65-103 | A superseded handle can neither extend nor release anything. |
| `StepLease.LiveGrantIsUndisturbed` | backend/go/internal/stepLease/memory.go:36-160 | Until a live grant ends, no call of anybody else and no late timer changes it. |
| `StepLease.AcquireGrantsIff` | backend/go/internal/stepLease/memory.go:36-63 | A lease is granted if and only if the store is open and nobody owns the Step at that instant; the grant then owns it from the second clock reading for the time to live. |
| `StepLease.OwnerCanRenew` | backend/go/internal/stepLease/memory.go:65-86 | The current handle can renew as long as its lease has not run out, and then owns the Step from the start of the grant to the new expiry, and no longer. |
| `StepLease.ReleaseFrees` | backend/go/internal/stepLease/memory.go:88-103 | After a release by the current handle nobody owns the Step from that moment on. |
| `StepLease.ExpireDropsIff` | backend/go/internal/stepLease/memory.go:146-160 | A timer drops a holder exactly when its lease has run out, and no other. |
| `StepLease.LapsedStaysLapsed` | backend/go/internal/stepLease/memory.go:36-160 | Once the clock has been read past the end of a grant, no sequence of calls makes it own anything again. |
| `MemoryLeases.MemoryLease.Acquire` | backend/go/internal/stepLease/memory.go:36-63 | Granted if and only if the store is open and nobody owns the Step; the handle is fresh and current. The method on the holders map does what the specification says. |
| `MemoryLeases.MemoryLease.Keepalive` | backend/go/internal/stepLease/memory.go:65-86 | A current handle whose lease has not run out is renewed and owns the Step up to the new expiry; one whose lease has run out changes neither grants nor holders; the handle learns the new expiry only on success. |
| `MemoryLeases.MemoryLease.Release` | backend/go/internal/stepLease/memory.go:88-103 | A current handle frees the Step: nobody owns it afterwards; a stale handle releases nothing. |
| `MemoryLeases.MemoryLease.Expire` | backend/go/internal/stepLease/memory.go:146-160 | A timer removes and announces the holder exactly when its lease has run out. |
| `MemoryLeases.MemoryLease.Close` | backend/go/internal/stepLease/memory.go:129-144 | Drops every holder and refuses later grants. |
| `Recovery.ScanRecoversEveryHeldStep` | backend/go/internal/ael/tx.go:291-319 | Any leased or running row is returned to pending by a scan later than the expiry of its last grant. |
| `Recovery.AcquireExtends` | backend/go/internal/flowscheduler/loop.go:43-52 | Acquiring never shortens a last grant, so mirrored expiries stay no later than granted ones. |
| `Recovery.KeepaliveExtends` | backend/go/internal/flowscheduler/loop.go:433-468 | The same for a renewal, before and after its mirror is written. |
| `Recovery.LettingGoExtends` | backend/go/internal/stepLease/memory.go:88-103 | The same for release and timers. |
| `Recovery.LiveRowIsLeaf` | backend/go/internal/flowscheduler/loop.go:403-421 | A row that has not failed has not been retried. |
| `Recovery.OverBudgetStrandsIff` | backend/go/internal/flowscheduler/loop.go:92-103 | Cancelling for want of budget leaves the Flow as it should be if and only if some other leaf of it was unfinished before. |
| `Recovery.UnfinishedEnds` | backend/go/internal/flowscheduler/loop.go:204-212 | An exit that leaves its Step unfinished owes its parents nothing: the Flow cannot be finished. |
| `Recovery.RenewalKeepsEnds` | backend/go/internal/flowscheduler/loop.go:433-468 | A keepalive still ticking after the outcome undoes none of it. |
| `RetryPolicy.PermanenceSurvivesWrapping` | backend/go/internal/flowscheduler/retry.go:72-90 | A permanent reason stays permanent whatever text is wrapped around it. |
| `RetryPolicy.RetriedIffTransient` | backend/go/internal/flowscheduler/retry.go:54-90 | A failure is retried if and only if retry_count is below the limit and the reason spells none of the five texts at any place, in whatever case. |
| `Schedulers.Scheduler.Meanwhile` | backend/go/internal/flowscheduler/loop.go:433-468 | Any number of keepalive rounds and timers during a dispatch change nothing but one mirrored expiry and keep every invariant. |
| `Schedulers.Scheduler.PropagateTerminal` | backend/go/internal/flowscheduler/loop.go:254-275 | When no call fails, finished work has finished parents afterwards; the hierarchy stays settled in any case. |
| `Schedulers.Scheduler.CompleteStep` | backend/go/internal/flowscheduler/loop.go:280-291 | Completion as the scheduler sees it: exactly when it commits, what it changes, and that all invariants survive. |
| `Schedulers.Scheduler.EnqueueRetryIfApproved` | backend/go/internal/flowscheduler/loop.go:403-421 | When no call fails, a retry exists afterwards if and only if an attempt is left and the reason names none of the five permanent texts, and never otherwise; chains survive if and only if the parent really has failed. |
| `Schedulers.Scheduler.HandleExecutorFailure` | backend/go/internal/flowscheduler/loop.go:389-396 | The Step ends failed with this reason and no amounts, or a call failed; when none did it is retried if and only if an attempt is left and the reason is transient; the dropped completion error is reported as `swallowed` exactly when a retry was still created, and that is the one case in which the chains break. |
| `Schedulers.Scheduler.SelectArmIfNeeded` | backend/go/internal/flowscheduler/loop.go:347-383 | A pinned provider bypasses selection; otherwise the arm is recorded, or the Step is cancelled and its parents settled, or the lease is given back. |
| `Schedulers.Scheduler.FailUnroutable` | backend/go/internal/flowscheduler/loop.go:499-515 | Cancels rather than fails the Step, releases, and settles the parents. |
| `Schedulers.Scheduler.RefuseAssignment` | backend/go/internal/flowscheduler/loop.go:124-133 | The Step fails without having run and without retry; parents settle. |
| `Schedulers.Scheduler.Commit` | backend/go/internal/flowscheduler/loop.go:188-249 | Reported outcome, release, retry or finalization: commits, when no call fails, if and only if the ledger can take the report; then the row carries its amounts and reason and its side effects are inserted, and a failed one is retried if and only if an attempt is left and the reason is transient; otherwise the side effects are untouched. |
| `Schedulers.Scheduler.RunStep` | backend/go/internal/flowscheduler/loop.go:135-249 | From a running Step to the end of the dispatch, for any executor: the same, with the commit condition read off the ledger it started from. |
| `Schedulers.Scheduler.DispatchStep` | backend/go/internal/flowscheduler/loop.go:43-249 | For every exit: the state the Step is left in, the lease released, only this Step, its Flow and its Run changed, one retry row at most, the hierarchy intact unless a failure was swallowed; when no call failed, a report committed if and only if the ledger could take it and parents finalized, over budget if and only if other work was left. A failed Step is retried if and only if an attempt is left and its reason is transient; the exit over budget is taken only on a Run with a limit that the estimate exceeds. A committed report is recorded with its amounts and side effects, no other exit touches the side effects; no lease only if somebody held one; every dispatch enters the history. |
| `Schedulers.Scheduler.RunWithInstance` | backend/go/internal/flowscheduler/loop.go:80-249 | From the lease mirror to the outcome: only on a Run with a limit that the estimate exceeds is the Step cancelled as over budget, and its Flow is then stranded if and only if it had no other work. |
| `Schedulers.AttemptsAreCounted` | backend/go/internal/flowscheduler/loop.go:389-421 | An original Step that fails in passing each time is dispatched exactly MaxRetries + 1 times when no call fails: every attempt before that is followed up, and that one is not. |
| `Schedulers.Scheduler.AcquireLease` | backend/go/internal/flowscheduler/loop.go:43-52 | No lease only if the store is closed or somebody owns the Step at the time; a lease only if nobody does. |
| `Schedulers.Scheduler.DispatchStrands` | backend/go/internal/flowscheduler/loop.go:43-249 | The list of finished but unfinalized Flows loses the Flow dispatched, or gains it exactly when its last work was cancelled over budget. |
| `Schedulers.Scheduler.Poll` | backend/go/internal/flowscheduler/loop.go:22-38 | The oldest pending Steps of the tenant in order, and as many as there is room for. |
| `Schedulers.Scheduler.DispatchAll` | backend/go/internal/flowscheduler/loop.go:22-38 | The listed Steps are dispatched one after another, each once, with the history to show for it. |
| `Schedulers.Scheduler.Tick` | backend/go/internal/flowscheduler/loop.go:22-38 | When no call fails, a poll dispatches exactly the oldest pending Steps. Over its stretch of the history, the dispatches that finished a Step are as many as the Steps newly finished in the tables, no Flow is stranded but those whose last work a dispatch in it cancelled over budget, and no lease is missed if none was held. |
| `Schedulers.Scheduler.ExpiryScan` | backend/go/internal/flowscheduler/scheduler.go:268-280 | After a scan every held Step whose last grant has run out is pending again. |
| `Schedulers.Scheduler.Run` | backend/go/internal/flowscheduler/scheduler.go:223-266 | Over polls, scans and timers in any order, with Runs, Flows and Steps arriving and Runs started by hand between them: the ledger stays sound, or a failure was swallowed and the hierarchy is broken. The dispatches in the history that finished a Step are as many as the Steps newly finished in the tables and at most originals times (MaxRetries + 1); without failed calls every finished Flow has a finished Run and every Flow without unfinished leaves is finished, except those that were not before and those whose last work a dispatch in the history cancelled over budget; started with no lease held, no dispatch goes without one. |
| `Schedulers.Scheduler.EmptyLedgerIsReady` | backend/go/internal/flowscheduler/scheduler.go:139-178 | Everything a run needs holds of an empty ledger and an empty lease store, so the invariants are about reachable states. |
| `Termination.DispatchSpendsPotential` | backend/go/internal/flowscheduler/retry.go:54-65 | A dispatch that finishes its Step lowers the sum of remaining attempts by at least one, retry or not. |
| `Termination.DispatchFinishes` | backend/go/internal/flowscheduler/loop.go:43-249 | The number of finished Steps in the tables grows by one if a dispatch finishes its Step and not at all otherwise. |
| `Termination.LiveRowsFewerThanOriginals` | backend/go/internal/ael/repository.go:697-733 | There is at most one unfinished row per original Step. |
| `Termination.PotentialIsBounded` | backend/go/internal/flowscheduler/retry.go:54-65 | N original Steps have at most N times (MaxRetries + 1) attempts ahead of them. |
| `Termination.SettlingStrandsNobody` | backend/go/internal/flowscheduler/loop.go:254-275 | A dispatch that settles its own Flow takes it off the list of stranded Flows, adds none, and keeps finished Flows below finished Runs. |
| `Termination.CancellingStrandsIff` | backend/go/internal/flowscheduler/loop.go:92-103 | The exit over budget adds its Flow to that list if and only if there was no other work left in it. |
| `Termination.OverBudgetStrandsAFlow` | backend/go/internal/flowscheduler/loop.go:92-103 | A sound ledger with nothing stranded in which it happens. |
| `Termination.ScanStrandsNobody` | backend/go/internal/ael/tx.go:291-319 | The expiry scan leaves that list as it is. |
| `Termination.HopelessForever` | backend/go/internal/ael/tx.go:162-201 | A Step whose report exceeds a non-zero budget can be leased, started, refused and recovered any number of times, spending no attempt and never finishing. |
| `Termination.SucceededRunSucceededThroughout` | backend/go/internal/ael/service.go:275-304 | In a Run finalized as succeeded every Flow and every leaf Step has succeeded. |
| `Cursors.CursorRoundTrip` | backend/go/internal/realtime/events.go:176-192 | Parsing an issued cursor gives back the number for every uint64, and fails beyond. |
| `Cursors.CursorsSortLikeNumbers` | backend/go/internal/realtime/events.go:176-178 | String order of issued cursors is numeric order. |
| `Cursors.LenientCursor` | backend/go/internal/realtime/events.go:180-192 | What else is accepted: blanks before the digits, missing padding, any text after the last digit; out of range is an error. |
| `Cursors.ParsedCursorsAreLenient` | backend/go/internal/realtime/events.go:180-192 | And nothing further: every accepted cursor is empty or of that form. |
| `Cursors.PaddedDenotes` | backend/go/internal/realtime/events.go:176-178 | Twenty digits that denote the number. |
| `Events.KeysTellStreamsApart` | backend/go/internal/realtime/service.go:262-275 | Two snapshots in whose keys no id but the last contains a colon share a key if and only if they are of one stream. |
| `Events.KeyIsOwnIff` | backend/go/internal/realtime/service.go:262-275 | No snapshot of another stream shares the key of this one if and only if none of the ids the key joins holds a colon, or there is only one. |
| `Events.JoinTwin` | backend/go/internal/realtime/service.go:262-275 | A colon in one of several joined ids: another list of ids joins to the same key. |
| `Events.MatchingConcat` | backend/go/internal/realtime/service.go:131-156 | Filtering distributes over consecutive stretches of the log. |
| `Events.MatchingMembers` | backend/go/internal/realtime/service.go:145-155 | Filtering keeps exactly the matching events. |
| `Events.LastMatch` | backend/go/internal/realtime/service.go:113-117 | The cursor of the last event handed over lies in the log and nothing after it matches. |
| `Events.ResumeIsSeamless` | backend/go/internal/realtime/service.go:98-117 | Reconnecting at the last event received yields, together with what was received, exactly the matching log: no gap and no duplicate. |
| `Events.IndexFollowsLog` | backend/go/internal/realtime/service.go:47-54 | The index keeps holding, for each key, the last snapshot ever published under it, also after its event was trimmed from the history. |
| `Events.IndexedIsCurrent` | backend/go/internal/realtime/service.go:158-164 | The events in the index are exactly those log events no later snapshot replaces. |
| `Events.CurrentIsLastOfStream` | backend/go/internal/realtime/service.go:47-49 | Where no id but the last holds a colon, the current snapshots are those of the five snapshot names that no later snapshot of the same workspace and channel, terminal or member replaced. |
| `Events.SnapshotIsUnique` | backend/go/internal/realtime/service.go:158-178 | Only one strictly increasing list has given members, so map order cannot show. |
| `Realtime.RemembersOneMore` | backend/go/internal/realtime/service.go:41-54 | After trimming, the history is again the last min(capacity, published) events of the log. |
| `Realtime.SortSorts` | backend/go/internal/realtime/service.go:165-176 | Sorting by sequence gives a strictly increasing list of the same events. |
| `Realtime.ToSet` | backend/go/internal/realtime/service.go:190-205 | The set of the non-empty values. |
| `Realtime.FilterKeepsRequest` | backend/go/internal/realtime/service.go:180-251 | The filter made from a request lets an event through if and only if it is of the workspace named, of a family listed by one of that family's event names, and of a listed channel, terminal and member, where unnamed and empty lists restrict nothing. |
| `Realtime.Subscription.ReceivesWhatItAskedFor` | backend/go/internal/realtime/service.go:56-120 | At any time everything a subscriber was handed or sent is what it asked for; its channel holds every such event since it joined, in order, and a replay subscriber every such event after its cursor. |
| `Realtime.Subscription.Offer` | backend/go/internal/realtime/service.go:56-61 | The event is sent if and only if the request asks for it; either way the subscriber stays in step with the log, its delivered mark on its last event. |
| `Realtime.Subscription.Ack` | backend/go/internal/realtime/subscription.go:42-52 | Accepts exactly well-formed cursors up to the delivered mark; the acknowledged mark never passes the delivered one. |
| `Realtime.Hub.Publish` | backend/go/internal/realtime/service.go:37-64 | The log grows by the numbered event; it is sent to exactly the live subscribers whose request asks for it, replaces a snapshot exactly when its name is one of the five, and every replay subscriber still holds all it asked for after its cursor. |
| `Realtime.Hub.Deliver` | backend/go/internal/realtime/service.go:56-61 | The loop over subscribers, in any order, brings each of them up to the log. |
| `Realtime.Hub.ReplayEvents` | backend/go/internal/realtime/service.go:131-156 | Ahead of the head, outside the window, or exactly the matching log after the cursor. |
| `Realtime.Hub.SnapshotEvents` | backend/go/internal/realtime/service.go:158-178 | The current matching snapshots by strictly increasing sequence. |
| `Realtime.Hub.Subscribe` | backend/go/internal/realtime/service.go:72-120 | Which cursor leads to which mode, error or resync, both ways; the events handed over are, in order, exactly those the request asks for among the log after the cursor in replay mode and among the current snapshots otherwise; the subscription starts in step with the log. |
| `Realtime.Hub.Unsubscribe` | backend/go/internal/realtime/service.go:122-129 | Removes and closes exactly a registered subscription. |
| `TerminalCursor.ChunkIsByteByByte` | backend/go/internal/session/actor.go:294-301 | The modular chunk update equals a terminal that moves byte by byte. |
| `TerminalCursor.ChunkingIsInvisible` | backend/go/internal/session/actor.go:294-301 | Advancing by a and then b is advancing by a followed by b. |
| `TerminalCursor.CursorFollowsBuffer` | backend/go/internal/session/actor.go:213-226 | The cursor is always newline count and length after the last newline of the whole buffer, modulo 2^16. |
| `TerminalCursor.LastNewline` | backend/go/internal/session/actor.go:296 | The position of the last newline, or -1 when there is none. |
| `Sessions.RetainsOneMore` | backend/go/internal/session/actor.go:234-237 | The window is the last min(256, n) outputs with consecutive sequence numbers, each with the cursor of its day. |
| `Sessions.ResumeCompletesBuffer` | backend/go/internal/session/actor.go:281-292 | The first outputs a client has followed by the deltas since are the whole buffer. |
| `Sessions.LaterIsTransitive` | backend/go/internal/session/actor.go:303-313 | Moving forward (status rank and outputs only grow, a frozen session never changes) composes. |
| `Sessions.Actor.Live` | backend/go/internal/session/actor.go:94-313 | Over any sequence of calls, outputs and ends: status and outputs only move forward, an ended session stays as it is, and the outputs are those printed before the first end. |
| `Sessions.Actor.Attach` | backend/go/internal/session/actor.go:94-125 | Snapshot of the whole buffer; from any cursor in the window the deltas complete it with consecutive sequence numbers, and a gap shows exactly when the cursor has left the window; blank subscribers are refused. |
| `Sessions.Actor.CollectDeltas` | backend/go/internal/session/actor.go:281-292 | Exactly the retained deltas after the cursor, relabelled. |
| `Sessions.Actor.WriteInput` | backend/go/internal/session/actor.go:127-142 | Refused exactly when there is input and the session is frozen; starts a starting or attached session; never touches the outputs. |
| `Sessions.Actor.HandleOutput` | backend/go/internal/session/actor.go:213-238 | Appends one output and sets running, keeping buffer, cursor, sequence and window in step; after the end it changes nothing. |
| `Sessions.Actor.HandleExit` | backend/go/internal/session/actor.go:257-267 | Ends a live session with the exit given; a second end changes nothing. |
| `Sessions.Actor.HandleError` | backend/go/internal/session/actor.go:269-279 | Ends a live session in error with the message as its signal. |
| `Sessions.Actor.Close` | backend/go/internal/session/actor.go:173-184 | The session is over afterwards; an earlier exit record is kept. |
| `Fleets.TargetIsUnique` | backend/go/internal/node/service.go:322-340 | At most one node is the placement target: listing order does not matter. |
| `Fleets.TargetDecided` | backend/go/internal/node/service.go:322-340 | There is no target if and only if no online node other than the excluded one can accept an agent. |
| `Fleets.SettleConserves` | backend/go/internal/node/service.go:288-309 | Placing agents one by one, each is housed or left waiting and nobody else is. |
| `Fleets.SettleKeepsPlaced` | backend/go/internal/node/service.go:288-309 | No agent twice, none on two nodes, no bound exceeded, after any number of placements. |
| `Fleets.PlaceKeepsPlaced` | backend/go/internal/node/service.go:135-147 | Placing an unhoused agent where there is room keeps the fleet well placed. |
| `Migrations.MigrationHouses` | backend/go/internal/node/service.go:267-320 | Exactly who is housed after migrating any record, stale or not. |
| `Migrations.MigrationConserves` | backend/go/internal/node/service.go:267-320 | Migrating the stored record keeps every agent, each on exactly one node and within all bounds. |
| `Migrations.StaleMigrationConservesIff` | backend/go/internal/node/service.go:253-265 | Migrating a stale record keeps every agent if and only if the stored record names the same agents. |
| `Migrations.NoTargetIffFull` | backend/go/internal/node/service.go:322-340 | No target if and only if no node is unbounded and the free places of the others sum to zero. |
| `Migrations.MigrationFillsRoom` | backend/go/internal/node/service.go:267-320 | The agents left behind number max(0, agents - room), none if some online node is unbounded, and are the last ones of the list. |
| `Migrations.MigrationIsLevel` | backend/go/internal/node/service.go:267-340 | Every node that received an agent carries at most one more than any online node still with room. |
| `Migrations.SettleIsLevel` | backend/go/internal/node/service.go:322-340 | The same after every single placement. |
| `Migrations.TurnLosesTheGains` | backend/go/internal/node/service.go:253-265 | One turn of a sweep loses exactly the agents its record had gained since the listing. |
| `Migrations.SweepConservesIff` | backend/go/internal/node/service.go:253-265 | A whole sweep keeps every agent if and only if no node it sweeps had gained one by its turn; it always leaves the fleet well placed. |
| `Migrations.SweepMarksTheQuiet` | backend/go/internal/node/service.go:253-265 | A sweep turns exactly the listed online nodes without a heartbeat in time offline, and changes nothing else about any node but who sits on it. |
| `Sweeps.SettleSparesDueIff` | backend/go/internal/node/service.go:288-309 | Placing agents gives none to a due node if and only if, in front of every due node that could take one, the others have places for all of them. |
| `Sweeps.CurrentIffRoomAhead` | backend/go/internal/node/service.go:253-265 | Every record is current at its turn if and only if there was room ahead of every due node in the fleet and listing the sweep began with. |
| `Sweeps.SweepConservesIffRoom` | backend/go/internal/node/service.go:253-265 | A sweep keeps every agent if and only if, in front of every due node that could take an agent, the nodes not due have places for all the agents of the due nodes listed before it. |
| `Sweeps.IdleExpiriesAreSafe` | backend/go/internal/node/service.go:253-265 | In particular when, of any two due nodes, the earlier carries nothing or the later can take nothing. |
| `Migrations.SweepCanLoseAnAgent` | backend/go/internal/node/service.go:253-265 | Two nodes expiring together: a concrete fleet in which an agent vanishes. |
| `NodeServices.HeadIsLightest` | backend/go/internal/node/service.go:333-339 | The head of the sorted candidates has fewest agents, ties going to the smallest id. |
| `NodeServices.SelectPlacementTarget` | backend/go/internal/node/service.go:322-340 | Over any listing of the fleet, the fleet's unique target, or none if nobody is eligible. |
| `NodeServices.RemoveUndoesPlace` | backend/go/internal/node/service.go:190-197 | Removing an agent just assigned gives back the fleet of before. |
| `NodeServices.RemovedKeepsPlaced` | backend/go/internal/node/service.go:179-215 | A removal takes away exactly that agent. |
| `NodeServices.RegistrationPlacedIff` | backend/go/internal/node/service.go:41-69 | A registration keeps the fleet well placed if and only if what it brings along fits: distinct agents, within its bound, on no other node. |
| `NodeServices.NodeService.Register` | backend/go/internal/node/service.go:41-69 | Refused for a blank id, a blank hostname or an unknown type, in that order, then for a hostname if and only if another node has it; otherwise the record is stored as online. |
| `NodeServices.NodeService.Deregister` | backend/go/internal/node/service.go:72-83 | Removes the record, or reports that there is none. |
| `NodeServices.NodeService.Heartbeat` | backend/go/internal/node/service.go:86-96 | Sets the time and brings the node back online. |
| `NodeServices.NodeService.AssignAgent` | backend/go/internal/node/service.go:111-153 | Which error when, in order; idempotent; at success the agent is there and nowhere else. |
| `NodeServices.NodeService.AutoAssignAgent` | backend/go/internal/node/service.go:157-175 | Refused only without an id or when no online node has room; otherwise the agent goes behind those of a node with room that no other node with room undercuts, or stays where it is. |
| `NodeServices.NodeService.RemoveAgent` | backend/go/internal/node/service.go:179-215 | Which error when; the filtering loop removes exactly the agent. |
| `NodeServices.NodeService.MigrateAgentsFromOfflineNode` | backend/go/internal/node/service.go:267-320 | The loops over a local listing and the saves amount to the migration function on the stored fleet. |
| `NodeServices.NodeService.ScanOfflineNodes` | backend/go/internal/node/service.go:253-265 | Exactly the online nodes not heard of for more than 90 seconds go offline; the sweep over a listing taken at its start keeps every agent if and only if that listing and fleet had room ahead of every due node. |
| `Placements.NextKeepsPlacedIff` | backend/go/internal/node/service.go:111-153 | With finding, listing and saving as separate actions of any number of calls: one action keeps every agent at most once and every bound if and only if the record a save writes fits the fleet it meets. |
| `Placements.PlacedThroughoutIff` | backend/go/internal/node/service.go:111-215 | Over whole interleavings: always well placed if and only if every save fitted the fleet it met. |
| `Placements.SaveLosesNobodyIff` | backend/go/internal/node/service.go:140-152 | A save loses nobody if and only if it names everybody the stored record names. |
| `Placements.UndisturbedAssignment` | backend/go/internal/node/service.go:111-153 | A call whose record is as it was found and whose agent is still nowhere fits, and houses exactly that agent in addition. |
| `Placements.OneAgentOnTwoNodes` | backend/go/internal/node/service.go:125-152 | In any fleet, one agent assigned to two nodes at a time ends up on both. |
| `Placements.FirstOfTwoIsOverwritten` | backend/go/internal/node/service.go:115-152 | In any fleet, of two agents assigned to one node at a time the first is overwritten. |
| `Arms.RecordedTallies` | backend/go/internal/cws/stats.go:59-75 | Recording keeps each row the fold of the rewards of its arm, and keeps arms without rewards absent. |
| `Arms.SquaresDominate` | backend/go/internal/cws/arm.go:65-71 | Pulls times sum of squares is at least the square of the sum. |
| `Arms.StatisticsAreSane` | backend/go/internal/cws/arm.go:55-71 | Every mean lies in [0, 1] and every variance in [0, 1/4]. |
| `Arms.MomentsOf` | backend/go/internal/cws/arm.go:55-71 | Mean times pulls is the sum of the rewards recorded for the arm; variance times pulls squared is what pulls times their squares exceed the square of that sum by. |
| `Rewards.RewardIsRecordable` | backend/go/internal/cws/reward.go:53-143 | Whatever parameters and outcome, the reward lies in [0, 1] and never exceeds the cost-blind one. |
| `Rewards.CheaperIsNoWorse` | backend/go/internal/cws/reward.go:115-132 | At equal quality a cheaper Step is never rewarded less. |
| `Rewards.UncostedReward` | backend/go/internal/cws/reward.go:115-121 | Without weight, baseline or cost the model collapses to the base reward. |
| `Rewards.RewardInFull` | backend/go/internal/cws/reward.go:53-143 | Without costs to weigh the reward is the signal up to 1 on a verified Verifiable arm and otherwise 1 for a success and 0 for a failure; else it is the share of that which the baseline leaves after the weighted cost, the cost counting up to the baseline, and never below 0. |
| `Rewards.BetterIsNoWorse` | backend/go/internal/cws/reward.go:53-143 | At equal cost, under any model, a success never earns less than a failure nor a higher signal less than a lower one. |
| `Rewards.SumCountsSuccesses` | backend/go/internal/cws/reward.go:53-77 | Over any rounds without costs and signals, the rewards of an arm sum to the number of its successes. |
| `Rewards.MeanIsSuccessRate` | backend/go/internal/cws/arm.go:55-62 | Then the mean an arm is judged by is its rate of success. |
| `Selectors.PickByUCB` | backend/go/internal/cws/ucb.go:35-55 | No arm scores above the winner and every earlier one scores below; the ranking lists each arm with its score. |
| `Selectors.UnpulledFirst` | backend/go/internal/cws/ucb.go:20-55 | While some arm has never been pulled, the winner is the first such arm. |
| `Selectors.WinnerIsUnbeaten` | backend/go/internal/cws/ucb.go:16-55 | Among arms pulled equally often none has a higher mean than the winner; among equal means none has fewer pulls, when the exploration term falls with every pull. |
| `Selectors.TotalPullsAdd` | backend/go/internal/cws/ucb.go:39-42 | The total told to the exploration term is the sum over all candidates. |
| `Selectors.RankedNeedNotDescend` | backend/go/internal/cws/selector.go:14-22 | An unpulled arm behind a pulled one outscores it, so the list in candidate order need not descend. |
| `Selectors.FirstPicksInOrder` | backend/go/internal/cws/selector.go:81-126 | In any alternation of picks and rewards over K distinct arms without history, the first K picks take them one after the other. |
| `Selectors.MemoryStats.LoadArms` | backend/go/internal/cws/stats.go:43-56 | The row of each candidate, or an unpulled arm. |
| `Selectors.MemoryStats.RecordReward` | backend/go/internal/cws/stats.go:59-75 | Accepted exactly within [0, 1]; the row is created if needed and updated; the table stays the fold of the history. |
| `Selectors.StaticCatalog.Candidates` | backend/go/internal/cws/catalog.go:50-71 | The compatible arms in catalog order, as often as they are declared, wildcards filled in. |
| `Selectors.UCBSelector.Pick` | backend/go/internal/cws/selector.go:81-116 | Invalid regime, no compatible arm, or the first of the candidates in catalog order that no other outscores; the ranked list holds each candidate with its statistics and score, in that order. |
| `Selectors.CandidatesAreLegal` | backend/go/internal/cws/catalog.go:50-71 | The candidates of a request are exactly the compatible arms under the class and regime asked for. |
| `Selectors.CandidatesInOrder` | backend/go/internal/cws/catalog.go:50-71 | The candidates stand for exactly the compatible places of the catalog, each once and in catalog order. |
| `Selectors.UCBSelector.Play` | backend/go/internal/cws/selector.go:81-126 | Picking and rewarding in turn over distinct arms without history goes through the candidates one after the other, whatever comes of each. |
| `Selectors.UCBSelector.Reward` | backend/go/internal/cws/selector.go:120-126 | A reward computed by either model is never rejected; without costs to weigh a success is recorded as 1 and a failure as 0, or the signal up to 1 where there is one. |

## Left out

- Services.Service.TryFinalizeFlow: takes count, lookup and write as undisturbed;
  what may come between them, and what that does, is stated in `Finalization`.
- Services.Service.TryFinalizeRun: the same.
- Schedulers.Scheduler.Run: work arrives, and Runs are started by hand, between
  polls, scans and timers, not inside a dispatch, and only with a Flow and Run that
  belong together under live parents (`NewStepKeepsShapeIff` and `Finalization` say
  what happens otherwise). Runs ended by hand are in `TransitionRun` and
  `Finalization`, not among the events of `Run`. The account stops at the first
  swallowed failure, and shutdown in the middle of a dispatch is not modelled.
- Interleaving of a second scheduler inside a dispatch: the scheduler view has one
  loop, as scheduler.go runs it, with keepalive and timers inside a dispatch;
  several writers are covered at the level of ledger actions in `Interleaving` and
  `Finalization`.
- A call that commits but whose acknowledgement is lost: `Fault` means nothing
  changed.
- Keepalive timing: the number of rounds and their position are arbitrary during
  execution and on both sides of the release; time-outs of the executor are one of
  its arbitrary outcomes.
- Schedulers.Scheduler.RunStep: verifier, rewards, metrics and instance hand-back
  around it are not modelled, since they do not reach the ledger.
- Ledger columns nothing modelled decides on: regime, workload class, event stream,
  input and output references, durations, timestamps. Row ids are positions.
- INT and NUMERIC(12,6) overflow and rounding in the ledger; amounts are unbounded
  integers and reals.
- The foreign keys and unique keys other than those named above, SQL text,
  migrations, pgx, the etcd lease store, JSON files.
- RetryPolicy.PermanenceSurvivesWrapping: lower-casing covers ASCII letters only.
- RetryPolicy.RetriedIffTransient: the same.
- Realtime.Hub.Publish: the wrap of the uint64 sequence after 2^64 - 1 events is
  outside its precondition; subscriber channels never fill up.
- Cursors.LenientCursor: blanks are the ASCII ones, not every Unicode space.
- Sessions.Actor.Attach: blank subscriber ids are those of ASCII blanks; sequence
  numbers do not wrap. Published terminal events, intelligence modules and the PTY
  process are not modelled.
- NodeServices.NodeService.AssignAgent: each call is atomic here; `Placements` has
  assignments, removals, heartbeats and deregistrations in between, but no
  migrations or registrations. Labels, events and I/O errors of the store are not
  modelled.
- Selectors.PickByUCB: floating-point rounding, infinities other than the score of
  an unpulled arm, and the shape of the exploration term.
- Rewards.RewardInFull: costs and signals are reals, never NaN or infinite.
- Selectors.FirstPicksInOrder: requires distinct candidates; a catalog holding both
  a wildcard and a specific row for one arm offers it twice.
- Task queue, message outbox, project data, authorization, presence, plugins,
  settings, token aggregation, vector search and the user interface: easy members
  or no property that holds.
