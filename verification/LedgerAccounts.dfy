/** Money, tokens and side effects: what a completion does to them. */
module LedgerAccounts {
  import opened Options
  import opened Fsm
  import opened Ledger
  import opened LedgerInvariants

  function CostIn(s: Step, run: Id): real { if s.runId == run then s.costUsd else 0.0 }

  lemma {:induction false} SumCostUpdate(steps: seq<Step>, i: Id, row: Step, run: Id)
    requires i < |steps|
    ensures SumCost(steps[i := row], run) == SumCost(steps, run) - CostIn(steps[i], run) + CostIn(row, run)
    decreases |steps|
  {
    var n := |steps| - 1;
    if i == n {
      assert steps[i := row][..n] == steps[..n];
    } else {
      assert steps[i := row][..n] == steps[..n][i := row];
      SumCostUpdate(steps[..n], i, row, run);
    }
  }

  lemma {:induction false} SumCostSame(a: seq<Step>, b: seq<Step>, run: Id)
    requires |a| == |b| && forall i | 0 <= i < |a| :: a[i].runId == b[i].runId && a[i].costUsd == b[i].costUsd
    ensures SumCost(a, run) == SumCost(b, run)
    decreases |a|
  {
    if a != [] { SumCostSame(a[..|a| - 1], b[..|b| - 1], run); }
  }

  /** Transactions other than a completion keep the books: costs stand still,
      tokens stay within what the WHERE clause and the CHECK allow. */
  lemma CostsStandStill(a: Tables, b: Tables)
    requires Accounts(a) && |a.steps| == |b.steps| && |a.runs| == |b.runs|
    requires forall s | 0 <= s < |a.steps| ::
             StepMoves(a.steps[s], b.steps[s]) && a.steps[s].costUsd == b.steps[s].costUsd
    requires forall r | 0 <= r < |a.runs| ::
               a.runs[r].costUsd == b.runs[r].costUsd && a.runs[r].tokensUsed <= b.runs[r].tokensUsed &&
               WithinBudget(b.runs[r])
    ensures Accounts(b)
  {
    forall r | 0 <= r < |b.runs| ensures b.runs[r].costUsd == SumCost(b.steps, r) {
      forall s | 0 <= s < |a.steps| ensures a.steps[s].runId == b.steps[s].runId {
        assert StepMoves(a.steps[s], b.steps[s]);
      }
      SumCostSame(a.steps, b.steps, r);
    }
    forall s | 0 <= s < |b.steps| && !Completed(b.steps[s].state) ensures b.steps[s].costUsd == 0.0 {
      assert StepMoves(a.steps[s], b.steps[s]);
    }
  }

  lemma FreeStepKeepsAccounts(a: Tables, row: Step)
    requires Accounts(a) && row.costUsd == 0.0
    ensures Accounts(a.(steps := a.steps + [row]))
  {
    var steps := a.steps + [row];
    assert steps[..|steps| - 1] == a.steps;
    assert forall s | 0 <= s < |a.steps| :: steps[s] == a.steps[s];
  }

  lemma {:induction false} UnusedRunCostsNothing(steps: seq<Step>, run: Id)
    requires forall s | 0 <= s < |steps| :: steps[s].runId != run
    ensures SumCost(steps, run) == 0.0
    decreases |steps|
  {
    if steps != [] { UnusedRunCostsNothing(steps[..|steps| - 1], run); }
  }

  // ---- completion ----

  /** Subtracting the freshly overwritten step column and adding the reported
      amount nets out to the larger of the two, whatever T1 had debited. */
  lemma T2TokensAreTheLarger(db: Tables, c: Completion)
    requires Linked(db) && Accounts(db) && T2(db, c).err.Ok?
    ensures var r := db.steps[c.stepId].runId;
            T2(db, c).db.runs[r].tokensUsed ==
              (if db.runs[r].tokensUsed < c.tokensUsed then c.tokensUsed else db.runs[r].tokensUsed) &&
            T2(db, c).db.runs[r].costUsd == db.runs[r].costUsd + c.costUsd &&
            forall q | 0 <= q < |db.runs| && q != r :: T2(db, c).db.runs[q] == db.runs[q]
  {
  }

  /** Exactly when the completion of a running Step commits. The budget half is the
      schema's CHECK: a report above a non-zero budget aborts the transaction. */
  lemma T2CommitsIff(db: Tables, c: Completion)
    requires Linked(db) && Accounts(db) && c.stepId < |db.steps| && db.steps[c.stepId].state.StepRunning?
    ensures T2(db, c).err.Ok? <==>
            && Completed(c.finalState)
            && (forall i | 0 <= i < |c.effects| && c.effects[i].stepId.Some? :: c.effects[i].stepId.value < |db.steps|)
            && var run := db.runs[db.steps[c.stepId].runId]; run.tokenBudget == 0 || c.tokensUsed <= run.tokenBudget
    ensures !T2(db, c).err.Ok? ==> T2(db, c).db == db
  {
    assert WithinBudget(db.runs[db.steps[c.stepId].runId]);
  }

  lemma T2KeepsAccounts(db: Tables, c: Completion)
    requires Linked(db) && Accounts(db) && c.stepId < |db.steps| && db.steps[c.stepId].state.StepRunning?
    ensures Accounts(T2(db, c).db)
  {
    var after := T2(db, c).db;
    if T2(db, c).err.Ok? {
      var row := CompletedRow(db.steps[c.stepId], c);
      assert after.steps == db.steps[c.stepId := row];
      forall r | 0 <= r < |after.runs|
        ensures after.runs[r].costUsd == SumCost(after.steps, r) && 0 <= after.runs[r].tokensUsed &&
                WithinBudget(after.runs[r])
      { SumCostUpdate(db.steps, c.stepId, row, r); }
    }
  }

  /** Applied to a Step that has already succeeded, a completion passes the
      validator as a self-transition and charges the Run twice. */
  lemma RepeatedT2ChargesTwice(db: Tables, c: Completion)
    requires Linked(db) && Accounts(db) && c.stepId < |db.steps| && Completed(db.steps[c.stepId].state)
    requires T2(db, c).err.Ok?
    ensures Accounts(T2(db, c).db) <==> db.steps[c.stepId].costUsd == 0.0
  {
    var after, row, r := T2(db, c).db, CompletedRow(db.steps[c.stepId], c), db.steps[c.stepId].runId;
    assert after.steps == db.steps[c.stepId := row];
    assert after.runs[r].costUsd == db.runs[r].costUsd + c.costUsd;
    SumCostUpdate(db.steps, c.stepId, row, r);
    if db.steps[c.stepId].costUsd == 0.0 {
      forall q | 0 <= q < |after.runs|
        ensures after.runs[q].costUsd == SumCost(after.steps, q) && 0 <= after.runs[q].tokensUsed &&
                WithinBudget(after.runs[q])
      { SumCostUpdate(db.steps, c.stepId, row, q); }
    }
  }

  /** A debit is granted exactly when it fits, and then changes only that Run's tokens. */
  lemma T1DebitsWithinBudget(db: Tables, req: LeaseMirror)
    requires Accounts(db) && T1(db, req).err.Ok?
    ensures forall r | 0 <= r < |db.runs| ::
              var spent := if r == req.runId && req.estimatedTokens > 0 then req.estimatedTokens else 0;
              T1(db, req).db.runs[r] == db.runs[r].(tokensUsed := db.runs[r].tokensUsed + spent) &&
              (db.runs[r].tokenBudget == 0 || db.runs[r].tokensUsed + spent <= db.runs[r].tokenBudget)
  {
  }

  // ---- side effects ----

  lemma {:induction false} OldRowsStand(rows: map<(Id, int), EffectRow>, batch: seq<Effect>, owner: Id)
    ensures forall k | k in rows ::
            k in InsertEffects(rows, batch, owner) && InsertEffects(rows, batch, owner)[k] == rows[k]
    decreases |batch|
  {
    if batch != [] { OldRowsStand(rows, batch[..|batch| - 1], owner); }
  }

  lemma {:induction false} BatchIsPresent(rows: map<(Id, int), EffectRow>, batch: seq<Effect>, owner: Id, i: nat)
    requires i < |batch|
    ensures EffectKey(batch[i], owner) in InsertEffects(rows, batch, owner)
    decreases |batch|
  {
    if i < |batch| - 1 { BatchIsPresent(rows, batch[..|batch| - 1], owner, i); }
  }

  /** The i-th entry is the first of the batch to name this key. */
  predicate NamesFirst(batch: seq<Effect>, owner: Id, k: (Id, int), i: int) {
    0 <= i < |batch| && EffectKey(batch[i], owner) == k && forall j | 0 <= j < i :: EffectKey(batch[j], owner) != k
  }

  lemma {:induction false} NewRowIsFirstNamed(
    rows: map<(Id, int), EffectRow>, batch: seq<Effect>, owner: Id, k: (Id, int)) returns (i: nat)
    requires k in InsertEffects(rows, batch, owner) && k !in rows
    ensures NamesFirst(batch, owner, k, i) && InsertEffects(rows, batch, owner)[k] == NewEffectRow(batch[i])
    decreases |batch|
  {
    var n := |batch| - 1;
    if k in InsertEffects(rows, batch[..n], owner) {
      i := NewRowIsFirstNamed(rows, batch[..n], owner, k);
      assert forall j | 0 <= j < i :: EffectKey(batch[..n][j], owner) != k;
    } else {
      i := n;
      forall j: nat | j < n ensures EffectKey(batch[j], owner) != k { BatchIsPresent(rows, batch[..n], owner, j); }
    }
  }

  /** Existing rows stand; every key of the batch is present afterwards and holds
      the first entry that named it. */
  lemma FirstWriteIsKept(rows: map<(Id, int), EffectRow>, batch: seq<Effect>, owner: Id)
    ensures forall k | k in rows ::
            k in InsertEffects(rows, batch, owner) && InsertEffects(rows, batch, owner)[k] == rows[k]
    ensures forall i | 0 <= i < |batch| :: EffectKey(batch[i], owner) in InsertEffects(rows, batch, owner)
    ensures forall k | k in InsertEffects(rows, batch, owner) && k !in rows ::
              exists i :: NamesFirst(batch, owner, k, i) &&
                  InsertEffects(rows, batch, owner)[k] == NewEffectRow(batch[i])
  {
    hide InsertEffects, EffectKey;
    OldRowsStand(rows, batch, owner);
    var after := InsertEffects(rows, batch, owner);
    forall i: nat | i < |batch| ensures EffectKey(batch[i], owner) in after { BatchIsPresent(rows, batch, owner, i); }
    forall k | k in after && k !in rows
      ensures exists i :: NamesFirst(batch, owner, k, i) && after[k] == NewEffectRow(batch[i])
    {
      var _ := NewRowIsFirstNamed(rows, batch, owner, k);
    }
  }

  /** The entry goes under this key: its own number, beneath the Step it names or, naming
      none, beneath the one being completed. */
  predicate GoesUnder(e: Effect, owner: Id, k: (Id, int)) {
    k.1 == e.number && (e.stepId == Some(k.0) || (e.stepId.None? && k.0 == owner))
  }

  /** The row is this entry's: its payload, in the state reported or else committed. */
  predicate Records(row: EffectRow, e: Effect) {
    row.payload == e.payload && (e.state == Some(row.state) || (e.state.None? && row.state.SECommitted?))
  }

  /** A completion that commits leaves exactly the keys of its batch behind, each with
      the first entry that goes under it, and overwrites none; one that aborts leaves no
      trace. */
  lemma T2EffectsAreAllOrNothing(db: Tables, c: Completion)
    ensures T2(db, c).err.Ok? ==>
              forall k :: k in T2(db, c).db.effects <==>
                k in db.effects || exists i | 0 <= i < |c.effects| :: GoesUnder(c.effects[i], c.stepId, k)
    ensures T2(db, c).err.Ok? ==>
              forall k | k in T2(db, c).db.effects && k !in db.effects ::
                exists i | 0 <= i < |c.effects| ::
                  GoesUnder(c.effects[i], c.stepId, k) && Records(T2(db, c).db.effects[k], c.effects[i]) &&
                  forall j | 0 <= j < i :: !GoesUnder(c.effects[j], c.stepId, k)
    ensures forall k | k in db.effects :: k in T2(db, c).db.effects && T2(db, c).db.effects[k] == db.effects[k]
    ensures !T2(db, c).err.Ok? ==> T2(db, c).db == db
  {
    hide InsertEffects, OwnersExist;
    FirstWriteIsKept(db.effects, c.effects, c.stepId);
    var after := T2(db, c).db.effects;
    if T2(db, c).err.Ok? {
      forall e: Effect, k ensures GoesUnder(e, c.stepId, k) <==> EffectKey(e, c.stepId) == k {}
      forall e: Effect ensures Records(NewEffectRow(e), e) {}
      hide EffectKey, GoesUnder, NewEffectRow, Records;
      forall k | k in after && k !in db.effects
        ensures exists i | 0 <= i < |c.effects| ::
          GoesUnder(c.effects[i], c.stepId, k) && Records(after[k], c.effects[i]) &&
          forall j | 0 <= j < i :: !GoesUnder(c.effects[j], c.stepId, k)
      {
        var i :| NamesFirst(c.effects, c.stepId, k, i) && after[k] == NewEffectRow(c.effects[i]);
        assert GoesUnder(c.effects[i], c.stepId, k);
      }
    }
  }

  /** The entry is owned by the Step being completed, or by one completed before. */
  predicate Innocent(db: Tables, c: Completion, i: int)
    requires 0 <= i < |c.effects|
  {
    var owner := EffectKey(c.effects[i], c.stepId).0;
    owner == c.stepId || (owner < |db.steps| && Completed(db.steps[owner].state))
  }

  /** An entry may name another Step. Exactly when no entry names a Step that has
      neither succeeded nor failed do all rows belong to completed Steps. */
  lemma T2OwnsItsEffectsIff(db: Tables, c: Completion)
    requires EffectsOwned(db) && T2(db, c).err.Ok?
    ensures EffectsOwned(T2(db, c).db) <==> forall i | 0 <= i < |c.effects| :: Innocent(db, c, i)
  {
    hide InsertEffects, EffectKey, NewEffectRow;
    FirstWriteIsKept(db.effects, c.effects, c.stepId);
    var after := T2(db, c).db;
    if EffectsOwned(after) {
      forall i | 0 <= i < |c.effects| ensures Innocent(db, c, i) {
        assert EffectKey(c.effects[i], c.stepId) in after.effects;
      }
    }
    if forall i | 0 <= i < |c.effects| :: Innocent(db, c, i) {
      forall k | k in after.effects ensures k.0 < |after.steps| && Completed(after.steps[k.0].state) {
        if k !in db.effects {
          var i :| NamesFirst(c.effects, c.stepId, k, i);
          assert Innocent(db, c, i);
        }
      }
    }
  }

  /** Entries that name their own Step, or none. */
  predicate OwnBatch(c: Completion) {
    forall i | 0 <= i < |c.effects| :: c.effects[i].stepId == None || c.effects[i].stepId == Some(c.stepId)
  }

  lemma OwnBatchOwnsEffects(db: Tables, c: Completion)
    requires EffectsOwned(db) && T2(db, c).err.Ok? && OwnBatch(c)
    ensures EffectsOwned(T2(db, c).db)
  {
    hide EffectsOwned, T2;
    T2OwnsItsEffectsIff(db, c);
    assert forall i | 0 <= i < |c.effects| :: Innocent(db, c, i);
  }

  // ---- renewal and scan ----

  /** A renewal that committed makes every scan up to the new expiry spare the row, and the
      first scan after it take the row back. */
  lemma RenewalSparesUntilExpiry(db: Tables, stepId: Id, expires: Time, now: Time)
    requires stepId < |db.steps| && (db.steps[stepId].state.StepLeased? || db.steps[stepId].state.StepRunning?)
    ensures var scanned := T4(T3(db, stepId, expires), now).steps[stepId];
            if now <= expires then scanned == db.steps[stepId].(leaseExpires := Some(expires))
            else scanned.state.StepPending? && scanned.leaseExpires.None?
  {
    assert T3(db, stepId, expires).steps[stepId] == db.steps[stepId].(leaseExpires := Some(expires));
  }

  // ---- every transaction moves rows along their edges, and keeps a safe ledger safe ----

  lemma T1Moves(db: Tables, req: LeaseMirror)
    requires Solvent(db)
    ensures Moves(db, T1(db, req).db) && Solvent(T1(db, req).db)
  {
  }

  lemma T2KeepsWritten(db: Tables, c: Completion)
    ensures forall k | k in db.effects :: k in T2(db, c).db.effects && T2(db, c).db.effects[k] == db.effects[k]
  {
    FirstWriteIsKept(db.effects, c.effects, c.stepId);
  }

  lemma T2Moves(db: Tables, c: Completion)
    requires Solvent(db)
    ensures Moves(db, T2(db, c).db) && Solvent(T2(db, c).db)
  {
    hide InsertEffects, OwnersExist;
    T2KeepsWritten(db, c);
  }

  lemma T4Moves(db: Tables, now: Time)
    ensures Moves(db, T4(db, now)) && (Solvent(db) ==> Solvent(T4(db, now)))
  {
    forall i | 0 <= i < |db.steps| ensures StepMoves(db.steps[i], T4(db, now).steps[i]) {
      assert T4(db, now).steps[i] == if Overdue(db.steps[i], now) then RecoveredRow(db.steps[i]) else db.steps[i];
    }
  }

  lemma T3Moves(db: Tables, stepId: Id, expires: Time)
    ensures Moves(db, T3(db, stepId, expires)) && (Solvent(db) ==> Solvent(T3(db, stepId, expires)))
  {
  }

  lemma MarkRunningMoves(db: Tables, stepId: Id)
    ensures Moves(db, MarkRunning(db, stepId).db) && (Solvent(db) ==> Solvent(MarkRunning(db, stepId).db))
  {
  }

  lemma UpdateArmMoves(db: Tables, stepId: Id, agentType: string, provider: string)
    ensures Moves(db, UpdateArm(db, stepId, agentType, provider).db)
    ensures Solvent(db) ==> Solvent(UpdateArm(db, stepId, agentType, provider).db)
  {
  }

  lemma StepActionKeepsSafe(a: Tables, b: Tables)
    requires Safe(a) && Moves(a, b) && Solvent(b)
    requires b.flows == a.flows && |b.runs| == |a.runs| && |b.steps| == |a.steps|
    requires forall r | 0 <= r < |a.runs| ::
             a.runs[r].state == b.runs[r].state && a.runs[r].costUsd == b.runs[r].costUsd
    requires forall s | 0 <= s < |a.steps| :: a.steps[s].costUsd == b.steps[s].costUsd
    ensures Safe(b)
  {
    StepMovesKeepShape(a, b);
    forall r | 0 <= r < |a.runs| ensures a.runs[r].tokensUsed <= b.runs[r].tokensUsed {
      assert RunMoves(a.runs[r], b.runs[r]);
    }
    CostsStandStill(a, b);
  }

  lemma T1KeepsSafe(db: Tables, req: LeaseMirror)
    requires Safe(db)
    ensures Safe(T1(db, req).db)
  {
    T1Moves(db, req);
    StepActionKeepsSafe(db, T1(db, req).db);
  }

  lemma T2KeepsSafe(db: Tables, c: Completion)
    requires Safe(db) && c.stepId < |db.steps| && db.steps[c.stepId].state.StepRunning?
    ensures Safe(T2(db, c).db)
  {
    T2Moves(db, c);
    StepMovesKeepShape(db, T2(db, c).db);
    T2KeepsAccounts(db, c);
  }

  lemma T3KeepsSafe(db: Tables, stepId: Id, expires: Time)
    requires Safe(db)
    ensures Safe(T3(db, stepId, expires))
  {
    hide Shape, Moves;
    T3Moves(db, stepId, expires);
    StepActionKeepsSafe(db, T3(db, stepId, expires));
  }

  lemma T4KeepsSafe(db: Tables, now: Time)
    requires Safe(db)
    ensures Safe(T4(db, now))
  {
    T4Moves(db, now);
    StepActionKeepsSafe(db, T4(db, now));
  }

  lemma MarkRunningKeepsSafe(db: Tables, stepId: Id)
    requires Safe(db)
    ensures Safe(MarkRunning(db, stepId).db)
  {
    hide Shape, Moves;
    MarkRunningMoves(db, stepId);
    StepActionKeepsSafe(db, MarkRunning(db, stepId).db);
  }

  lemma UpdateArmKeepsSafe(db: Tables, stepId: Id, agentType: string, provider: string)
    requires Safe(db)
    ensures Safe(UpdateArm(db, stepId, agentType, provider).db)
  {
    hide Shape, Moves;
    UpdateArmMoves(db, stepId, agentType, provider);
    StepActionKeepsSafe(db, UpdateArm(db, stepId, agentType, provider).db);
  }

  lemma WriteStepKeepsSafe(db: Tables, id: Id, version: nat, to: StepState)
    requires Safe(db) && CheckStep(db, id, version, to).Ok? && !Completed(to)
    ensures Safe(WriteStep(db, id, version, to).db)
  {
    StepActionKeepsSafe(db, WriteStep(db, id, version, to).db);
  }

  /** The retry of a failed leaf under a live Flow. */
  lemma InsertRetryKeepsSafe(db: Tables, parent: StepCopy)
    requires Safe(db) && parent.id < |db.steps| && db.steps[parent.id].state.StepFailed? && IsLeaf(db, parent.id)
    requires parent.flowId == db.steps[parent.id].flowId && parent.runId == db.steps[parent.id].runId
    requires parent.retryCount == db.steps[parent.id].retryCount && !FlowTerminal(db.flows[parent.flowId].state)
    ensures Safe(InsertRetry(db, parent).db)
  {
    AppendStepKeepsShape(db, InsertRetry(db, parent).db, RetryRow(parent));
    FreeStepKeepsAccounts(db, RetryRow(parent));
  }

  /** A retry of a row that has not failed breaks the retry paths, whatever else holds. */
  lemma RetryOfLiveStepBreaksPaths(db: Tables, parent: StepCopy)
    requires InsertRetry(db, parent).err.Ok? && !db.steps[parent.id].state.StepFailed?
    ensures !RetryPaths(InsertRetry(db, parent).db)
  {
    var after := InsertRetry(db, parent).db;
    assert after.steps[parent.id] == db.steps[parent.id] && after.steps[|db.steps|] == RetryRow(parent);
    assert !RetryLink(after, |db.steps|);
  }
}
