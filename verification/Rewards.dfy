/** From the outcome of a Step to a reward. */
module Rewards {
  import opened Arms

  datatype Outcome = Outcome(succeeded: bool, costUsd: real, verifierSignal: real)

  datatype RewardModel = DefaultModel | BudgetAware(alpha: real, costBaseline: real)

  function BaseReward(regime: Regime, o: Outcome): real {
    if regime.Verifiable? && o.verifierSignal >= 0.0 then
      if o.verifierSignal > 1.0 then 1.0 else o.verifierSignal
    else if o.succeeded then 1.0
    else 0.0
  }

  function Clamp01(v: real): real { if v < 0.0 then 0.0 else if v > 1.0 then 1.0 else v }

  /** The part of the base reward that the cost leaves. */
  function CostFactor(alpha: real, costBaseline: real, costUsd: real): real
    requires costBaseline > 0.0
  {
    var ratio := costUsd / costBaseline;
    var factor := 1.0 - alpha * if ratio > 1.0 then 1.0 else ratio;
    if factor < 0.0 then 0.0 else factor
  }

  function Reward(model: RewardModel, regime: Regime, o: Outcome): real {
    var base := BaseReward(regime, o);
    match model
    case DefaultModel => base
    case BudgetAware(alpha, costBaseline) =>
      if base == 0.0 then 0.0
      else if alpha <= 0.0 || costBaseline <= 0.0 || o.costUsd <= 0.0 then Clamp01(base)
      else Clamp01(base * CostFactor(alpha, costBaseline, o.costUsd))
  }

  lemma ProductsInUnit(a: real, b: real, product: real)
    requires 0.0 <= a <= 1.0 && 0.0 <= b <= 1.0 && product == a * b
    ensures 0.0 <= product <= a
  {
    NonNegativeProduct(a, 1.0 - b);
    NonNegativeProduct(a, b);
  }

  lemma CostFactorFalls(alpha: real, costBaseline: real, low: real, high: real)
    requires alpha > 0.0 && costBaseline > 0.0 && 0.0 < low <= high
    ensures 0.0 <= CostFactor(alpha, costBaseline, high) <= CostFactor(alpha, costBaseline, low) <= 1.0
  {
    var p, q := low / costBaseline, high / costBaseline;
    assert p * costBaseline == low && q * costBaseline == high;
    assert 0.0 < p <= q;
    var x, y := if p > 1.0 then 1.0 else p, if q > 1.0 then 1.0 else q;
    assert alpha * (y - x) >= 0.0 && alpha * x >= 0.0;
  }

  /** The reward in terms of the cost factor. */
  lemma RewardByFactor(model: RewardModel, regime: Regime, o: Outcome)
    requires model.BudgetAware? && model.alpha > 0.0 && model.costBaseline > 0.0 && o.costUsd > 0.0
    ensures Reward(model, regime, o) == BaseReward(regime, o) * CostFactor(model.alpha, model.costBaseline, o.costUsd)
  {
    CostFactorFalls(model.alpha, model.costBaseline, o.costUsd, o.costUsd);
    hide CostFactor;
    var base, factor := BaseReward(regime, o), CostFactor(model.alpha, model.costBaseline, o.costUsd);
    ProductsInUnit(base, factor, base * factor);
    if base == 0.0 { assert base * factor == 0.0; }
  }

  /** Whatever the model's parameters and the outcome, the reward is one that can be
      recorded, and never more than the cost-blind one. */
  lemma RewardIsRecordable(model: RewardModel, regime: Regime, o: Outcome)
    ensures 0.0 <= Reward(model, regime, o) <= BaseReward(regime, o) <= 1.0
  {
    if model.BudgetAware? && model.alpha > 0.0 && model.costBaseline > 0.0 && o.costUsd > 0.0 {
      RewardByFactor(model, regime, o);
      CostFactorFalls(model.alpha, model.costBaseline, o.costUsd, o.costUsd);
      hide Reward, CostFactor;
      ProductsInUnit(BaseReward(regime, o), CostFactor(model.alpha, model.costBaseline, o.costUsd),
          Reward(model, regime, o));
    }
  }

  /** At equal quality the cheaper Step is never rewarded less. */
  lemma CheaperIsNoWorse(model: RewardModel, regime: Regime, o: Outcome, dearer: Outcome)
    requires dearer == o.(costUsd := dearer.costUsd) && o.costUsd <= dearer.costUsd
    ensures Reward(model, regime, o) >= Reward(model, regime, dearer)
  {
    RewardIsRecordable(model, regime, dearer);
    RewardIsRecordable(model, regime, o);
    if model.BudgetAware? && model.alpha > 0.0 && model.costBaseline > 0.0 && o.costUsd > 0.0 {
      RewardByFactor(model, regime, o);
      RewardByFactor(model, regime, dearer);
      CostFactorFalls(model.alpha, model.costBaseline, o.costUsd, dearer.costUsd);
      hide Reward, CostFactor;
      var f, g := CostFactor(model.alpha, model.costBaseline, o.costUsd),
          CostFactor(model.alpha, model.costBaseline, dearer.costUsd);
      NonNegativeProduct(BaseReward(regime, o), f - g);
    } else {
      UncostedReward(model, regime, o);
    }
  }

  lemma UncostedReward(model: RewardModel, regime: Regime, o: Outcome)
    requires !(model.BudgetAware? && model.alpha > 0.0 && model.costBaseline > 0.0 && o.costUsd > 0.0)
    ensures Reward(model, regime, o) == BaseReward(regime, o)
  {
  }

  // ---- what an outcome is worth ----

  /** A verifier has spoken, and the arm listens to it. */
  predicate Signalled(regime: Regime, o: Outcome) { regime.Verifiable? && o.verifierSignal >= 0.0 }

  /** The model has no cost to weigh. */
  predicate CostFree(model: RewardModel, o: Outcome) {
    model.DefaultModel? || model.alpha <= 0.0 || model.costBaseline <= 0.0 || o.costUsd <= 0.0
  }

  /** What an outcome earns before costs: the signal, up to 1, or else 1 for a success and
      0 for a failure. */
  predicate Earns(regime: Regime, o: Outcome, merit: real) {
    if Signalled(regime, o)
        then (o.verifierSignal <= 1.0 && merit == o.verifierSignal) || 1.0 == merit < o.verifierSignal
    else (o.succeeded && merit == 1.0) || (!o.succeeded && merit == 0.0)
  }

  /** The share of what an outcome earns that the baseline leaves after the weighted cost,
      none if that is all of it; a cost above the baseline weighs as much as the baseline. */
  predicate IsShare(reward: real, merit: real, alpha: real, costBaseline: real, costUsd: real) {
    var weighed := alpha * if costUsd < costBaseline then costUsd else costBaseline;
    reward * costBaseline == if weighed < costBaseline then merit * (costBaseline - weighed) else 0.0
  }

  /** The reward in full: without costs to weigh it is what the outcome earns, and otherwise
      its share. */
  lemma RewardInFull(model: RewardModel, regime: Regime, o: Outcome, merit: real)
    requires Earns(regime, o, merit)
    ensures CostFree(model, o) ==> Reward(model, regime, o) == merit
    ensures !CostFree(model, o) ==>
              IsShare(Reward(model, regime, o), merit, model.alpha, model.costBaseline, o.costUsd)
  {
    assert merit == BaseReward(regime, o);
    hide IsShare, CostFactor, Reward, BaseReward, Earns;
    if CostFree(model, o) {
      UncostedReward(model, regime, o);
    } else {
      RewardByFactor(model, regime, o);
      ShareOfBaseline(model.alpha, model.costBaseline, o.costUsd, merit);
    }
  }

  lemma ShareOfBaseline(alpha: real, costBaseline: real, costUsd: real, merit: real)
    requires alpha > 0.0 && costBaseline > 0.0 && costUsd > 0.0
    ensures IsShare(merit * CostFactor(alpha, costBaseline, costUsd), merit, alpha, costBaseline, costUsd)
  {
    hide CostFactor;
    FactorOfBaseline(alpha, costBaseline, costUsd, if costUsd < costBaseline then costUsd else costBaseline);
    Regrouped(merit, CostFactor(alpha, costBaseline, costUsd), costBaseline);
  }

  lemma Regrouped(x: real, y: real, z: real)
    ensures x * y * z == x * (y * z)
  {
  }

  lemma FactorOfBaseline(alpha: real, costBaseline: real, costUsd: real, low: real)
    requires alpha > 0.0 && costBaseline > 0.0 && costUsd > 0.0
    requires low == if costUsd < costBaseline then costUsd else costBaseline
    ensures CostFactor(alpha, costBaseline, costUsd) * costBaseline ==
            if alpha * low < costBaseline then costBaseline - alpha * low else 0.0
  {
    var ratio := costUsd / costBaseline;
    assert ratio * costBaseline == costUsd;
    if ratio > 1.0 {
      NonNegativeProduct(ratio - 1.0, costBaseline);
    } else {
      NonNegativeProduct(1.0 - ratio, costBaseline);
    }
    var share := if ratio > 1.0 then 1.0 else ratio;
    assert share * costBaseline == low;
    assert alpha * share * costBaseline == alpha * low;
    var rest := 1.0 - alpha * share;
    assert rest * costBaseline == costBaseline - alpha * low;
    if rest < 0.0 { NonNegativeProduct(-rest, costBaseline); } else { NonNegativeProduct(rest, costBaseline); }
  }

  /** At equal cost a success never earns less than a failure, nor a higher signal less
      than a lower one. */
  lemma BetterIsNoWorse(model: RewardModel, regime: Regime, o: Outcome, better: Outcome)
    requires better.costUsd == o.costUsd && (Signalled(regime, o) <==> Signalled(regime, better))
    requires if Signalled(regime, o) then o.verifierSignal <= better.verifierSignal
             else o.succeeded ==> better.succeeded
    ensures Reward(model, regime, o) <= Reward(model, regime, better)
  {
    if CostFree(model, o) {
      UncostedReward(model, regime, o);
      UncostedReward(model, regime, better);
    } else {
      RewardByFactor(model, regime, o);
      RewardByFactor(model, regime, better);
      CostFactorFalls(model.alpha, model.costBaseline, o.costUsd, o.costUsd);
      hide Reward, CostFactor;
      NonNegativeProduct(BaseReward(regime, better) - BaseReward(regime, o),
          CostFactor(model.alpha, model.costBaseline, o.costUsd));
    }
  }

  // ---- what an arm's statistics say about its outcomes ----

  datatype Played = Played(key: ArmKey, outcome: Outcome)

  function Earned(model: RewardModel, played: seq<Played>): (history: seq<Pull>)
    ensures |history| == |played|
    ensures forall i | 0 <= i < |played| ::
            history[i] == Pull(played[i].key, Reward(model, played[i].key.regime, played[i].outcome))
  {
    seq(|played|, i requires 0 <= i < |played| =>
      Pull(played[i].key, Reward(model, played[i].key.regime, played[i].outcome)))
  }

  /** The rounds in which this arm was played and succeeded. */
  function Successes(played: seq<Played>, key: ArmKey): set<nat> {
    set i | 0 <= i < |played| && played[i].key == key && played[i].outcome.succeeded
  }

  function Rounds(played: seq<Played>, key: ArmKey): set<nat> {
    set i | 0 <= i < |played| && played[i].key == key
  }

  lemma {:induction false} SumCountsSuccesses(model: RewardModel, played: seq<Played>, key: ArmKey)
    requires forall i | 0 <= i < |played| ::
             CostFree(model, played[i].outcome) && !Signalled(played[i].key.regime, played[i].outcome)
    ensures SumOf(Earned(model, played), key) == |Successes(played, key)| as real
    ensures Pulls(Earned(model, played), key) == |Rounds(played, key)|
    decreases |played|
  {
    hide Pulls, SumOf, Reward, Successes, Rounds, Signalled, CostFree;
    if played == [] {
      NoRounds(key);
      NeverPulled(Earned(model, played), key);
    } else {
      var n := |played| - 1;
      var init, last := played[..n], played[n];
      assert played == init + [last];
      SumCountsSuccesses(model, init, key);
      var pull := Pull(last.key, Reward(model, last.key.regime, last.outcome));
      assert Earned(model, played) == Earned(model, init) + [pull];
      OneMorePull(Earned(model, init), pull, key);
      OneMoreRound(init, last, key);
      RewardInFull(model, last.key.regime, last.outcome, if last.outcome.succeeded then 1.0 else 0.0);
    }
  }

  lemma NoRounds(key: ArmKey)
    ensures Successes([], key) == {} && Rounds([], key) == {}
  {
  }

  lemma OneMoreRound(init: seq<Played>, last: Played, key: ArmKey)
    ensures |Successes(init + [last], key)| ==
            |Successes(init, key)| + if last.key == key && last.outcome.succeeded then 1 else 0
    ensures |Rounds(init + [last], key)| == |Rounds(init, key)| + if last.key == key then 1 else 0
  {
    OneMoreSuccess(init, last, key);
    hide Successes;
    var n, played := |init|, init + [last];
    assert forall i | 0 <= i < n :: played[i] == init[i];
    if last.key == key {
      assert Rounds(played, key) == Rounds(init, key) + {n};
    } else {
      assert Rounds(played, key) == Rounds(init, key);
    }
  }

  lemma OneMoreSuccess(init: seq<Played>, last: Played, key: ArmKey)
    ensures |Successes(init + [last], key)| ==
            |Successes(init, key)| + if last.key == key && last.outcome.succeeded then 1 else 0
  {
    var n, played := |init|, init + [last];
    assert forall i | 0 <= i < n :: played[i] == init[i];
    if last.key == key && last.outcome.succeeded {
      assert Successes(played, key) == Successes(init, key) + {n};
    } else {
      assert Successes(played, key) == Successes(init, key);
    }
  }

  /** Without costs and signals, an arm's mean is its rate of success. */
  lemma MeanIsSuccessRate(model: RewardModel, played: seq<Played>, rows: Rows, key: ArmKey)
    requires Tallies(rows, Earned(model, played)) && key in rows
    requires forall i | 0 <= i < |played| ::
             CostFree(model, played[i].outcome) && !Signalled(played[i].key.regime, played[i].outcome)
    ensures rows[key].rewardSum == |Successes(played, key)| as real && rows[key].pulls == |Rounds(played, key)| > 0
    ensures rows[key].Mean() * |Rounds(played, key)| as real == |Successes(played, key)| as real
  {
    SumCountsSuccesses(model, played, key);
    MomentsOf(rows, Earned(model, played), key);
  }
}
