/** UCB-1 arm selection over a catalog and a table of statistics. The exploration
    term c * sqrt(ln(total) / pulls) is an arbitrary real-valued function. */
module Selectors {
  import opened Arms
  import opened Rewards

  datatype Score = LeastScore | Finite(value: real) | Infinite

  datatype Scored = Scored(arm: Arm, score: Score)

  type Bonus = (int, int) -> real

  predicate Above(a: Score, b: Score) {
    match (a, b)
    case (Infinite, Infinite) => false
    case (Infinite, _) => true
    case (Finite(x), Finite(y)) => x > y
    case (Finite(_), LeastScore) => true
    case _ => false
  }

  function UcbScore(arm: Arm, totalPulls: int, bonus: Bonus): Score {
    if arm.pulls <= 0 then Infinite
    else if totalPulls <= 0 then Finite(arm.Mean())
    else Finite(arm.Mean() + bonus(totalPulls, arm.pulls))
  }

  function TotalPulls(arms: seq<Arm>): int {
    if arms == [] then 0 else TotalPulls(arms[..|arms| - 1]) + arms[|arms| - 1].pulls
  }

  /** No arm scores higher, and every earlier arm scores lower. */
  ghost predicate IsWinner(arms: seq<Arm>, bonus: Bonus, w: int) {
    var total := TotalPulls(arms);
    && 0 <= w < |arms|
    && (forall i | 0 <= i < |arms| :: !Above(UcbScore(arms[i], total, bonus), UcbScore(arms[w], total, bonus)))
    && (forall i | 0 <= i < w :: Above(UcbScore(arms[w], total, bonus), UcbScore(arms[i], total, bonus)))
  }

  method PickByUCB(arms: seq<Arm>, bonus: Bonus) returns (winner: int, best: Score, ranked: seq<Scored>)
    ensures arms == [] ==> winner == -1 && best == Finite(0.0) && ranked == []
    ensures arms != [] ==> IsWinner(arms, bonus, winner) && best == UcbScore(arms[winner], TotalPulls(arms), bonus)
    ensures |ranked| == |arms| && forall i | 0 <= i < |arms| ::
            ranked[i] == Scored(arms[i], UcbScore(arms[i], TotalPulls(arms), bonus))
  {
    if arms == [] { return -1, Finite(0.0), []; }
    var total := 0;
    for i := 0 to |arms|
      invariant total == TotalPulls(arms[..i])
    {
      assert arms[..i + 1][..i] == arms[..i];
      total := total + arms[i].pulls;
    }
    assert arms[..|arms|] == arms;
    ranked := [];
    winner, best := 0, LeastScore;
    for i := 0 to |arms|
      invariant |ranked| == i && forall j | 0 <= j < i :: ranked[j] == Scored(arms[j], UcbScore(arms[j], total, bonus))
      invariant i == 0 ==> winner == 0 && best == LeastScore
      invariant i > 0 ==> 0 <= winner < i && best == UcbScore(arms[winner], total, bonus)
      invariant forall j | 0 <= j < i :: !Above(UcbScore(arms[j], total, bonus), best)
      invariant forall j | 0 <= j < winner :: Above(best, UcbScore(arms[j], total, bonus))
    {
      var s := UcbScore(arms[i], total, bonus);
      ranked := ranked + [Scored(arms[i], s)];
      if Above(s, best) { winner, best := i, s; }
    }
  }

  /** While some arm has never been pulled, the winner is the first such arm. */
  lemma UnpulledFirst(arms: seq<Arm>, bonus: Bonus, w: int, u: int)
    requires IsWinner(arms, bonus, w) && 0 <= u < |arms| && arms[u].pulls <= 0
    ensures w <= u && arms[w].pulls <= 0 && forall i | 0 <= i < w :: arms[i].pulls > 0
  {
    var total := TotalPulls(arms);
    assert !Above(UcbScore(arms[u], total, bonus), UcbScore(arms[w], total, bonus));
    forall i | 0 <= i < w ensures arms[i].pulls > 0 {
      assert Above(UcbScore(arms[w], total, bonus), UcbScore(arms[i], total, bonus));
    }
  }

  /** Between arms pulled equally often the mean decides, and between equal means, if the
      exploration term falls with every pull, the fewer pulls. */
  lemma WinnerIsUnbeaten(arms: seq<Arm>, bonus: Bonus, w: int, i: int)
    requires IsWinner(arms, bonus, w) && 0 <= i < |arms| && arms[w].pulls > 0
    ensures arms[i].pulls == arms[w].pulls ==> arms[i].Mean() <= arms[w].Mean()
    ensures var t := TotalPulls(arms);
            (forall p, q | 0 < p < q :: bonus(t, p) > bonus(t, q)) && t > 0 && arms[i].Mean() == arms[w].Mean() ==>
              arms[w].pulls <= arms[i].pulls
    ensures arms[i].pulls > 0
  {
    var total := TotalPulls(arms);
    assert !Above(UcbScore(arms[i], total, bonus), UcbScore(arms[w], total, bonus));
  }

  /** The list is ranked only in name: it descends exactly when the candidates happened
      to come in that order, and an unpulled arm behind a pulled one shows that they need
      not. */
  lemma RankedNeedNotDescend(first: Arm, second: Arm, bonus: Bonus)
    requires first.pulls > 0 >= second.pulls
    ensures var total := TotalPulls([first, second]);
            Above(UcbScore(second, total, bonus), UcbScore(first, total, bonus))
  {
  }

  /** The pulls the exploration term is told of are those of all candidates together. */
  lemma {:induction false} TotalPullsAdd(a: seq<Arm>, b: seq<Arm>)
    ensures TotalPulls(a + b) == TotalPulls(a) + TotalPulls(b)
    ensures |b| == 1 ==> TotalPulls(b) == b[0].pulls
    decreases |b|
  {
    if b == [] {
      assert a + b == a;
    } else {
      var n := |b| - 1;
      assert (a + b)[..|a + b| - 1] == a + b[..n];
      TotalPullsAdd(a, b[..n]);
      if n == 0 { assert b[..n] == []; }
    }
  }

  // ---- a pick and a reward in turn ----

  function Loaded(rows: Rows, candidates: seq<ArmKey>): seq<Arm> {
    seq(|candidates|, i requires 0 <= i < |candidates| => Load(rows, candidates[i]))
  }

  /** The i-th candidate with its statistics and its score among the others. */
  function ScoredAt(rows: Rows, candidates: seq<ArmKey>, bonus: Bonus, i: nat): Scored
    requires i < |candidates|
  {
    var arms := Loaded(rows, candidates);
    Scored(arms[i], UcbScore(arms[i], TotalPulls(arms), bonus))
  }

  ghost predicate DistinctKeys(keys: seq<ArmKey>) { forall i, j | 0 <= i < j < |keys| :: keys[i] != keys[j] }

  datatype Round = Round(pick: nat, reward: real, at: int)

  /** Each round picks the winner of its moment and records some reward for it. */
  ghost predicate IsPlay(states: seq<Rows>, rounds: seq<Round>, candidates: seq<ArmKey>, bonus: Bonus) {
    && |states| == |rounds| + 1
    && forall i | 0 <= i < |rounds| ::
         && IsWinner(Loaded(states[i], candidates), bonus, rounds[i].pick) && rounds[i].pick < |candidates|
         && states[i + 1] == Recorded(states[i], Pull(candidates[rounds[i].pick], rounds[i].reward), rounds[i].at)
  }

  lemma NothingPlayed(rows: Rows, candidates: seq<ArmKey>, bonus: Bonus)
    ensures IsPlay([rows], [], candidates, bonus)
  {
  }

  lemma PlayGoesOn(
    states: seq<Rows>, rounds: seq<Round>, candidates: seq<ArmKey>, bonus: Bonus, round: Round, next: Rows)
    requires IsPlay(states, rounds, candidates, bonus) && round.pick < |candidates|
    requires IsWinner(Loaded(states[|rounds|], candidates), bonus, round.pick)
    requires next == Recorded(states[|rounds|], Pull(candidates[round.pick], round.reward), round.at)
    ensures IsPlay(states + [next], rounds + [round], candidates, bonus)
  {
    hide IsWinner, Loaded, Recorded;
  }

  /** From no statistics, the first picks go through the candidates one after the other,
      whatever the rewards and the exploration term. */
  lemma {:induction false} FirstPicksInOrder(states: seq<Rows>, rounds: seq<Round>, candidates: seq<ArmKey>,
      bonus: Bonus, n: nat)
    requires IsPlay(states, rounds, candidates, bonus) && DistinctKeys(candidates) && n <= |rounds| && n <= |candidates|
    requires forall k | 0 <= k < |candidates| :: Load(states[0], candidates[k]).pulls == 0
    ensures forall i | 0 <= i < n :: rounds[i].pick == i
    ensures forall k | 0 <= k < |candidates| :: Load(states[n], candidates[k]).pulls == if k < n then 1 else 0
  {
    if n > 0 {
      FirstPicksInOrder(states, rounds, candidates, bonus, n - 1);
      var arms := Loaded(states[n - 1], candidates);
      UnpulledFirst(arms, bonus, rounds[n - 1].pick, n - 1);
      assert arms[rounds[n - 1].pick].pulls == 0;
      assert rounds[n - 1].pick == n - 1;
    }
  }

  // ---- the statistics table ----

  class MemoryStats {
    var rows: Rows
    /** Every reward recorded. */
    ghost var history: seq<Pull>

    ghost predicate Valid() reads this { Tallies(rows, history) && InRange(history) }

    constructor ()
      ensures Valid() && history == []
    {
      rows, history := map[], [];
    }

    method LoadArms(candidates: seq<ArmKey>) returns (out: seq<Arm>)
      ensures out == Loaded(rows, candidates)
    {
      out := [];
      for i := 0 to |candidates|
        invariant |out| == i && forall j | 0 <= j < i :: out[j] == Load(rows, candidates[j])
      {
        if candidates[i] in rows {
          out := out + [rows[candidates[i]]];
        } else {
          out := out + [Arm(candidates[i], 0, 0.0, 0.0, 0)];
        }
      }
    }

    method RecordReward(key: ArmKey, reward: real, now: int) returns (accepted: bool)
      requires Valid()
      modifies this
      ensures Valid() && (accepted <==> 0.0 <= reward <= 1.0)
      ensures history == old(history) + if accepted then [Pull(key, reward)] else []
      ensures rows == if accepted then Recorded(old(rows), Pull(key, reward), now) else old(rows)
    {
      if reward < 0.0 || reward > 1.0 { return false; }
      RecordedTallies(rows, history, Pull(key, reward), now);
      hide Tallies, InRange, Square;
      if key !in rows { rows := rows[key := Arm(key, 0, 0.0, 0.0, 0)]; }
      var row := rows[key];
      rows := rows[key := Arm(row.key, row.pulls + 1, row.rewardSum + reward, row.rewardSqSum + Square(reward), now)];
      history := history + [Pull(key, reward)];
      accepted := true;
    }
  }

  // ---- the catalog ----

  predicate Compatible(a: ArmKey, regime: Regime, workloadClass: string) {
    a.regime == regime && (a.workloadClass == "" || workloadClass == "" || a.workloadClass == workloadClass)
  }

  /** A wildcard row takes the class it is asked for. */
  function Filled(a: ArmKey, workloadClass: string): ArmKey {
    if a.workloadClass == "" then a.(workloadClass := workloadClass) else a
  }

  /** A compatible arm as the request names it. */
  function Aligned(a: ArmKey, regime: Regime, workloadClass: string): ArmKey {
    ArmKey(a.agentType, a.provider, workloadClass, regime)
  }

  /** The compatible arms in catalog order, wildcards filled in. */
  function Offered(arms: seq<ArmKey>, regime: Regime, workloadClass: string): seq<ArmKey>
    decreases |arms|
  {
    if arms == [] then []
    else
      var a := arms[|arms| - 1];
      Offered(arms[..|arms| - 1], regime, workloadClass) +
      if Compatible(a, regime, workloadClass) then [Filled(a, workloadClass)] else []
  }

  /** What a request chooses from, in order. */
  function CandidatesOf(arms: seq<ArmKey>, regime: Regime, workloadClass: string): seq<ArmKey> {
    var offered := Offered(arms, regime, workloadClass);
    seq(|offered|, i requires 0 <= i < |offered| => Aligned(offered[i], regime, workloadClass))
  }

  /** The i-th candidate is the arm at this place of the catalog, under the class asked for. */
  ghost predicate StandsFor(arms: seq<ArmKey>, workloadClass: string, candidate: ArmKey, k: nat) {
    k < |arms| && candidate == arms[k].(workloadClass := workloadClass)
  }

  /** The candidates stand for the compatible arms, each once, in catalog order. */
  lemma {:induction false} CandidatesInOrder(arms: seq<ArmKey>, regime: Regime, workloadClass: string)
    returns (at: seq<nat>)
    ensures |at| == |CandidatesOf(arms, regime, workloadClass)|
    ensures forall i | 0 <= i < |at| ::
            StandsFor(arms, workloadClass, CandidatesOf(arms, regime, workloadClass)[i], at[i])
    ensures forall i, j | 0 <= i < j < |at| :: at[i] < at[j]
    ensures forall k | 0 <= k < |arms| ::
              k in at <==> (arms[k].regime == regime &&
                            (arms[k].workloadClass == "" || workloadClass == "" ||
                             arms[k].workloadClass == workloadClass))
    decreases |arms|
  {
    at := [];
    if arms != [] {
      var init, a := arms[..|arms| - 1], arms[|arms| - 1];
      at := CandidatesInOrder(init, regime, workloadClass);
      var before, after := CandidatesOf(init, regime, workloadClass), CandidatesOf(arms, regime, workloadClass);
      assert after == before + if Compatible(a, regime, workloadClass) then [Aligned(a, regime, workloadClass)] else [];
      forall i | 0 <= i < |at| ensures StandsFor(arms, workloadClass, after[i], at[i]) {
        assert StandsFor(init, workloadClass, before[i], at[i]);
      }
      if Compatible(a, regime, workloadClass) { at := at + [|arms| - 1]; }
    }
  }

  /** A request chooses from exactly the arms it may be given. */
  lemma {:induction false} CandidatesAreLegal(arms: seq<ArmKey>, regime: Regime, workloadClass: string, key: ArmKey)
    ensures key in CandidatesOf(arms, regime, workloadClass) <==> IsLegal(arms, regime, workloadClass, key)
    decreases |arms|
  {
    if arms != [] {
      var init, a := arms[..|arms| - 1], arms[|arms| - 1];
      assert arms == init + [a];
      CandidatesAreLegal(init, regime, workloadClass, key);
      var before, after := CandidatesOf(init, regime, workloadClass), CandidatesOf(arms, regime, workloadClass);
      assert after == before + if Compatible(a, regime, workloadClass) then [Aligned(a, regime, workloadClass)] else [];
      if c :| c in arms && Compatible(c, regime, workloadClass) && key == Aligned(c, regime, workloadClass) {
        assert c in init || c == a;
      }
    }
  }

  class StaticCatalog {
    var arms: seq<ArmKey>

    constructor (arms: seq<ArmKey>)
      ensures this.arms == arms
    {
      this.arms := arms;
    }

    method Candidates(regime: Regime, workloadClass: string) returns (out: seq<ArmKey>)
      ensures out == Offered(arms, regime, workloadClass)
    {
      out := [];
      for i := 0 to |arms|
        invariant out == Offered(arms[..i], regime, workloadClass)
      {
        assert arms[..i + 1][..i] == arms[..i];
        var a := arms[i];
        if a.regime != regime { continue; }
        if a.workloadClass != "" && workloadClass != "" && a.workloadClass != workloadClass { continue; }
        var result := a;
        if a.workloadClass == "" { result := result.(workloadClass := workloadClass); }
        out := out + [result];
      }
      assert arms[..|arms|] == arms;
    }
  }

  // ---- the selector ----

  datatype PickResult = Picked(winner: ArmKey, score: Score, ranked: seq<Scored>) | InvalidRegime | NoCandidates

  /** The arms a request may be given. */
  ghost predicate IsLegal(arms: seq<ArmKey>, regime: Regime, workloadClass: string, key: ArmKey) {
    && key.regime == regime && key.workloadClass == workloadClass
    && exists a :: a in arms && a.agentType == key.agentType && a.provider == key.provider && a.regime == regime &&
         (a.workloadClass == "" || workloadClass == "" || a.workloadClass == workloadClass)
  }

  class UCBSelector {
    const catalog: StaticCatalog
    const stats: MemoryStats
    const model: RewardModel
    const bonus: Bonus

    constructor (catalog: StaticCatalog, stats: MemoryStats, model: RewardModel, bonus: Bonus)
      ensures this.catalog == catalog && this.stats == stats && this.model == model && this.bonus == bonus
    {
      this.catalog, this.stats, this.model, this.bonus := catalog, stats, model, bonus;
    }

    method Pick(regime: Regime, workloadClass: string) returns (r: PickResult, ghost at: int)
      requires stats.Valid()
      ensures r.InvalidRegime? <==> !regime.IsValid()
      ensures r.NoCandidates? <==> regime.IsValid() && CandidatesOf(catalog.arms, regime, workloadClass) == []
      ensures r.Picked? ==>
                var candidates := CandidatesOf(catalog.arms, regime, workloadClass);
                && IsWinner(Loaded(stats.rows, candidates), bonus, at) && at < |candidates| &&
                    r.winner == candidates[at]
                && |r.ranked| == |candidates| && r.score == r.ranked[at].score
                && forall i | 0 <= i < |candidates| :: r.ranked[i] == ScoredAt(stats.rows, candidates, bonus, i)
    {
      at := 0;
      if !regime.IsValid() { return InvalidRegime, 0; }
      var offered := catalog.Candidates(regime, workloadClass);
      if offered == [] { return NoCandidates, 0; }
      var cands := [];
      for i := 0 to |offered|
        invariant |cands| == i && forall j | 0 <= j < i :: cands[j] == Aligned(offered[j], regime, workloadClass)
      {
        cands := cands + [offered[i].(workloadClass := workloadClass, regime := regime)];
      }
      assert cands == CandidatesOf(catalog.arms, regime, workloadClass);
      var arms := stats.LoadArms(cands);
      var idx, score, ranked := PickByUCB(arms, bonus);
      return Picked(arms[idx].key, score, ranked), idx;
    }

    /** A model's reward is always recorded. */
    method Reward(key: ArmKey, outcome: Outcome, now: int) returns (ok: bool)
      requires stats.Valid()
      modifies stats
      ensures stats.Valid() && (ok <==> key.regime.IsValid())
      ensures stats.history == old(stats.history) + if ok then [Pull(key, Rewards.Reward(model, key.regime, outcome))]
              else []
      ensures stats.rows == if ok
              then Recorded(old(stats.rows), Pull(key, Rewards.Reward(model, key.regime, outcome)), now)
                  else old(stats.rows)
      ensures ok && CostFree(model, outcome) && !Signalled(key.regime, outcome) ==>
                stats.history == old(stats.history) + [Pull(key, if outcome.succeeded then 1.0 else 0.0)]
      ensures ok && CostFree(model, outcome) && Signalled(key.regime, outcome) ==>
                stats.history == old(stats.history) +
                [Pull(key, if outcome.verifierSignal <= 1.0 then outcome.verifierSignal else 1.0)]
    {
      if !key.regime.IsValid() { return false; }
      RewardIsRecordable(model, key.regime, outcome);
      ok := stats.RecordReward(key, Rewards.Reward(model, key.regime, outcome), now);
    }

    /** Pick and reward in turn. Over distinct arms without history, the first rounds go
        through the candidates one after the other, whatever comes of each. */
    method Play(regime: Regime, workloadClass: string, outcomes: seq<Outcome>) returns (picks: seq<ArmKey>)
      requires stats.Valid() && regime.IsValid()
      requires var keys := CandidatesOf(catalog.arms, regime, workloadClass);
               && DistinctKeys(keys) && |outcomes| <= |keys|
               && forall k | 0 <= k < |keys| :: Load(stats.rows, keys[k]).pulls == 0
      modifies stats
      ensures stats.Valid() && picks == CandidatesOf(catalog.arms, regime, workloadClass)[..|outcomes|]
      ensures forall key | key in picks :: Load(stats.rows, key).pulls == 1
    {
      hide Tallies, InRange, Rewards.Reward, CandidatesOf, IsPlay, IsWinner, Recorded;
      ghost var keys := CandidatesOf(catalog.arms, regime, workloadClass);
      ghost var states, rounds: seq<Round> := [stats.rows], [];
      assert IsPlay(states, rounds, keys, bonus) by { NothingPlayed(stats.rows, keys, bonus); }
      picks := [];
      for k := 0 to |outcomes|
        invariant stats.Valid() && picks == keys[..k]
        invariant |rounds| == k && |states| == k + 1 && IsPlay(states, rounds, keys, bonus)
        invariant states[0] == old(stats.rows) && states[k] == stats.rows
      {
        var r, at := Pick(regime, workloadClass);
        assert keys[at].regime == regime by { Regimes(catalog.arms, regime, workloadClass, at); }
        var ok := Reward(r.winner, outcomes[k], 0);
        ghost var reward := Rewards.Reward(model, regime, outcomes[k]);
        PlayGoesOn(states, rounds, keys, bonus, Round(at, reward, 0), stats.rows);
        states, rounds := states + [stats.rows], rounds + [Round(at, reward, 0)];
        FirstPicksInOrder(states, rounds, keys, bonus, k + 1);
        assert rounds[k].pick == k;
        picks := picks + [r.winner];
      }
      FirstPicksInOrder(states, rounds, keys, bonus, |outcomes|);
    }
  }

  lemma Regimes(arms: seq<ArmKey>, regime: Regime, workloadClass: string, k: nat)
    requires k < |CandidatesOf(arms, regime, workloadClass)|
    ensures CandidatesOf(arms, regime, workloadClass)[k].regime == regime
  {
  }
}
