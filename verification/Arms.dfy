/** Arms of the bandit, their running statistics, and the history those summarise.
    Rewards are reals: rounding is not modelled. */
module Arms {
  datatype Regime = Opaque | Verifiable | Proxied | OtherRegime(name: string)
  {
    predicate IsValid() { !OtherRegime? }
  }

  datatype ArmKey = ArmKey(agentType: string, provider: string, workloadClass: string, regime: Regime)

  datatype Arm = Arm(key: ArmKey, pulls: int, rewardSum: real, rewardSqSum: real, lastUpdated: int)
  {
    function Mean(): real { if pulls <= 0 then 0.0 else rewardSum / pulls as real }

    function Variance(): real { if pulls <= 1 then 0.0 else rewardSqSum / pulls as real - Mean() * Mean() }
  }

  type Rows = map<ArmKey, Arm>

  datatype Pull = Pull(key: ArmKey, reward: real)

  function Square(x: real): real { x * x }

  function Pulls(history: seq<Pull>, key: ArmKey): nat
    decreases |history|
  {
    if history == [] then 0
    else Pulls(history[..|history| - 1], key) + if history[|history| - 1].key == key then 1 else 0
  }

  function SumOf(history: seq<Pull>, key: ArmKey): real
    decreases |history|
  {
    if history == [] then 0.0
    else
      var last := history[|history| - 1];
      SumOf(history[..|history| - 1], key) + if last.key == key then last.reward else 0.0
  }

  function SqSumOf(history: seq<Pull>, key: ArmKey): real
    decreases |history|
  {
    if history == [] then 0.0
    else
      var last := history[|history| - 1];
      SqSumOf(history[..|history| - 1], key) + if last.key == key then Square(last.reward) else 0.0
  }

  ghost predicate InRange(history: seq<Pull>) { forall i | 0 <= i < |history| :: 0.0 <= history[i].reward <= 1.0 }

  /** A row is exactly the fold of its arm's rewards; arms never rewarded have none. */
  ghost predicate Tallies(rows: Rows, history: seq<Pull>) {
    && (forall key | key in rows ::
          var a := rows[key];
          a.key == key && a.pulls == Pulls(history, key) > 0 && a.rewardSum == SumOf(history, key) &&
          a.rewardSqSum == SqSumOf(history, key))
    && (forall i | 0 <= i < |history| :: history[i].key in rows)
  }

  function Load(rows: Rows, key: ArmKey): Arm { if key in rows then rows[key] else Arm(key, 0, 0.0, 0.0, 0) }

  function Recorded(rows: Rows, p: Pull, now: int): Rows {
    var row := Load(rows, p.key);
    rows[p.key := Arm(p.key, row.pulls + 1, row.rewardSum + p.reward, row.rewardSqSum + Square(p.reward), now)]
  }

  lemma {:induction false} NeverPulled(history: seq<Pull>, key: ArmKey)
    requires forall i | 0 <= i < |history| :: history[i].key != key
    ensures Pulls(history, key) == 0 && SumOf(history, key) == 0.0 && SqSumOf(history, key) == 0.0
    decreases |history|
  {
    if history != [] { NeverPulled(history[..|history| - 1], key); }
  }

  lemma OneMorePull(history: seq<Pull>, p: Pull, key: ArmKey)
    ensures Pulls(history + [p], key) == Pulls(history, key) + if p.key == key then 1 else 0
    ensures SumOf(history + [p], key) == SumOf(history, key) + if p.key == key then p.reward else 0.0
    ensures SqSumOf(history + [p], key) == SqSumOf(history, key) + if p.key == key then Square(p.reward) else 0.0
  {
    assert (history + [p])[..|history|] == history;
  }

  lemma RecordedTallies(rows: Rows, history: seq<Pull>, p: Pull, now: int)
    requires Tallies(rows, history)
    ensures Tallies(Recorded(rows, p, now), history + [p])
    ensures InRange(history) && 0.0 <= p.reward <= 1.0 ==> InRange(history + [p])
  {
    hide Pulls, SumOf, SqSumOf;
    var after := Recorded(rows, p, now);
    forall key | key in after
      ensures after[key].key == key && after[key].pulls == Pulls(history + [p], key) > 0
      ensures after[key].rewardSum == SumOf(history + [p], key) && after[key].rewardSqSum == SqSumOf(history + [p], key)
    {
      OneMorePull(history, p, key);
      if key !in rows { NeverPulled(history, key); }
    }
  }

  // ---- what the statistics can be relied on for ----

  lemma SquareIsNonNegative(x: real)
    ensures x * x >= 0.0
  {
  }

  lemma NonNegativeProduct(x: real, y: real)
    requires x >= 0.0 && y >= 0.0
    ensures x * y >= 0.0
  {
  }

  lemma PositiveFactor(n: real, x: real)
    requires n > 0.0 && n * x >= 0.0
    ensures x >= 0.0
  {
  }

  /** One more reward keeps n * sq >= sum * sum. */
  lemma CauchyStep(n: real, sq: real, sum: real, r: real)
    requires n >= 1.0 && n * sq >= sum * sum
    ensures (n + 1.0) * (sq + r * r) >= (sum + r) * (sum + r)
  {
    var gap := sq + n * (r * r) - 2.0 * (sum * r);
    SquareIsNonNegative(sum - n * r);
    assert (sum - n * r) * (sum - n * r) == sum * sum - 2.0 * (n * (sum * r)) + n * (n * (r * r));
    assert n * gap == n * sq + n * (n * (r * r)) - 2.0 * (n * (sum * r));
    PositiveFactor(n, gap);
    assert (n + 1.0) * (sq + r * r) == n * sq + n * (r * r) + sq + r * r;
    assert (sum + r) * (sum + r) == sum * sum + 2.0 * (sum * r) + r * r;
  }

  lemma {:induction false} SquaresDominate(history: seq<Pull>, key: ArmKey)
    requires InRange(history)
    ensures Sane(Pulls(history, key) as real, SqSumOf(history, key), SumOf(history, key))
    decreases |history|
  {
    hide Pulls, SumOf, SqSumOf, Sane;
    NothingIsSane();
    if history == [] {
      NeverPulled(history, key);
    } else {
      var init, last := history[..|history| - 1], history[|history| - 1];
      assert history == init + [last];
      SquaresDominate(init, key);
      OneMorePull(init, last, key);
      if last.key == key {
        FoldStep(Pulls(init, key) as real, SqSumOf(init, key), SumOf(init, key), last.reward,
                 Pulls(history, key) as real, SqSumOf(history, key), SumOf(history, key));
      }
    }
  }

  predicate Sane(n: real, sq: real, sum: real) {
    n * sq >= sum * sum && 0.0 <= sq <= sum <= n && (n == 0.0 || n >= 1.0)
  }

  lemma NothingIsSane()
    ensures Sane(0.0, 0.0, 0.0)
  {
  }

  lemma FoldStep(n: real, sq: real, sum: real, r: real, n': real, sq': real, sum': real)
    requires Sane(n, sq, sum) && 0.0 <= r <= 1.0 && n' == n + 1.0 && sq' == sq + Square(r) && sum' == sum + r
    ensures Sane(n', sq', sum')
  {
    NonNegativeProduct(r, 1.0 - r);
    SquareIsNonNegative(r);
    if n >= 1.0 { CauchyStep(n, sq, sum, r); }
  }

  lemma Ratios(n: real, sq: real, sum: real)
    requires n > 0.0 && Sane(n, sq, sum)
    ensures 0.0 <= sum / n <= 1.0
    ensures 0.0 <= sq / n - (sum / n) * (sum / n) <= 0.25
  {
    var m, v := sum / n, sq / n;
    assert m * n == sum && v * n == sq;
    UnitRatio(m, n);
    assert n * (m - v) >= 0.0;
    PositiveFactor(n, m - v);
    assert n * (n * v) == n * sq && (n * m) * (n * m) == sum * sum;
    assert n * (n * (v - m * m)) == n * (n * v) - (n * m) * (n * m);
    PositiveFactor(n, n * (v - m * m));
    PositiveFactor(n, v - m * m);
    SquareIsNonNegative(m - 0.5);
    assert (m - 0.5) * (m - 0.5) == m * m - m + 0.25;
  }

  lemma UnitRatio(m: real, n: real)
    requires n > 0.0 && 0.0 <= m * n <= n
    ensures 0.0 <= m <= 1.0
  {
    PositiveFactor(n, m);
    assert n * (1.0 - m) == n - m * n;
    PositiveFactor(n, 1.0 - m);
  }

  ghost predicate Trustworthy(a: Arm) {
    0.0 <= a.Mean() <= 1.0 && 0.0 <= a.Variance() <= 0.25 &&
    a.pulls as real * a.rewardSqSum >= a.rewardSum * a.rewardSum
  }

  lemma SaneArm(a: Arm)
    requires a.pulls > 0 && Sane(a.pulls as real, a.rewardSqSum, a.rewardSum)
    ensures Trustworthy(a)
  {
    Ratios(a.pulls as real, a.rewardSqSum, a.rewardSum);
  }

  /** Every row's mean is a reward and its variance is between 0 and 1/4. */
  lemma StatisticsAreSane(rows: Rows, history: seq<Pull>, key: ArmKey)
    requires Tallies(rows, history) && InRange(history)
    ensures Trustworthy(Load(rows, key))
  {
    if key in rows {
      SquaresDominate(history, key);
      hide Pulls, SumOf, SqSumOf, Sane, Trustworthy;
      SaneArm(rows[key]);
    }
  }

  /** Mean and variance belong to the rewards recorded: the one times the pulls is their
      sum, and the other is how far their squares exceed it. */
  lemma MomentsOf(rows: Rows, history: seq<Pull>, key: ArmKey)
    requires Tallies(rows, history) && key in rows
    ensures var a, n := rows[key], Pulls(history, key) as real;
            && n > 0.0 && n * a.Mean() == SumOf(history, key)
            && (n > 1.0 ==> n * n * a.Variance() == n * SqSumOf(history, key) - Square(SumOf(history, key)))
            && (n == 1.0 ==> a.Variance() == 0.0)
  {
    hide Pulls, SumOf, SqSumOf;
    var a := rows[key];
    Moments(a.pulls as real, a.rewardSum, a.rewardSqSum);
  }

  lemma Moments(n: real, sum: real, sq: real)
    requires n > 0.0
    ensures n * (sum / n) == sum
    ensures n * n * (sq / n - (sum / n) * (sum / n)) == n * sq - sum * sum
  {
    var m, v := sum / n, sq / n;
    assert n * m == sum && n * v == sq;
    assert n * n * (m * m) == (n * m) * (n * m);
    assert n * n * v == n * (n * v);
    assert n * n * (v - m * m) == n * n * v - n * n * (m * m);
  }
}
