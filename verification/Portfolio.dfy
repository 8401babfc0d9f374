/** Combining two equity curves into a weighted portfolio, its drawdown and its monthly
    returns. */
module Portfolio {
  import opened Wrappers
  import opened Drawdown
  import opened Reals

  const INITIAL: real := 1000.0

  /** Bars of four hours. */
  const PERIODS_PER_YEAR: real := 2190.0

  // ----- The combined curve

  /** The value of a portfolio that puts `weight` on `l` and the rest on `r`. */
  function Mix(weight: real, l: real, r: real): real { Product(weight, l) + Product(1.0 - weight, r) }

  function Blend(weight: real, left: seq<real>, right: seq<real>): (curve: seq<real>)
    requires |left| == |right|
    ensures |curve| == |left|
    ensures forall i :: 0 <= i < |left| ==> curve[i] == weight * left[i] + (1.0 - weight) * right[i]
    ensures forall i :: 0 <= i < |left| ==> curve[i] == Mix(weight, left[i], right[i])
  {
    seq(|left|, i requires 0 <= i < |left| => Mix(weight, left[i], right[i]))
  }

  datatype Trade = Trade(pnl: real)

  /** One arm: its clock, its equity curve, its trades and the side it held at each bar. */
  datatype Arm = Arm(timestamps: seq<int>, equity: seq<real>, trades: seq<Trade>, sides: seq<Option<string>>)

  datatype CombineError = BadWeight | ClocksDiffer | CurvesMisaligned | ClockMisaligned

  datatype Combined = Combined(
    equity: seq<real>,
    netProfitPct: real,
    profitFactor: real,
    maxDrawdownPct: real,
    sharpe: real,
    cagrPct: real,
    wins: nat,
    losses: nat,
    winRate: real,
    grossProfit: real,
    grossLoss: real,
    monthlyReturns: seq<(int, real)>,
    positiveMonths: nat,
    exposurePct: real,
    conflictBars: nat,
    conflictRatePct: real)

  function Weighted(trades: seq<Trade>, weight: real): (pnls: seq<real>)
    ensures |pnls| == |trades|
    ensures forall i :: 0 <= i < |trades| ==> pnls[i] == trades[i].pnl * weight
  {
    seq(|trades|, i requires 0 <= i < |trades| => trades[i].pnl * weight)
  }

  function Count(pnls: seq<real>, winning: bool): nat
    decreases |pnls|
  {
    if pnls == [] then 0 else Count(pnls[..|pnls| - 1], winning) + if (pnls[|pnls| - 1] > 0.0) == winning then 1 else 0
  }

  function Total(pnls: seq<real>, winning: bool): real
    decreases |pnls|
  {
    if pnls == [] then 0.0
    else
      var last := pnls[|pnls| - 1];
      Total(pnls[..|pnls| - 1], winning) + if (if winning then last > 0.0 else last < 0.0) then last else 0.0
  }

  /** Both arms hold a position, on different sides. */
  predicate Conflicting(left: Option<string>, right: Option<string>) { left.Some? && right.Some? && left != right }

  predicate Exposed(left: Option<string>, right: Option<string>) { left.Some? || right.Some? }

  /** How many of the first `n` bars conflict. */
  function Conflicts(left: seq<Option<string>>, right: seq<Option<string>>, n: nat): nat
    requires n <= |left| && n <= |right|
    decreases n
  {
    if n == 0 then 0 else Conflicts(left, right, n - 1) + if Conflicting(left[n - 1], right[n - 1]) then 1 else 0
  }

  function Exposures(left: seq<Option<string>>, right: seq<Option<string>>, n: nat): nat
    requires n <= |left| && n <= |right|
    decreases n
  {
    if n == 0 then 0 else Exposures(left, right, n - 1) + if Exposed(left[n - 1], right[n - 1]) then 1 else 0
  }

  /** Bars that both curves cover. */
  function Shorter<T>(left: seq<T>, right: seq<T>): (n: nat)
    ensures n <= |left| && n <= |right| && (n == |left| || n == |right|)
  {
    if |left| <= |right| then |left| else |right|
  }

  function ProfitFactor(profit: real, loss: real): real {
    Min(1000.0, if loss > 0.0 then profit / loss else if profit != 0.0 then 1000.0 else 0.0)
  }

  function Percent(part: nat, whole: nat): real { if whole == 0 then 0.0 else part as real / whole as real * 100.0 }

  /** The month of each point of a curve. */
  function Months(timestamps: seq<int>, month: int -> int): (labels: seq<int>)
    ensures |labels| == |timestamps|
  {
    seq(|timestamps|, i requires 0 <= i < |timestamps| => month(timestamps[i]))
  }

  function Gaining(months: seq<(int, real)>): nat
    decreases |months|
  {
    if months == [] then 0
    else Gaining(months[..|months| - 1]) + if months[|months| - 1].1 > 0.0 then 1 else 0
  }

  /** The relative change from each bar to the next, where the earlier value is positive. */
  function BarReturns(equity: seq<real>): seq<real>
    decreases |equity|
  {
    if |equity| <= 1 then []
    else
      var n := |equity| - 1;
      BarReturns(equity[..n]) + if equity[n - 1] > 0.0 then [equity[n] / equity[n - 1] - 1.0] else []
  }

  /** What the program takes from elsewhere: the calendar, the Sharpe ratio of a list of
      returns, and real powers. */
  datatype Library = Library(month: int -> int, sharpe: seq<real> -> real, power: (real, real) -> real)

  function Sharpe(lib: Library, equity: seq<real>): real {
    if |BarReturns(equity)| > 1 then lib.sharpe(BarReturns(equity)) else 0.0
  }

  function Cagr(lib: Library, equity: seq<real>): real
    requires equity != []
  {
    var final, years := equity[|equity| - 1], |equity| as real / PERIODS_PER_YEAR;
    if final > 0.0 then (lib.power(final / INITIAL, 1.0 / years) - 1.0) * 100.0 else 0.0
  }

  /** The figures of two arms on one clock. */
  function Measured(left: Arm, right: Arm, weight: real, lib: Library): Combined
    requires |left.timestamps| == |left.equity| == |right.equity| > 0
  {
    var equity, bars := Blend(weight, left.equity, right.equity), |left.equity|;
    var pnls := Weighted(left.trades, weight) + Weighted(right.trades, 1.0 - weight);
    var profit, loss := Total(pnls, true), Abs(Total(pnls, false));
    var sides := Shorter(left.sides, right.sides);
    var conflicts, exposed := Conflicts(left.sides, right.sides, sides), Exposures(left.sides, right.sides, sides);
    var monthly := Returns(MonthEnds(Months(left.timestamps, lib.month), equity), INITIAL);
    Combined(equity, NetProfit(equity), ProfitFactor(profit, loss),
             100.0 * MaxDrawdown(INITIAL, equity), Sharpe(lib, equity), Cagr(lib, equity),
             Count(pnls, true), Count(pnls, false), Percent(Count(pnls, true), |pnls|), profit, loss,
             monthly, Gaining(monthly), Percent(exposed, bars), conflicts, Percent(conflicts, bars))
  }

  function NetProfit(equity: seq<real>): real
    requires equity != []
  {
    (equity[|equity| - 1] / INITIAL - 1.0) * 100.0
  }

  function CombineSpec(left: Arm, right: Arm, weight: real, lib: Library): Result<Combined, CombineError> {
    if !(0.0 < weight < 1.0) then Failure(BadWeight)
    else if left.timestamps != right.timestamps then Failure(ClocksDiffer)
    else if |left.equity| != |right.equity| || left.equity == [] then Failure(CurvesMisaligned)
    else if |left.timestamps| != |left.equity| then Failure(ClockMisaligned)
    else Success(Measured(left, right, weight, lib))
  }

  method CombineArms(left: Arm, right: Arm, weight: real, lib: Library)
    returns (r: Result<Combined, CombineError>)
    ensures r == CombineSpec(left, right, weight, lib)
  {
    var rightWeight := 1.0 - weight;
    if !(0.0 < weight < 1.0) {
      return Failure(BadWeight);
    }
    if left.timestamps != right.timestamps {
      return Failure(ClocksDiffer);
    }
    if |left.equity| != |right.equity| || left.equity == [] {
      return Failure(CurvesMisaligned);
    }
    if |left.timestamps| != |left.equity| {
      return Failure(ClockMisaligned);
    }
    hide Measured;
    var measured := Measure(left, right, weight, rightWeight, lib);
    r := Success(measured);
  }

  method Measure(left: Arm, right: Arm, weight: real, rightWeight: real, lib: Library) returns (r: Combined)
    requires |left.timestamps| == |left.equity| == |right.equity| > 0 && rightWeight == 1.0 - weight
    ensures r == Measured(left, right, weight, lib)
  {
    hide Sharpe, Cagr, NetProfit, Returns, MonthEnds, Gaining, MaxDrawdown, Count, Total, Conflicts, Exposures;
    hide Percent, ProfitFactor, Blend, Weighted, Months, Abs;
    var equity, bars := Blend(weight, left.equity, right.equity), |left.equity|;
    var maxDrawdown := DrawdownPct(equity);
    var pnls := Weighted(left.trades, weight) + Weighted(right.trades, rightWeight);
    var wins, losses, profit, loss := Tally(pnls);
    var conflicts, exposed := SideCounts(left.sides, right.sides);
    var monthly := MonthlyReturns(Months(left.timestamps, lib.month), equity, INITIAL);
    r := Combined(equity, NetProfit(equity), ProfitFactor(profit, Abs(loss)), maxDrawdown, Sharpe(lib, equity),
                  Cagr(lib, equity), wins, losses, Percent(wins, |pnls|), profit, Abs(loss), monthly,
                  Gaining(monthly), Percent(exposed, bars), conflicts, Percent(conflicts, bars));
  }

  method SideCounts(left: seq<Option<string>>, right: seq<Option<string>>) returns (conflicts: nat, exposed: nat)
    ensures conflicts == Conflicts(left, right, Shorter(left, right))
            && exposed == Exposures(left, right, Shorter(left, right))
    ensures conflicts <= exposed <= Shorter(left, right)
  {
    conflicts, exposed := 0, 0;
    for i := 0 to Shorter(left, right)
      invariant conflicts == Conflicts(left, right, i) && exposed == Exposures(left, right, i)
      invariant conflicts <= exposed <= i
    {
      if Conflicting(left[i], right[i]) {
        conflicts := conflicts + 1;
      }
      if Exposed(left[i], right[i]) {
        exposed := exposed + 1;
      }
    }
  }

  /** Every trade is a win or a loss, and the two gross figures account for all of it. */
  lemma {:induction false} TallyAccounts(pnls: seq<real>)
    ensures Count(pnls, true) + Count(pnls, false) == |pnls|
    ensures Total(pnls, true) >= 0.0 >= Total(pnls, false)
    ensures Total(pnls, true) + Total(pnls, false) == Sum(pnls)
    decreases |pnls|
  {
    if pnls != [] {
      TallyAccounts(pnls[..|pnls| - 1]);
    }
  }

  method DrawdownPct(equity: seq<real>) returns (worst: real)
    ensures worst == 100.0 * MaxDrawdown(INITIAL, equity)
  {
    var peak := INITIAL;
    worst := 0.0;
    var i := 0;
    assert equity[..0] == [];
    while i < |equity|
      invariant 0 <= i <= |equity|
      invariant peak == Peak(INITIAL, equity[..i])
      invariant worst == 100.0 * MaxDrawdown(INITIAL, equity[..i])
    {
      var value := equity[i];
      assert equity[..i + 1][..i] == equity[..i];
      ghost var before := MaxDrawdown(INITIAL, equity[..i]);
      peak := Max(peak, value);
      assert peak == Peak(INITIAL, equity[..i + 1]);
      PercentStep(before, peak, value);
      if peak > 0.0 {
        worst := Max(worst, (peak - value) / peak * 100.0);
      }
      i := i + 1;
    }
    assert equity[..i] == equity;
  }

  method Tally(pnls: seq<real>) returns (wins: nat, losses: nat, profit: real, loss: real)
    ensures wins == Count(pnls, true) && losses == Count(pnls, false)
    ensures profit == Total(pnls, true) && loss == Total(pnls, false)
  {
    wins, losses, profit, loss := 0, 0, 0.0, 0.0;
    var i := 0;
    assert pnls[..0] == [];
    while i < |pnls|
      invariant 0 <= i <= |pnls|
      invariant wins == Count(pnls[..i], true) && losses == Count(pnls[..i], false)
      invariant profit == Total(pnls[..i], true) && loss == Total(pnls[..i], false)
    {
      assert pnls[..i + 1][..i] == pnls[..i];
      var pnl := pnls[i];
      if pnl > 0.0 {
        wins, profit := wins + 1, profit + pnl;
      } else {
        losses := losses + 1;
        if pnl < 0.0 {
          loss := loss + pnl;
        }
      }
      i := i + 1;
    }
    assert pnls[..i] == pnls;
  }

  // ----- What the figures are

  /** When two arms can be combined, and why not. */
  lemma CombinesIff(left: Arm, right: Arm, weight: real, lib: Library)
    ensures var r := CombineSpec(left, right, weight, lib);
            && (r.Success? <==> 0.0 < weight < 1.0 && left.timestamps == right.timestamps
                                && |left.timestamps| == |left.equity| == |right.equity| > 0)
            && (weight <= 0.0 || weight >= 1.0 ==> r == Failure(BadWeight))
            && (0.0 < weight < 1.0 && left.timestamps != right.timestamps ==> r == Failure(ClocksDiffer))
  {
    hide Measured;
  }

  /** The combined curve puts the weight on the left arm and the rest on the right one, bar by
      bar; so does its net profit. */
  lemma WeightsOfArms(left: Arm, right: Arm, weight: real, lib: Library)
    requires CombineSpec(left, right, weight, lib).Success?
    ensures var c, n := CombineSpec(left, right, weight, lib).value, |left.equity|;
            && |c.equity| == n == |right.equity| > 0
            && (forall i :: 0 <= i < n ==> c.equity[i] == weight * left.equity[i] + (1.0 - weight) * right.equity[i])
            && c.netProfitPct == weight * ((left.equity[n - 1] / 1000.0 - 1.0) * 100.0)
                                 + (1.0 - weight) * ((right.equity[n - 1] / 1000.0 - 1.0) * 100.0)
            && c.netProfitPct == (c.equity[n - 1] - 1000.0) / 10.0
  {
    hide Sharpe, Cagr, Returns, MonthEnds, Gaining, MaxDrawdown, Count, Total, Conflicts, Exposures;
    hide Percent, ProfitFactor, Weighted, Months, Abs, Mix;
    NetOfWeights(weight, left.equity[|left.equity| - 1], right.equity[|left.equity| - 1]);
  }

  lemma NetOfWeights(weight: real, l: real, r: real)
    ensures ((weight * l + (1.0 - weight) * r) / 1000.0 - 1.0) * 100.0 ==
            weight * ((l / 1000.0 - 1.0) * 100.0) + (1.0 - weight) * ((r / 1000.0 - 1.0) * 100.0)
  {
  }

  /** The results of the trades, each with the weight of its arm; and what of each was gained
      and lost. */
  ghost predicate WeightedResults(left: Arm, right: Arm, weight: real, pnls: seq<real>, gains: seq<real>,
                                  losses: seq<real>) {
    var n := |left.trades|;
    && |pnls| == n + |right.trades| == |gains| == |losses|
    && (forall k :: 0 <= k < n ==> pnls[k] == left.trades[k].pnl * weight)
    && (forall k :: n <= k < |pnls| ==> pnls[k] == right.trades[k - n].pnl * (1.0 - weight))
    && (forall k :: 0 <= k < |pnls| ==> gains[k] == if pnls[k] > 0.0 then pnls[k] else 0.0)
    && (forall k :: 0 <= k < |pnls| ==> losses[k] == if pnls[k] < 0.0 then -pnls[k] else 0.0)
  }

  lemma {:induction false} TotalsAre(pnls: seq<real>, gains: seq<real>, losses: seq<real>)
    requires |gains| == |losses| == |pnls|
    requires forall k :: 0 <= k < |pnls| ==> gains[k] == if pnls[k] > 0.0 then pnls[k] else 0.0
    requires forall k :: 0 <= k < |pnls| ==> losses[k] == if pnls[k] < 0.0 then -pnls[k] else 0.0
    ensures Total(pnls, true) == Sum(gains) && Total(pnls, false) == -Sum(losses) && Sum(losses) >= 0.0
    decreases |pnls|
  {
    if pnls != [] {
      var n := |pnls| - 1;
      TotalsAre(pnls[..n], gains[..n], losses[..n]);
    }
  }

  lemma {:induction false} CountIs(pnls: seq<real>)
    ensures Count(pnls, true) == |set k | 0 <= k < |pnls| && pnls[k] > 0.0|
    decreases |pnls|
  {
    var after := set k | 0 <= k < |pnls| && pnls[k] > 0.0;
    if pnls == [] {
      assert after == {};
    } else {
      var n := |pnls| - 1;
      CountIs(pnls[..n]);
      var before := set k | 0 <= k < n && pnls[..n][k] > 0.0;
      assert after == if pnls[n] > 0.0 then before + {n} else before;
    }
  }

  /** The trade figures: wins and losses, gross profit and loss, win rate and profit factor,
      over the results of both arms, each with its own weight. */
  lemma TradeFigures(left: Arm, right: Arm, weight: real, lib: Library, pnls: seq<real>, gains: seq<real>,
                     losses: seq<real>)
    requires CombineSpec(left, right, weight, lib).Success?
    requires WeightedResults(left, right, weight, pnls, gains, losses)
    ensures var c := CombineSpec(left, right, weight, lib).value;
            && c.wins == |set k | 0 <= k < |pnls| && pnls[k] > 0.0| && c.wins + c.losses == |pnls|
            && c.grossProfit == Sum(gains) && c.grossLoss == Sum(losses)
            && c.winRate * |pnls| as real == 100.0 * c.wins as real && (pnls == [] ==> c.winRate == 0.0)
            && (c.grossLoss > 0.0 ==>
                  c.profitFactor * c.grossLoss == Min(1000.0 * c.grossLoss, c.grossProfit))
            && (c.grossLoss == 0.0 ==> c.profitFactor == if c.grossProfit != 0.0 then 1000.0 else 0.0)
  {
    hide Sharpe, Cagr, NetProfit, Returns, MonthEnds, Gaining, MaxDrawdown, Conflicts, Exposures, Months, Blend;
    hide Count, Total, Sum, WeightedResults, Weighted, Percent, ProfitFactor;
    SamePnls(left, right, weight, pnls, gains, losses);
    TotalsAre(pnls, gains, losses);
    CountIs(pnls);
    TallyAccounts(pnls);
    PercentIs(Count(pnls, true), |pnls|);
    FactorIs(Sum(gains), Sum(losses));
  }

  lemma SamePnls(left: Arm, right: Arm, weight: real, pnls: seq<real>, gains: seq<real>, losses: seq<real>)
    requires WeightedResults(left, right, weight, pnls, gains, losses)
    ensures pnls == Weighted(left.trades, weight) + Weighted(right.trades, 1.0 - weight)
    ensures |gains| == |losses| == |pnls|
    ensures forall k :: 0 <= k < |pnls| ==> gains[k] == if pnls[k] > 0.0 then pnls[k] else 0.0
    ensures forall k :: 0 <= k < |pnls| ==> losses[k] == if pnls[k] < 0.0 then -pnls[k] else 0.0
  {
    var l, r := Weighted(left.trades, weight), Weighted(right.trades, 1.0 - weight);
    forall k | 0 <= k < |pnls| ensures pnls[k] == (l + r)[k] {
    }
    assert |pnls| == |l + r|;
  }

  lemma PercentIs(part: nat, whole: nat)
    ensures Percent(part, whole) * whole as real == if whole == 0 then 0.0 else 100.0 * part as real
    ensures whole == 0 ==> Percent(part, whole) == 0.0
  {
    if whole > 0 {
      var q, n := part as real / whole as real, whole as real;
      QuotientBack(part as real, n);
      Hundredfold(q, n);
      assert Percent(part, whole) == q * 100.0;
      assert Percent(part, whole) * n == 100.0 * (q * n);
    } else {
      assert Percent(part, whole) == 0.0 && whole as real == 0.0;
    }
  }

  lemma QuotientBack(x: real, n: real)
    requires n > 0.0
    ensures x / n * n == x
  {
  }

  lemma Hundredfold(q: real, n: real)
    ensures q * 100.0 * n == 100.0 * (q * n)
  {
  }

  lemma FactorIs(profit: real, loss: real)
    ensures loss > 0.0 ==> ProfitFactor(profit, loss) * loss == Min(1000.0 * loss, profit)
    ensures loss <= 0.0 ==> ProfitFactor(profit, loss) == if profit != 0.0 then 1000.0 else 0.0
  {
    if loss > 0.0 {
      QuotientBack(profit, loss);
      CappedTimes(profit / loss, loss);
    }
  }

  lemma CappedTimes(q: real, n: real)
    requires n > 0.0
    ensures Min(1000.0, q) * n == Min(1000.0 * n, q * n)
  {
    assert q < 1000.0 <==> q * n < 1000.0 * n;
  }

  /** Drawdown, months and exposure. */
  lemma CurveFigures(left: Arm, right: Arm, weight: real, lib: Library)
    requires CombineSpec(left, right, weight, lib).Success?
    ensures var c, n := CombineSpec(left, right, weight, lib).value, |left.equity|;
            && c.maxDrawdownPct / 100.0 == MaxDrawdown(1000.0, c.equity)
            && c.monthlyReturns == Returns(MonthEnds(Months(left.timestamps, lib.month), c.equity), 1000.0)
            && c.positiveMonths == |set k | 0 <= k < |c.monthlyReturns| && c.monthlyReturns[k].1 > 0.0|
            && c.conflictBars == |set k | 0 <= k < |left.sides| && k < |right.sides|
                                   && left.sides[k].Some? && right.sides[k].Some? && left.sides[k] != right.sides[k]|
            && c.conflictRatePct * n as real == 100.0 * c.conflictBars as real
            && c.exposurePct * n as real == 100.0 * |set k | 0 <= k < |left.sides| && k < |right.sides|
                                                     && (left.sides[k].Some? || right.sides[k].Some?)| as real
  {
    hide Sharpe, Cagr, NetProfit, Returns, MonthEnds, Gaining, MaxDrawdown, Conflicts, Exposures, Months, Blend;
    hide Count, Total, Weighted, Percent, ProfitFactor;
    var sides := Shorter(left.sides, right.sides);
    var months := CombineSpec(left, right, weight, lib).value.monthlyReturns;
    GainingIs(months);
    ConflictSet(left.sides, right.sides, sides);
    ExposureSet(left.sides, right.sides, sides);
    var conflicts := set k | 0 <= k < sides && left.sides[k].Some? && right.sides[k].Some?
                             && left.sides[k] != right.sides[k];
    assert conflicts == set k | 0 <= k < |left.sides| && k < |right.sides|
                                && left.sides[k].Some? && right.sides[k].Some? && left.sides[k] != right.sides[k];
    var exposed := set k | 0 <= k < sides && (left.sides[k].Some? || right.sides[k].Some?);
    assert exposed == set k | 0 <= k < |left.sides| && k < |right.sides|
                              && (left.sides[k].Some? || right.sides[k].Some?);
    PercentIs(Conflicts(left.sides, right.sides, sides), |left.equity|);
    PercentIs(Exposures(left.sides, right.sides, sides), |left.equity|);
  }

  lemma {:induction false} GainingIs(months: seq<(int, real)>)
    ensures Gaining(months) == |set k | 0 <= k < |months| && months[k].1 > 0.0|
    decreases |months|
  {
    var after := set k | 0 <= k < |months| && months[k].1 > 0.0;
    if months == [] {
      assert after == {};
    } else {
      var n := |months| - 1;
      GainingIs(months[..n]);
      var before := set k | 0 <= k < n && months[..n][k].1 > 0.0;
      assert after == if months[n].1 > 0.0 then before + {n} else before;
    }
  }

  lemma {:induction false} ConflictSet(left: seq<Option<string>>, right: seq<Option<string>>, n: nat)
    requires n <= |left| && n <= |right|
    ensures Conflicts(left, right, n) ==
            |set k | 0 <= k < n && left[k].Some? && right[k].Some? && left[k] != right[k]|
    decreases n
  {
    var conflicts := set k | 0 <= k < n && left[k].Some? && right[k].Some? && left[k] != right[k];
    if n == 0 {
      assert conflicts == {};
    } else {
      ConflictSet(left, right, n - 1);
      var m := n - 1;
      var before := set k | 0 <= k < m && left[k].Some? && right[k].Some? && left[k] != right[k];
      assert conflicts == if left[m].Some? && right[m].Some? && left[m] != right[m] then before + {m} else before;
    }
  }

  lemma {:induction false} ExposureSet(left: seq<Option<string>>, right: seq<Option<string>>, n: nat)
    requires n <= |left| && n <= |right|
    ensures Exposures(left, right, n) == |set k | 0 <= k < n && (left[k].Some? || right[k].Some?)|
    decreases n
  {
    var exposed := set k | 0 <= k < n && (left[k].Some? || right[k].Some?);
    if n == 0 {
      assert exposed == {};
    } else {
      ExposureSet(left, right, n - 1);
      var m := n - 1;
      var before := set k | 0 <= k < m && (left[k].Some? || right[k].Some?);
      assert exposed == if left[m].Some? || right[m].Some? then before + {m} else before;
    }
  }

  lemma RiseIs(before: real, after: real)
    requires before > 0.0
    ensures after / before - 1.0 == (after - before) / before
  {
    var q, r := after / before, (after - before) / before;
    QuotientBack(after, before);
    QuotientBack(after - before, before);
    OneLess(q, before);
    SameFactor(q - 1.0, r, before);
  }

  lemma OneLess(q: real, n: real)
    ensures (q - 1.0) * n == q * n - n
  {
  }

  lemma SameFactor(x: real, y: real, n: real)
    requires n > 0.0 && x * n == y * n
    ensures x == y
  {
    assert (x - y) * n == 0.0;
  }

  /** What the Sharpe ratio is taken of, on a positive curve: the relative rises from bar to bar,
      if there are at least two. */
  lemma RateFigures(left: Arm, right: Arm, weight: real, lib: Library, rises: seq<real>)
    requires CombineSpec(left, right, weight, lib).Success?
    requires var equity := CombineSpec(left, right, weight, lib).value.equity;
             && |rises| == |equity| - 1 && (forall i :: 0 <= i < |equity| ==> equity[i] > 0.0)
             && forall i :: 0 <= i < |rises| ==> rises[i] == (equity[i + 1] - equity[i]) / equity[i]
    ensures var c, n := CombineSpec(left, right, weight, lib).value, |left.equity|;
            c.sharpe == if n > 2 then lib.sharpe(rises) else 0.0
  {
    hide NetProfit, Returns, MonthEnds, Gaining, MaxDrawdown, Conflicts, Exposures, Months, Count, Total, Weighted;
    hide Percent, ProfitFactor, BarReturns, Blend;
    var equity := CombineSpec(left, right, weight, lib).value.equity;
    forall i | 0 <= i < |rises| ensures rises[i] == Rise(equity[i], equity[i + 1]) {
    }
    BarReturnsAre(equity, rises);
  }

  /** The yearly growth: the final value against 1000, to the power of the bars in a year over
      the bars there are; none when nothing is left. */
  lemma YearlyGrowth(left: Arm, right: Arm, weight: real, lib: Library)
    requires CombineSpec(left, right, weight, lib).Success?
    ensures var c, n := CombineSpec(left, right, weight, lib).value, |left.equity|;
            var final := c.equity[n - 1];
            c.cagrPct == if final > 0.0 then (lib.power(final / 1000.0, 2190.0 / n as real) - 1.0) * 100.0 else 0.0
  {
    hide Sharpe, NetProfit, Returns, MonthEnds, Gaining, MaxDrawdown, Conflicts, Exposures, Months, Count, Total;
    hide Weighted, Percent, ProfitFactor, Blend;
    YearsOver(|left.equity|);
  }

  lemma YearsOver(n: nat)
    requires n > 0
    ensures 1.0 / (n as real / PERIODS_PER_YEAR) == 2190.0 / n as real
  {
  }

  function Rise(before: real, after: real): real
    requires before != 0.0
  {
    (after - before) / before
  }

  lemma {:induction false} BarReturnsAre(equity: seq<real>, rises: seq<real>)
    requires |rises| + 1 == |equity| && forall i :: 0 <= i < |equity| ==> equity[i] > 0.0
    requires forall i :: 0 <= i < |rises| ==> rises[i] == Rise(equity[i], equity[i + 1])
    ensures BarReturns(equity) == rises
    decreases |equity|
  {
    hide Rise;
    if |equity| > 1 {
      var n := |equity| - 1;
      BarReturnsAre(equity[..n], rises[..n - 1]);
      LastRise(equity);
      assert rises == rises[..n - 1] + [rises[n - 1]];
    }
  }

  lemma LastRise(equity: seq<real>)
    requires |equity| > 1 && equity[|equity| - 2] > 0.0
    ensures var n := |equity| - 1;
            BarReturns(equity) == BarReturns(equity[..n]) + [Rise(equity[n - 1], equity[n])]
  {
    RiseIs(equity[|equity| - 2], equity[|equity| - 1]);
  }

  // ----- The diversification bound

  lemma MixLe(weight: real, a: real, b: real, a': real, b': real)
    requires 0.0 < weight < 1.0 && a <= a' && b <= b'
    ensures Mix(weight, a, b) <= Mix(weight, a', b')
  {
    hide Product;
    ProductLe(a, a', weight);
    ProductLe(b, b', 1.0 - weight);
    ProductIs(a, weight);
    ProductIs(a', weight);
    ProductIs(b, 1.0 - weight);
    ProductIs(b', 1.0 - weight);
  }

  lemma MixScales(weight: real, a: real, b: real, f: real)
    ensures Mix(weight, Product(f, a), Product(f, b)) == Product(f, Mix(weight, a, b))
  {
    hide Product;
    Regroup(weight, f, a);
    Regroup(1.0 - weight, f, b);
    ProductIs(weight, f);
    ProductIs(1.0 - weight, f);
    Regroup(f, weight, a);
    Regroup(f, 1.0 - weight, b);
    Distribute(Product(weight, a), Product(1.0 - weight, b), f);
  }

  lemma DropLeaves(p: real, v: real)
    requires p > 0.0
    ensures Product(1.0 - Drop(p, v), p) == v
  {
    DropRest(p, v);
  }

  lemma LastPoint(curve: seq<real>)
    requires curve != []
    ensures var n := |curve| - 1;
            && Peak(INITIAL, curve) == Max(Peak(INITIAL, curve[..n]), curve[n])
            && MaxDrawdown(INITIAL, curve) ==
               Max(MaxDrawdown(INITIAL, curve[..n]), Drop(Peak(INITIAL, curve), curve[n]))
  {
  }

  /** No point falls below the fraction that the drawdown leaves of the peak so far. */
  lemma AboveFloor(curve: seq<real>, d: real)
    requires curve != [] && MaxDrawdown(INITIAL, curve) <= d
    ensures curve[|curve| - 1] >= Product(1.0 - d, Peak(INITIAL, curve))
  {
    hide Drop, Peak, MaxDrawdown, Product;
    LastPoint(curve);
    DropLeaves(Peak(INITIAL, curve), curve[|curve| - 1]);
    ProductLe(1.0 - d, 1.0 - Drop(Peak(INITIAL, curve), curve[|curve| - 1]), Peak(INITIAL, curve));
  }

  lemma {:induction false} BlendPeak(weight: real, left: seq<real>, right: seq<real>)
    requires 0.0 < weight < 1.0 && |left| == |right|
    ensures Peak(INITIAL, Blend(weight, left, right))
         <= Mix(weight, Peak(INITIAL, left), Peak(INITIAL, right))
    decreases |left|
  {
    if left != [] {
      hide Peak, Mix;
      var n := |left| - 1;
      BlendPeak(weight, left[..n], right[..n]);
      var both := Blend(weight, left, right);
      assert both[..n] == Blend(weight, left[..n], right[..n]);
      LastPoint(left);
      LastPoint(right);
      LastPoint(both);
      var a, b := Peak(INITIAL, left), Peak(INITIAL, right);
      MixLe(weight, Peak(INITIAL, left[..n]), Peak(INITIAL, right[..n]), a, b);
      MixLe(weight, left[n], right[n], a, b);
    }
  }

  lemma MixDrop(weight: real, l: real, r: real, p: real, pl: real, pr: real, d: real)
    requires 0.0 < weight < 1.0 && 0.0 < p <= Mix(weight, pl, pr)
    requires d <= 1.0 && l >= Product(1.0 - d, pl) && r >= Product(1.0 - d, pr)
    ensures Drop(p, Mix(weight, l, r)) <= d
  {
    hide Drop, Mix, Product;
    var e := Mix(weight, l, r);
    MixLe(weight, Product(1.0 - d, pl), Product(1.0 - d, pr), l, r);
    MixScales(weight, pl, pr, 1.0 - d);
    ProductLe(p, Mix(weight, pl, pr), 1.0 - d);
    ProductIs(p, 1.0 - d);
    ProductIs(Mix(weight, pl, pr), 1.0 - d);
    DropLeaves(p, e);
    ProductLeInverse(1.0 - d, 1.0 - Drop(p, e), p);
  }

  lemma PositiveDrop(p: real, v: real)
    requires p > 0.0 && v > 0.0
    ensures Drop(p, v) < 1.0
  {
    DropLeaves(p, v);
    if Drop(p, v) >= 1.0 {
      ProductLe(1.0 - Drop(p, v), 0.0, p);
    }
  }

  lemma {:induction false} PositiveDrawdown(curve: seq<real>)
    requires forall i :: 0 <= i < |curve| ==> curve[i] > 0.0
    ensures MaxDrawdown(INITIAL, curve) < 1.0
    decreases |curve|
  {
    if curve != [] {
      hide Drop, Peak, MaxDrawdown;
      var n := |curve| - 1;
      PositiveDrawdown(curve[..n]);
      LastPoint(curve);
      PositiveDrop(Peak(INITIAL, curve), curve[n]);
    }
  }

  /** Diversification: for positive curves and any weight inside (0, 1) the maximum
      drawdown of the combination, with its peak seeded at the initial balance, never
      exceeds the larger drawdown of the two arms. */
  lemma {:induction false} DiversificationBound(weight: real, left: seq<real>, right: seq<real>)
    requires 0.0 < weight < 1.0 && |left| == |right|
    requires forall i :: 0 <= i < |left| ==> left[i] > 0.0 && right[i] > 0.0
    ensures MaxDrawdown(INITIAL, Blend(weight, left, right))
         <= Max(MaxDrawdown(INITIAL, left), MaxDrawdown(INITIAL, right))
    decreases |left|
  {
    if left != [] {
      hide Drop, Peak, MaxDrawdown, Mix, Product;
      var n := |left| - 1;
      DiversificationBound(weight, left[..n], right[..n]);
      var both := Blend(weight, left, right);
      LastPoint(left);
      LastPoint(right);
      LastPoint(both);
      assert both[..n] == Blend(weight, left[..n], right[..n]);
      var d := Max(MaxDrawdown(INITIAL, left), MaxDrawdown(INITIAL, right));
      PositiveDrawdown(left);
      PositiveDrawdown(right);
      AboveFloor(left, d);
      AboveFloor(right, d);
      BlendPeak(weight, left, right);
      MixDrop(weight, left[n], right[n], Peak(INITIAL, both), Peak(INITIAL, left), Peak(INITIAL, right), d);
    }
  }

  // ----- Monthly returns

  /** Record a value as the latest of its month, keeping the months in order. */
  function Update(ends: seq<(int, real)>, month: int, value: real): (r: seq<(int, real)>)
    ensures r != []
    decreases |ends|
  {
    if ends == [] then [(month, value)]
    else
      var front, last := ends[..|ends| - 1], ends[|ends| - 1];
      if last.0 < month then ends + [(month, value)]
      else if last.0 == month then front + [(month, value)]
      else Update(front, month, value) + [last]
  }

  /** The values grouped by month: each month's last value, in month order. */
  function MonthEnds(labels: seq<int>, equity: seq<real>): (ends: seq<(int, real)>)
    requires |labels| == |equity|
    ensures labels != [] ==> ends != []
    decreases |labels|
  {
    if labels == [] then []
    else
      var n := |labels| - 1;
      Update(MonthEnds(labels[..n], equity[..n]), labels[n], equity[n])
  }

  function ReturnOf(previous: real, current: real): real {
    if previous > 0.0 then current / previous - 1.0 else 0.0
  }

  function Returns(ends: seq<(int, real)>, initial: real): seq<(int, real)>
    decreases |ends|
  {
    if ends == [] then []
    else
      var n := |ends| - 1;
      Returns(ends[..n], initial) + [(ends[n].0, ReturnOf(if n == 0 then initial else ends[n - 1].1, ends[n].1))]
  }

  method MonthlyReturns(labels: seq<int>, equity: seq<real>, initial: real) returns (out: seq<(int, real)>)
    requires |labels| == |equity|
    ensures out == Returns(MonthEnds(labels, equity), initial)
  {
    var ends := MonthEnds(labels, equity);
    out := [];
    var previous := initial;
    var i := 0;
    assert ends[..0] == [];
    while i < |ends|
      invariant 0 <= i <= |ends|
      invariant previous == if i == 0 then initial else ends[i - 1].1
      invariant out == Returns(ends[..i], initial)
    {
      var (period, current) := ends[i];
      ghost var done := ends[..i + 1];
      assert done[..i] == ends[..i];
      out := out + [(period, if previous > 0.0 then current / previous - 1.0 else 0.0)];
      previous := current;
      i := i + 1;
    }
    assert ends[..i] == ends;
  }

  /** Each month's return, on the end of the month before it or, for the first, on the initial
      value; none when that is not positive. */
  lemma {:induction false} ReturnsAre(ends: seq<(int, real)>, initial: real, k: nat)
    requires k < |ends|
    ensures |Returns(ends, initial)| == |ends|
    ensures var before, r := if k == 0 then initial else ends[k - 1].1, Returns(ends, initial)[k];
            && r.0 == ends[k].0
            && if before > 0.0 then r.1 * before == ends[k].1 - before else r.1 == 0.0
    decreases |ends|
  {
    hide ReturnOf;
    var n := |ends| - 1;
    ReturnBack(if k == 0 then initial else ends[k - 1].1, ends[k].1);
    if k < n {
      ReturnsAre(ends[..n], initial, k);
    } else if n > 0 {
      ReturnsAre(ends[..n], initial, n - 1);
    }
  }

  lemma ReturnBack(before: real, after: real)
    ensures if before > 0.0 then ReturnOf(before, after) * before == after - before else ReturnOf(before, after) == 0.0
  {
    if before > 0.0 {
      QuotientBack(after, before);
      OneLess(after / before, before);
    }
  }

  function Growth(months: seq<(int, real)>): real
    decreases |months|
  {
    if months == [] then 1.0
    else Product(Growth(months[..|months| - 1]), 1.0 + months[|months| - 1].1)
  }

  lemma GrowthStep(initial: real, previous: real, current: real, grown: real)
    requires previous > 0.0 && Product(initial, grown) == previous
    ensures Product(initial, Product(grown, 1.0 + ReturnOf(previous, current))) == current
  {
    Regroup(initial, grown, 1.0 + ReturnOf(previous, current));
    assert Product(previous, 1.0 + ReturnOf(previous, current)) == previous * (current / previous);
  }

  lemma {:induction false} CompoundedEnds(ends: seq<(int, real)>, initial: real)
    requires initial > 0.0 && forall i :: 0 <= i < |ends| ==> ends[i].1 > 0.0
    ensures |Returns(ends, initial)| == |ends|
    ensures Product(initial, Growth(Returns(ends, initial))) == if ends == [] then initial else ends[|ends| - 1].1
    decreases |ends|
  {
    if ends == [] {
      ProductIs(initial, 1.0);
    } else {
      hide Product, ReturnOf;
      var n := |ends| - 1;
      CompoundedEnds(ends[..n], initial);
      var all := Returns(ends, initial);
      assert all[..n] == Returns(ends[..n], initial);
      GrowthStep(initial, if n == 0 then initial else ends[n - 1].1, ends[n].1, Growth(all[..n]));
    }
  }

  ghost predicate Increasing(ends: seq<(int, real)>) {
    forall i, j :: 0 <= i < j < |ends| ==> ends[i].0 < ends[j].0
  }

  /** `value` is the equity at the last point of the month. */
  ghost predicate IsMonthEnd(labels: seq<int>, equity: seq<real>, month: int, value: real)
    requires |labels| == |equity|
  {
    exists i :: 0 <= i < |labels| && labels[i] == month && equity[i] == value
      && forall j :: i < j < |labels| ==> labels[j] != month
  }

  lemma {:induction false} UpdateMeans(ends: seq<(int, real)>, month: int, value: real)
    requires Increasing(ends)
    ensures Increasing(Update(ends, month, value))
    ensures forall e :: e in Update(ends, month, value) <==> e == (month, value) || (e in ends && e.0 != month)
    decreases |ends|
  {
    if ends != [] {
      hide Increasing;
      var front, last := ends[..|ends| - 1], ends[|ends| - 1];
      assert ends == front + [last];
      IncreasingFront(ends);
      if last.0 < month {
        IncreasingSnoc(ends, (month, value));
      } else if last.0 == month {
        IncreasingSnoc(front, (month, value));
      } else {
        UpdateMeans(front, month, value);
        IncreasingSnoc(Update(front, month, value), last);
      }
    }
  }

  lemma IncreasingFront(ends: seq<(int, real)>)
    requires Increasing(ends) && ends != []
    ensures Increasing(ends[..|ends| - 1])
    ensures forall e :: e in ends[..|ends| - 1] ==> e.0 < ends[|ends| - 1].0
  {
  }

  lemma IncreasingSnoc(ends: seq<(int, real)>, e: (int, real))
    requires Increasing(ends) && forall o :: o in ends ==> o.0 < e.0
    ensures Increasing(ends + [e])
  {
  }

  lemma MonthEndStep(labels: seq<int>, equity: seq<real>, month: int, value: real)
    requires |labels| == |equity| && labels != []
    ensures var n := |labels| - 1;
            IsMonthEnd(labels, equity, month, value) <==>
            if month == labels[n] then value == equity[n] else IsMonthEnd(labels[..n], equity[..n], month, value)
  {
    var n := |labels| - 1;
    if month == labels[n] && value == equity[n] {
      assert labels[n] == month && equity[n] == value;
    }
    if month != labels[n] && IsMonthEnd(labels[..n], equity[..n], month, value) {
      var i :| 0 <= i < n && labels[..n][i] == month && equity[..n][i] == value
        && forall j :: i < j < n ==> labels[..n][j] != month;
      assert labels[i] == month && equity[i] == value;
      assert forall j :: i < j < n ==> labels[j] == labels[..n][j];
    }
    if month != labels[n] && IsMonthEnd(labels, equity, month, value) {
      var i :| 0 <= i < |labels| && labels[i] == month && equity[i] == value
        && forall j :: i < j < |labels| ==> labels[j] != month;
      assert labels[..n][i] == month && equity[..n][i] == value;
    }
  }

  /** Grouping: the months strictly increase, and a month is listed with a value exactly
      when that is the equity at its last point, whatever the order of the clock. */
  lemma {:induction false} MonthEndsMean(labels: seq<int>, equity: seq<real>)
    requires |labels| == |equity|
    ensures Increasing(MonthEnds(labels, equity))
    ensures forall month, value :: (month, value) in MonthEnds(labels, equity) <==>
            IsMonthEnd(labels, equity, month, value)
    decreases |labels|
  {
    if labels != [] {
      hide Increasing, IsMonthEnd, Update;
      var n := |labels| - 1;
      var before := MonthEnds(labels[..n], equity[..n]);
      MonthEndsMean(labels[..n], equity[..n]);
      UpdateMeans(before, labels[n], equity[n]);
      forall month, value
        ensures (month, value) in MonthEnds(labels, equity) <==> IsMonthEnd(labels, equity, month, value) {
        MonthEndStep(labels, equity, month, value);
      }
    }
  }

  lemma LatestMonth(labels: seq<int>, equity: seq<real>)
    requires |labels| == |equity| && labels != []
    requires forall i :: 0 <= i < |labels| ==> labels[i] <= labels[|labels| - 1]
    ensures var ends := MonthEnds(labels, equity); ends[|ends| - 1].1 == equity[|equity| - 1]
  {
    hide MonthEnds;
    var ends, n := MonthEnds(labels, equity), |labels| - 1;
    MonthEndsMean(labels, equity);
    assert labels[n] == labels[n] && equity[n] == equity[n];
    assert IsMonthEnd(labels, equity, labels[n], equity[n]);
    assert (labels[n], equity[n]) in ends;
    var last := ends[|ends| - 1];
    assert (last.0, last.1) in ends;
    assert IsMonthEnd(labels, equity, last.0, last.1);
    var k :| 0 <= k < |ends| && ends[k] == (labels[n], equity[n]);
    assert k == |ends| - 1;
  }

  /** Compounding the monthly returns of a positive curve gives the value at the end of
      the latest month; for a clock that ends in its latest month that is exactly the
      final value, whatever the number and length of the months. */
  lemma MonthlyReturnsCompound(labels: seq<int>, equity: seq<real>, initial: real)
    requires |labels| == |equity| && labels != [] && initial > 0.0
    requires forall i :: 0 <= i < |equity| ==> equity[i] > 0.0
    ensures var ends := MonthEnds(labels, equity);
            initial * Growth(Returns(ends, initial)) == ends[|ends| - 1].1
    ensures (forall i :: 0 <= i < |labels| ==> labels[i] <= labels[|labels| - 1]) ==>
            initial * Growth(Returns(MonthEnds(labels, equity), initial)) == equity[|equity| - 1]
  {
    hide Product, Growth, Returns, MonthEnds, Increasing;
    var ends := MonthEnds(labels, equity);
    MonthEndsMean(labels, equity);
    forall i | 0 <= i < |ends| ensures ends[i].1 > 0.0 {
      assert (ends[i].0, ends[i].1) in ends;
      assert IsMonthEnd(labels, equity, ends[i].0, ends[i].1);
    }
    CompoundedEnds(ends, initial);
    ProductIs(initial, Growth(Returns(ends, initial)));
    if forall i :: 0 <= i < |labels| ==> labels[i] <= labels[|labels| - 1] {
      LatestMonth(labels, equity);
    }
  }
}
