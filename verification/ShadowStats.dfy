/** The running figures of one shadow candidate: profit totals, peak equity and drawdown,
    as they are updated after each evaluated candle and rounded when they are stored. */
module ShadowStats {
  import opened Reals
  import opened Drawdown

  datatype Stats = Stats(trades: int, grossProfit: real, grossLoss: real, peakEquity: real, maxDrawdownPct: real)

  /** One evaluation: whether the position held before was left, what that realized, and
      the marked equity afterwards. */
  datatype Turn = Turn(closed: bool, realizedDelta: real, equity: real)

  /** What a number becomes when it is stored and read again. */
  type Rounding = real -> real

  ghost predicate IsRounding(round: Rounding) {
    && (forall x, y :: x <= y ==> round(x) <= round(y))
    && (forall x :: round(round(x)) == round(x))
    && round(0.0) == 0.0
  }

  function Initial(cash: real): Stats { Stats(0, 0.0, 0.0, cash, 0.0) }

  /** A stored peak of zero is read as the initial cash. */
  function PeakRead(peak: real, cash: real): real { if peak == 0.0 then cash else peak }

  function Update(round: Rounding, cash: real, stats: Stats, turn: Turn): Stats {
    var traded :=
      if !turn.closed then stats
      else if turn.realizedDelta >= 0.0 then
        stats.(trades := stats.trades + 1, grossProfit := round(stats.grossProfit + turn.realizedDelta))
      else stats.(trades := stats.trades + 1, grossLoss := round(stats.grossLoss - turn.realizedDelta));
    var peak := Max(traded.peakEquity, turn.equity);
    traded.(peakEquity := PeakRead(round(peak), cash),
            maxDrawdownPct := round(Max(traded.maxDrawdownPct, LossPct(peak, turn.equity))))
  }

  function After(round: Rounding, cash: real, turns: seq<Turn>): Stats
    decreases |turns|
  {
    if turns == [] then Initial(cash)
    else Update(round, cash, After(round, cash, turns[..|turns| - 1]), turns[|turns| - 1])
  }

  function Equities(turns: seq<Turn>): (curve: seq<real>)
    ensures |curve| == |turns|
    ensures forall i :: 0 <= i < |turns| ==> curve[i] == turns[i].equity
  {
    seq(|turns|, i requires 0 <= i < |turns| => turns[i].equity)
  }

  function Closed(turns: seq<Turn>): int
    decreases |turns|
  {
    if turns == [] then 0 else Closed(turns[..|turns| - 1]) + if turns[|turns| - 1].closed then 1 else 0
  }

  /** The sum of what closed trades gained, or lost. */
  function Total(turns: seq<Turn>, gained: bool): real
    decreases |turns|
  {
    if turns == [] then 0.0
    else
      var last := turns[|turns| - 1];
      Total(turns[..|turns| - 1], gained) +
      if last.closed && (last.realizedDelta >= 0.0) == gained then Abs(last.realizedDelta) else 0.0
  }

  function Realized(turns: seq<Turn>): real
    decreases |turns|
  {
    if turns == [] then 0.0
    else
      var last := turns[|turns| - 1];
      Realized(turns[..|turns| - 1]) + if last.closed then last.realizedDelta else 0.0
  }

  /** The equities are numbers that are stored as they are. */
  ghost predicate Representable(round: Rounding, cash: real, turns: seq<Turn>) {
    round(cash) == cash && forall i :: 0 <= i < |turns| ==> round(turns[i].equity) == turns[i].equity
  }

  /** Rounding an intermediate maximum does not show. */
  lemma RoundedMax(round: Rounding, a: real, b: real)
    requires IsRounding(round)
    ensures round(Max(round(a), b)) == round(Max(a, b))
  {
    if a < b <= round(a) {
      assert round(a) <= round(b) <= round(round(a));
    } else if round(a) < b <= a {
      assert round(round(a)) <= round(b) <= round(a);
    }
  }

  /** The stored figures after any number of candles: the peak is that of the whole equity
      curve, and the drawdown is the drawdown of the whole curve, rounded once. */
  lemma {:induction false} StatsSummarise(round: Rounding, cash: real, turns: seq<Turn>)
    requires IsRounding(round) && cash > 0.0 && Representable(round, cash, turns)
    ensures var s := After(round, cash, turns);
            && s.trades == Closed(turns)
            && s.peakEquity == Peak(cash, Equities(turns))
            && s.maxDrawdownPct == round(100.0 * MaxDrawdown(cash, Equities(turns)))
            && round(s.peakEquity) == s.peakEquity
    decreases |turns|
  {
    hide *;
    if turns == [] {
      NothingDrawn(round, cash, turns);
    } else {
      var n := |turns| - 1;
      RepresentableFront(round, cash, turns);
      StatsSummarise(round, cash, turns[..n]);
      AfterStep(round, cash, turns);
      SummaryStep(round, cash, After(round, cash, turns[..n]), Equities(turns[..n]), turns[n]);
    }
  }

  lemma RepresentableFront(round: Rounding, cash: real, turns: seq<Turn>)
    requires Representable(round, cash, turns) && turns != []
    ensures Representable(round, cash, turns[..|turns| - 1])
            && round(turns[|turns| - 1].equity) == turns[|turns| - 1].equity
  {
  }

  lemma AfterStep(round: Rounding, cash: real, turns: seq<Turn>)
    requires turns != []
    ensures var n := |turns| - 1;
            && After(round, cash, turns) == Update(round, cash, After(round, cash, turns[..n]), turns[n])
            && Closed(turns) == Closed(turns[..n]) + (if turns[n].closed then 1 else 0)
            && Equities(turns) == Equities(turns[..n]) + [turns[n].equity]
  {
    EquitiesStep(turns);
    hide Update, Equities;
  }

  lemma EquitiesStep(turns: seq<Turn>)
    requires turns != []
    ensures Equities(turns) == Equities(turns[..|turns| - 1]) + [turns[|turns| - 1].equity]
  {
  }

  lemma SummaryStep(round: Rounding, cash: real, before: Stats, curve: seq<real>, turn: Turn)
    requires IsRounding(round) && cash > 0.0 && round(turn.equity) == turn.equity
    requires before.peakEquity == Peak(cash, curve) && round(before.peakEquity) == before.peakEquity
    requires before.maxDrawdownPct == round(100.0 * MaxDrawdown(cash, curve))
    ensures var s := Update(round, cash, before, turn);
            && s.trades == before.trades + (if turn.closed then 1 else 0)
            && s.peakEquity == Peak(cash, curve + [turn.equity]) && round(s.peakEquity) == s.peakEquity
            && s.maxDrawdownPct == round(100.0 * MaxDrawdown(cash, curve + [turn.equity]))
  {
    hide IsRounding, LossPct, WithDrop, Max, Peak, MaxDrawdown;
    CurveGrows(cash, curve, turn.equity);
    var peak := Peak(cash, curve + [turn.equity]);
    MaxRepresentable(round, before.peakEquity, turn.equity);
    PercentStep(MaxDrawdown(cash, curve), peak, turn.equity);
    RoundedMax(round, 100.0 * MaxDrawdown(cash, curve), LossPct(peak, turn.equity));
  }

  lemma NothingDrawn(round: Rounding, cash: real, turns: seq<Turn>)
    requires IsRounding(round) && Representable(round, cash, turns) && turns == []
    ensures After(round, cash, turns) == Initial(cash) == Stats(0, 0.0, 0.0, cash, 0.0) && Closed(turns) == 0
    ensures Peak(cash, Equities(turns)) == cash == round(cash) && MaxDrawdown(cash, Equities(turns)) == 0.0
    ensures round(100.0 * 0.0) == 0.0
  {
    assert Equities(turns) == [];
  }

  lemma MaxRepresentable(round: Rounding, a: real, b: real)
    ensures round(a) == a && round(b) == b ==> round(Max(a, b)) == Max(a, b)
  {
  }

  /** The profit totals account for everything realized, as long as the partial sums are
      numbers that are stored as they are. */
  lemma {:induction false} TotalsAccount(round: Rounding, cash: real, turns: seq<Turn>)
    requires forall n, gained :: 0 <= n <= |turns| ==> round(Total(turns[..n], gained)) == Total(turns[..n], gained)
    ensures var s := After(round, cash, turns);
            && s.grossProfit == Total(turns, true) && s.grossLoss == Total(turns, false)
            && s.grossProfit - s.grossLoss == Realized(turns)
            && s.grossProfit >= 0.0 && s.grossLoss >= 0.0
    decreases |turns|
  {
    if turns != [] {
      hide LossPct, Max, PeakRead;
      var k := |turns| - 1;
      var front := turns[..k];
      forall n, gained | 0 <= n <= k ensures round(Total(front[..n], gained)) == Total(front[..n], gained) {
        assert front[..n] == turns[..n];
      }
      TotalsAccount(round, cash, front);
      assert turns[..k + 1] == turns;
      assert round(Total(turns[..k + 1], true)) == Total(turns, true)
        && round(Total(turns[..k + 1], false)) == Total(turns, false);
    }
  }

  /** The stored drawdown is the rounding of the largest relative loss between any two
      points in time, the initial cash included, when no negative equity loses more
      against the smallest positive equity before it. */
  lemma StoredDrawdown(round: Rounding, cash: real, turns: seq<Turn>, d: real)
    requires IsRounding(round) && cash > 0.0 && Representable(round, cash, turns)
    requires IsWorstDrop([cash] + Equities(turns), d)
    ensures TroughDrawdown(cash, Equities(turns)) <= MaxDrawdown(cash, Equities(turns)) ==>
            After(round, cash, turns).maxDrawdownPct == round(100.0 * d)
    ensures (forall x :: round(x) == x) && After(round, cash, turns).maxDrawdownPct == round(100.0 * d) ==>
            TroughDrawdown(cash, Equities(turns)) <= MaxDrawdown(cash, Equities(turns))
  {
    hide IsWorstDrop, MaxDrawdown, TroughDrawdown, IsRounding, After;
    var curve := Equities(turns);
    StatsSummarise(round, cash, turns);
    SinglePassIsQuadraticIff(cash, curve);
    if TroughDrawdown(cash, curve) <= MaxDrawdown(cash, curve) {
      WorstDropIsUnique([cash] + curve, d, MaxDrawdown(cash, curve));
    }
  }
}
