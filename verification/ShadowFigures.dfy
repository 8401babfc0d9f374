/** What the figures stored in the log say about the equity of each candidate. */
module ShadowFigures {
  import opened Wrappers
  import opened Reals
  import opened Drawdown
  import opened Json
  import opened Dictionaries
  import opened EventLog
  import opened ShadowEvaluator
  import opened ShadowTheorems
  import opened ShadowRuns
  import opened ShadowCounts
  import opened ShadowAccounts
  import opened ShadowStats

  /** Numbers are written and read as a rounding, and the initial cash and zero survive
      it. */
  ghost predicate Faithful(rt: Runtime) {
    && IsRounding(x => rt.Round(x))
    && rt.number(ZERO) == 0.0
    && rt.Cash() > 0.0 && rt.Round(rt.Cash()) == rt.Cash()
  }

  function RoundingOf(rt: Runtime): Rounding { x => rt.Round(x) }

  function TurnOf(o: Outcome): Turn { Turn(o.leftPosition, o.realizedDelta, o.equity) }

  /** The stored figures are these. */
  predicate Carries(rt: Runtime, stats: Dict, figures: Stats) {
    && CountOf(stats, Trades) == figures.trades
    && RealOf(rt, stats, GrossProfit) == figures.grossProfit
    && RealOf(rt, stats, GrossLoss) == figures.grossLoss
    && PeakOf(rt, stats) == figures.peakEquity
    && RealOf(rt, stats, MaxDrawdownPct) == figures.maxDrawdownPct
  }

  lemma StoredReal(rt: Runtime, stats: Dict, f: Figure, x: real)
    requires Stored(stats, f) == Some(Float(rt.text(x)))
    ensures RealOf(rt, stats, f) == rt.Round(x)
    ensures f == PeakEquity ==> PeakOf(rt, stats) == PeakRead(rt.Round(x), rt.Cash())
  {
    hide KeyOf, IsFloatText;
  }

  lemma StoredCount(stats: Dict, f: Figure, n: int)
    requires Stored(stats, f) == Some(Int(n))
    ensures CountOf(stats, f) == n
  {
    hide KeyOf;
  }

  /** One evaluation moves the stored figures as the model of the figures does. */
  lemma NextCarries(rt: Runtime, stats: Dict, figures: Stats, o: Outcome)
    requires Carries(rt, stats, figures)
    ensures Carries(rt, NextStats(rt, stats, o), Update(RoundingOf(rt), rt.Cash(), figures, TurnOf(o)))
  {
    hide *;
    var next, traded := NextStats(rt, stats, o), Traded(rt, stats, o);
    var peak := Max(PeakOf(rt, stats), o.equity);
    CarriesMeans(rt, stats, figures);
    NextFigures(rt, stats, o, PeakEquity);
    StoredReal(rt, next, PeakEquity, peak);
    NextFigures(rt, stats, o, MaxDrawdownPct);
    StoredReal(rt, next, MaxDrawdownPct, Max(RealOf(rt, stats, MaxDrawdownPct), LossPct(peak, o.equity)));
    TotalsCarry(rt, stats, o);
    UpdateIs(rt, figures, o);
    CarriesMeans(rt, next, Update(RoundingOf(rt), rt.Cash(), figures, TurnOf(o)));
  }

  lemma CarriesMeans(rt: Runtime, stats: Dict, figures: Stats)
    ensures Carries(rt, stats, figures) <==>
      && CountOf(stats, Trades) == figures.trades
      && RealOf(rt, stats, GrossProfit) == figures.grossProfit
      && RealOf(rt, stats, GrossLoss) == figures.grossLoss
      && PeakOf(rt, stats) == figures.peakEquity
      && RealOf(rt, stats, MaxDrawdownPct) == figures.maxDrawdownPct
  {
    hide CountOf, RealOf, PeakOf;
  }

  lemma UpdateIs(rt: Runtime, figures: Stats, o: Outcome)
    ensures var after := Update(RoundingOf(rt), rt.Cash(), figures, TurnOf(o));
            var peak := Max(figures.peakEquity, o.equity);
            && after.trades == figures.trades + (if o.leftPosition then 1 else 0)
            && after.grossProfit == (if o.leftPosition && o.realizedDelta >= 0.0
                                     then rt.Round(figures.grossProfit + o.realizedDelta)
                                     else figures.grossProfit)
            && after.grossLoss == (if o.leftPosition && o.realizedDelta < 0.0
                                   then rt.Round(figures.grossLoss - o.realizedDelta)
                                   else figures.grossLoss)
            && after.peakEquity == PeakRead(rt.Round(peak), rt.Cash())
            && after.maxDrawdownPct == rt.Round(Max(figures.maxDrawdownPct, LossPct(peak, o.equity)))
  {
    hide LossPct, Max, PeakRead, IsFloatText;
  }

  lemma TotalsCarry(rt: Runtime, stats: Dict, o: Outcome)
    ensures var next := NextStats(rt, stats, o);
            && CountOf(next, Trades) == CountOf(stats, Trades) + (if o.leftPosition then 1 else 0)
            && RealOf(rt, next, GrossProfit) ==
               (if o.leftPosition && o.realizedDelta >= 0.0
                then rt.Round(RealOf(rt, stats, GrossProfit) + o.realizedDelta)
                else RealOf(rt, stats, GrossProfit))
            && RealOf(rt, next, GrossLoss) ==
               (if o.leftPosition && o.realizedDelta < 0.0 then rt.Round(RealOf(rt, stats, GrossLoss) - o.realizedDelta)
                else RealOf(rt, stats, GrossLoss))
  {
    hide *;
    var next, traded := NextStats(rt, stats, o), Traded(rt, stats, o);
    NextFigures(rt, stats, o, Trades);
    NextFigures(rt, stats, o, GrossProfit);
    NextFigures(rt, stats, o, GrossLoss);
    TradedFigures(rt, stats, o, Trades);
    TradedFigures(rt, stats, o, GrossProfit);
    TradedFigures(rt, stats, o, GrossLoss);
    if o.leftPosition {
      StoredCount(next, Trades, CountOf(stats, Trades) + 1);
      if o.realizedDelta >= 0.0 {
        StoredReal(rt, next, GrossProfit, RealOf(rt, stats, GrossProfit) + o.realizedDelta);
        ReadsStored(rt, next, stats, GrossLoss);
      } else {
        StoredReal(rt, next, GrossLoss, RealOf(rt, stats, GrossLoss) - o.realizedDelta);
        ReadsStored(rt, next, stats, GrossProfit);
      }
    } else {
      ReadsStored(rt, next, stats, Trades);
      ReadsStored(rt, next, stats, GrossProfit);
      ReadsStored(rt, next, stats, GrossLoss);
    }
  }

  // ----- Along the log

  /** The candidate's evaluations, one for each candle of the log. */
  function TurnsOf(rt: Runtime, spec: Spec, times: seq<int>, moments: seq<Moment>, id: string): (turns: seq<Turn>)
    requires |times| == |moments|
    ensures |turns| == |times|
    ensures forall n :: 0 <= n < |times| ==> turns[n] == TurnOf(Turnout(rt, spec, id, times, moments, n))
  {
    seq(|times|, n requires 0 <= n < |times| => TurnOf(Turnout(rt, spec, id, times, moments, n)))
  }

  lemma InitialFigures(rt: Runtime)
    requires Faithful(rt)
    ensures Carries(rt, InitialStats(rt), Initial(rt.Cash()))
  {
    hide KeyOf, InitialStats;
    InitialStored(rt, Trades);
    InitialStored(rt, GrossProfit);
    InitialStored(rt, GrossLoss);
    InitialStored(rt, PeakEquity);
    InitialStored(rt, MaxDrawdownPct);
  }

  lemma {:induction false} AccountCarries(rt: Runtime, spec: Spec, times: seq<int>, moments: seq<Moment>, id: string,
                                          n: nat)
    requires Faithful(rt) && n <= |times| == |moments|
    ensures Carries(rt, AccountAfter(rt, spec, id, times, moments, n).stats,
                    After(RoundingOf(rt), rt.Cash(), TurnsOf(rt, spec, times, moments, id)[..n]))
    decreases n
  {
    hide *;
    var turns := TurnsOf(rt, spec, times, moments, id);
    if n == 0 {
      InitialFigures(rt);
      NoTurns(rt, turns);
      FirstAccount(rt, spec, id, times, moments);
    } else {
      var before, o := AccountAfter(rt, spec, id, times, moments, n - 1), Turnout(rt, spec, id, times, moments, n - 1);
      AccountCarries(rt, spec, times, moments, id, n - 1);
      NextAccount(rt, spec, id, times, moments, n);
      TurnoutIs(rt, spec, id, times, moments, n - 1);
      NextCarries(rt, before.stats, After(RoundingOf(rt), rt.Cash(), turns[..n - 1]), o);
      AfterAppend(RoundingOf(rt), rt.Cash(), turns[..n - 1], TurnOf(o));
      assert turns[..n] == turns[..n - 1] + [TurnOf(o)];
    }
  }

  lemma NoTurns(rt: Runtime, turns: seq<Turn>)
    ensures After(RoundingOf(rt), rt.Cash(), turns[..0]) == Initial(rt.Cash())
  {
  }

  /** The figures stored in the state of a log are those of the candidate's evaluations
      along the log. */
  lemma LogCarries(rt: Runtime, spec: Spec, times: seq<int>, moments: seq<Moment>, id: string)
    requires spec.Valid() && Faithful(rt) && id in spec.candidates && |times| == |moments|
    ensures Carries(rt, CandidateStats(rt, Reference(rt, spec, times, moments).state.candidates, id),
                    After(RoundingOf(rt), rt.Cash(), TurnsOf(rt, spec, times, moments, id)))
  {
    hide *;
    var n, turns := |times|, TurnsOf(rt, spec, times, moments, id);
    AccountCarries(rt, spec, times, moments, id, n);
    LogStores(rt, spec, times, moments, id);
    AccountHasStats(rt, spec, id, times, moments, n);
    StoredParts(rt, Reference(rt, spec, times, moments).state.candidates, id,
                AccountAfter(rt, spec, id, times, moments, n));
    StatsAre(rt, Reference(rt, spec, times, moments).state.candidates, id);
    assert turns[..n] == turns;
  }

  lemma StatsAre(rt: Runtime, candidates: Dict, id: string)
    ensures CandidateStats(rt, candidates, id) == StatsOf(rt, FieldsOf(Get(candidates, id)))
  {
  }

  lemma AfterAppend(round: Rounding, cash: real, turns: seq<Turn>, turn: Turn)
    ensures After(round, cash, turns + [turn]) == Update(round, cash, After(round, cash, turns), turn)
  {
    hide Update;
    assert (turns + [turn])[..|turns|] == turns;
  }

  /** What the log says of a candidate: the trades closed, the peak of its whole equity
      curve, and the rounded drawdown of that curve. */
  lemma LoggedFigures(rt: Runtime, spec: Spec, times: seq<int>, moments: seq<Moment>, id: string)
    requires spec.Valid() && Faithful(rt) && id in spec.candidates && |times| == |moments|
    requires Representable(RoundingOf(rt), rt.Cash(), TurnsOf(rt, spec, times, moments, id))
    ensures var stats := CandidateStats(rt, Reference(rt, spec, times, moments).state.candidates, id);
            var turns := TurnsOf(rt, spec, times, moments, id);
            && CountOf(stats, Trades) == Closed(turns)
            && PeakOf(rt, stats) == Peak(rt.Cash(), Equities(turns))
            && RealOf(rt, stats, MaxDrawdownPct) == rt.Round(100.0 * MaxDrawdown(rt.Cash(), Equities(turns)))
  {
    hide *;
    var turns := TurnsOf(rt, spec, times, moments, id);
    FaithfulParts(rt);
    LogCarries(rt, spec, times, moments, id);
    StatsSummarise(RoundingOf(rt), rt.Cash(), turns);
    CarriesMeans(rt, CandidateStats(rt, Reference(rt, spec, times, moments).state.candidates, id),
                 After(RoundingOf(rt), rt.Cash(), turns));
  }

  lemma FaithfulParts(rt: Runtime)
    requires Faithful(rt)
    ensures IsRounding(RoundingOf(rt)) && rt.Cash() > 0.0
    ensures forall x :: RoundingOf(rt)(x) == rt.Round(x)
  {
    var round := x => rt.Round(x);
    assert IsRounding(round);
    assert forall x :: round(x) == RoundingOf(rt)(x);
  }

  const ONE: FloatText := "1.0"

  /** A runtime whose numbers are zero and one. */
  function BinaryRuntime(rt: Runtime): Runtime {
    rt.(initialCash := ONE,
        number := (t: FloatText) => if t == ZERO then 0.0 else 1.0,
        text := (x: real) => if x < 1.0 then ZERO else ONE)
  }

  /** The conditions can be met. */
  lemma FaithfulExists(rt: Runtime)
    ensures Faithful(BinaryRuntime(rt))
  {
    hide IsFloatText;
    OneIsNotZero();
    assert forall x :: BinaryRuntime(rt).Round(x) == if x < 1.0 then 0.0 else 1.0;
  }

  lemma OneIsNotZero()
    ensures ONE != ZERO
  {
    assert ONE[0] == '1' && ZERO[0] == '0';
  }
}
