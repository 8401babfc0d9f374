/** The bar loop of the migration backtest, for one mode, with fees, slippage, funding and
    compounding, and the gate that compares the modes. */
module ModeSimulator {
  import opened Wrappers
  import opened Reals
  import opened Drawdown
  import opened RoundTrips

  datatype ModeResult = ModeResult(
    netPct: real,
    winPct: real,
    trades: nat,
    mddPct: real,
    profitFactor: real,
    longNetPct: real,
    shortNetPct: real)

  // ----- Reporting

  function Wins(rows: seq<TradeRow>): nat
    decreases |rows|
  {
    if rows == [] then 0 else Wins(rows[..|rows| - 1]) + if rows[|rows| - 1].ret > 0.0 then 1 else 0
  }

  /** The sum of the winning (or losing) net results. */
  function Gross(rows: seq<TradeRow>, winning: bool): real
    decreases |rows|
  {
    if rows == [] then 0.0
    else
      var net := rows[|rows| - 1].net;
      Gross(rows[..|rows| - 1], winning) + if (if winning then net > 0.0 else net < 0.0) then net else 0.0
  }

  function Report(balance: real, rows: seq<TradeRow>, maxDrawdown: real): ModeResult {
    var profit, loss := Gross(rows, true), -Gross(rows, false);
    ModeResult(
      (balance - 1.0) * 100.0,
      if rows == [] then 0.0 else 100.0 * (Wins(rows) as real) / (|rows| as real),
      |rows|,
      maxDrawdown * 100.0,
      if loss > 0.0 then profit / loss else if profit > 0.0 then 99.9 else 0.0,
      SideNetSum(rows, Long) * 100.0,
      SideNetSum(rows, Short) * 100.0)
  }

  function FinalBalance(costs: Costs, bars: seq<Bar>, zones: seq<Zone>, mode: Mode, minBars: nat): real
    requires 2 <= minBars && |zones| == |bars|
  {
    AllTripsAreValid(mode, zones, minBars, bars);
    Balance(costs, bars, AllTrips(mode, zones, minBars))
  }

  function FinalRows(costs: Costs, bars: seq<Bar>, zones: seq<Zone>, mode: Mode, minBars: nat): seq<TradeRow>
    requires 2 <= minBars && |zones| == |bars|
  {
    AllTripsAreValid(mode, zones, minBars, bars);
    Rows(costs, bars, AllTrips(mode, zones, minBars))
  }

  /** What a simulation of one mode is to report. */
  function Simulated(costs: Costs, bars: seq<Bar>, zones: seq<Zone>, mode: Mode, minBars: nat): ModeResult
    requires 2 <= minBars && |zones| == |bars|
  {
    Report(FinalBalance(costs, bars, zones, mode, minBars), FinalRows(costs, bars, zones, mode, minBars),
           MaxDrawdown(1.0, Curve(costs, bars, zones, mode, minBars, |bars|)))
  }

  // ----- The algebra of one close

  lemma QtyOf(capital: real, entry: real)
    ensures capital * UnitQty(entry) == if entry > 0.0 then capital / entry else 0.0
  {
  }

  lemma NetAlgebra(capital: real, u: real, sign: real, exit: real, entry: real, fee: real, funding: real, sum: real)
    ensures var qty := capital * u;
            sign * (exit - entry) * qty - (entry * qty + exit * qty) * fee - sign * funding * qty * sum ==
            capital * (u * (sign * (exit - entry) - sign * funding * sum) - u * (entry + exit) * fee)
  {
    var qty := capital * u;
    assert sign * (exit - entry) * qty == capital * (u * (sign * (exit - entry)));
    assert (entry * qty + exit * qty) * fee == capital * (u * (entry + exit) * fee);
    assert sign * funding * qty * sum == capital * (u * (sign * funding * sum));
  }

  lemma MarkAlgebra(balance: real, pct: real, u: real, sign: real, price: real, entry: real, funding: real, sum: real)
    ensures var qty := balance * pct * u;
            balance + sign * (price - entry) * qty - sign * funding * qty * sum ==
            balance * (1.0 + pct * (u * (sign * (price - entry) - sign * funding * sum)))
  {
    var qty := balance * pct * u;
    assert sign * (price - entry) * qty == balance * (pct * (u * (sign * (price - entry))));
    assert sign * funding * qty * sum == balance * (pct * (u * (sign * funding * sum)));
  }

  lemma FundingAlgebra(sign: real, mark: real, qty: real, rate: real, eighths: real)
    ensures sign * (mark * qty) * rate * eighths == sign * (rate * eighths) * qty * mark
  {
    assert sign * (mark * qty) * rate * eighths == sign * mark * qty * rate * eighths;
    assert sign * (rate * eighths) * qty * mark == sign * mark * qty * rate * eighths;
  }

  lemma NoFunding(sign: real, rate: real, qty: real, mark: real)
    requires sign == 0.0 || rate == 0.0
    ensures sign * rate * qty * mark == 0.0
  {
    assert sign * rate == 0.0;
  }

  // ----- The variables of the loop

  function SideOf(side: int): Side { if side == 1 then Long else Short }

  /** The net cash result of closing at `exitPx`: price move, fees on both legs, funding. */
  function CloseNet(costs: Costs, side: int, entry: real, qty: real, funding: real, exitPx: real): real {
    side as real * (exitPx - entry) * qty - (entry * qty + exitPx * qty) * costs.feePct - funding
  }

  function CloseRow(side: int, entry: real, qty: real, net: real): TradeRow {
    var cost := entry * qty;
    TradeRow(SideOf(side), if cost > 0.0 then net / cost else 0.0, net)
  }

  function MarkValue(balance: real, side: int, entry: real, qty: real, funding: real, price: real): real {
    balance + (if side != 0 then side as real * (price - entry) * qty else 0.0) - funding
  }

  /** A round trip in cash terms: a long pays the entry and receives the exit, a short
      the other way round, each less its fee, and funding is paid on top. */
  lemma CloseIsCashFlow(costs: Costs, entry: real, qty: real, funding: real, exitPx: real)
    ensures CloseNet(costs, 1, entry, qty, funding, exitPx)
         == exitPx * qty * (1.0 - costs.feePct) - entry * qty * (1.0 + costs.feePct) - funding
    ensures CloseNet(costs, -1, entry, qty, funding, exitPx)
         == entry * qty * (1.0 - costs.feePct) - exitPx * qty * (1.0 + costs.feePct) - funding
  {
  }

  /** The loop's variables stand for the book: after the bars before `n`. */
  ghost predicate Stands(costs: Costs, bars: seq<Bar>, book: Book, n: nat, balance: real, side: int, entry: real,
                         qty: real, funding: real)
    requires n <= |bars| && ValidTrips(bars, book.trips)
  {
    && balance == Balance(costs, bars, book.trips)
    && match book.position
       case Flat => side == 0 && entry == 0.0 && qty == 0.0 && funding == 0.0
       case Holding(held, entryBar) =>
         && entryBar < |bars|
         && side == (if held.Long? then 1 else -1)
         && entry == EntryPrice(costs, bars, held, entryBar)
         && qty == balance * costs.positionPct * UnitQty(entry)
         && funding == held.Sign() * costs.FundingPerBar() * qty * CloseSum(bars, entryBar, n)
  }

  lemma SideMatches(costs: Costs, bars: seq<Bar>, book: Book, n: nat, balance: real, side: int, entry: real, qty: real,
                    funding: real)
    requires n <= |bars| && ValidTrips(bars, book.trips)
    requires Stands(costs, bars, book, n, balance, side, entry, qty, funding)
    ensures side == if book.position.Flat? then 0 else if book.position.side.Long? then 1 else -1
    ensures balance == Balance(costs, bars, book.trips)
  {
    hide Balance;
  }

  lemma ClosedNet(costs: Costs, bars: seq<Bar>, book: Book, exit: Exit, n: nat,
                  balance: real, side: int, entry: real, qty: real, funding: real, exitPx: real)
    requires n <= |bars| && ValidTrips(bars, book.trips) && book.position.Holding?
    requires Stands(costs, bars, book, n, balance, side, entry, qty, funding)
    requires ValidTrip(bars, Trip(book.position.side, book.position.entryBar, exit))
    requires n == if exit.AtOpen? then exit.bar else |bars|
    requires exitPx == ExitPrice(costs, bars, Trip(book.position.side, book.position.entryBar, exit))
    ensures var trips := book.trips + [Trip(book.position.side, book.position.entryBar, exit)];
            && ValidTrips(bars, trips)
            && NetOfLast(costs, bars, trips) == CloseNet(costs, side, entry, qty, funding, exitPx)
            && RowOfLast(costs, bars, trips) ==
               CloseRow(side, entry, qty, CloseNet(costs, side, entry, qty, funding, exitPx))
  {
    hide Balance;
    var trip := Trip(book.position.side, book.position.entryBar, exit);
    var trips := book.trips + [trip];
    assert trips[..|book.trips|] == book.trips;
    NetAlgebra(balance * costs.positionPct, UnitQty(entry), trip.side.Sign(), exitPx, entry, costs.feePct,
               costs.FundingPerBar(), CloseSum(bars, trip.entryBar, n));
  }

  /** Closing: the new balance, the recorded row and the flat variables. */
  lemma ClosedTrip(costs: Costs, bars: seq<Bar>, book: Book, exit: Exit, n: nat,
                   balance: real, side: int, entry: real, qty: real, funding: real, exitPx: real)
    requires n <= |bars| && ValidTrips(bars, book.trips) && book.position.Holding?
    requires Stands(costs, bars, book, n, balance, side, entry, qty, funding)
    requires ValidTrip(bars, Trip(book.position.side, book.position.entryBar, exit))
    requires n == if exit.AtOpen? then exit.bar else |bars|
    requires exitPx == ExitPrice(costs, bars, Trip(book.position.side, book.position.entryBar, exit))
    ensures var trips := book.trips + [Trip(book.position.side, book.position.entryBar, exit)];
            var net := CloseNet(costs, side, entry, qty, funding, exitPx);
            && ValidTrips(bars, trips)
            && Stands(costs, bars, Book(Flat, trips), n, balance + net, 0, 0.0, 0.0, 0.0)
            && Rows(costs, bars, trips) == Rows(costs, bars, book.trips) + [CloseRow(side, entry, qty, net)]
  {
    hide Balance, CloseNet, CloseRow, NetOfLast, RowOfLast, UnitQty;
    var trips := book.trips + [Trip(book.position.side, book.position.entryBar, exit)];
    assert trips[..|book.trips|] == book.trips;
    ClosedNet(costs, bars, book, exit, n, balance, side, entry, qty, funding, exitPx);
    LastNet(costs, bars, trips);
  }

  lemma OpenedPosition(costs: Costs, bars: seq<Bar>, book: Book, i: nat, balance: real, held: Side, entry: real,
                       qty: real)
    requires i < |bars| && ValidTrips(bars, book.trips)
    requires balance == Balance(costs, bars, book.trips)
    requires entry == Fill(costs, bars[i].open, held.Long?) && qty == balance * costs.positionPct * UnitQty(entry)
    ensures Stands(costs, bars, Book(Holding(held, i), book.trips), i, balance,
                   if held.Long? then 1 else -1, entry, qty, 0.0)
  {
    hide Balance, UnitQty;
  }

  /** One run of the simulation: the object holds the variables the loop updates. */
  class Simulation {
    const costs: Costs
    const bars: seq<Bar>
    const zones: seq<Zone>
    const mode: Mode
    const minBars: nat
    var balance: real
    var side: int
    var entry: real
    var qty: real
    var fundingPaid: real
    var trades: seq<TradeRow>
    var peak: real
    var maxDrawdown: real

    ghost predicate Valid() { 2 <= minBars && |zones| == |bars| }

    constructor (costs: Costs, bars: seq<Bar>, zones: seq<Zone>, mode: Mode, minBars: nat)
      requires 2 <= minBars && |zones| == |bars|
      ensures this.costs == costs && this.bars == bars && this.zones == zones && this.mode == mode
              && this.minBars == minBars
      ensures Valid() && AtBar(0)
    {
      this.costs, this.bars, this.zones, this.mode, this.minBars := costs, bars, zones, mode, minBars;
      balance, side, entry, qty, fundingPaid, trades, peak, maxDrawdown := 1.0, 0, 0.0, 0.0, 0.0, [], 1.0, 0.0;
    }

    ghost predicate Represents(book: Book, n: nat)
      reads this
    {
      && n <= |bars| && ValidTrips(bars, book.trips)
      && Stands(costs, bars, book, n, balance, side, entry, qty, fundingPaid)
      && trades == Rows(costs, bars, book.trips)
    }

    function FillPrice(raw: real, orderSide: int): (px: real)
      ensures px == Fill(costs, raw, orderSide > 0)
    {
      raw * (if orderSide > 0 then 1.0 + costs.Slip() else 1.0 - costs.Slip())
    }

    method AccrueFunding(mark: real)
      modifies this`fundingPaid
      ensures fundingPaid == old(fundingPaid) + side as real * costs.FundingPerBar() * qty * mark
    {
      if side == 0 || costs.fundingRate8h == 0.0 || costs.barHours <= 0.0 {
        NoFunding(side as real, costs.FundingPerBar(), qty, mark);
        return;
      }
      var notional := mark * qty;
      FundingAlgebra(side as real, mark, qty, costs.fundingRate8h, costs.barHours / 8.0);
      fundingPaid := fundingPaid + side as real * notional * costs.fundingRate8h * (costs.barHours / 8.0);
    }

    /** Close the position at a raw price: cash in, cash out, fees on both legs, funding. */
    method ClosePosition(raw: real, barSide: int)
      requires barSide == side && (side == 1 || side == -1)
      modifies this`balance, this`side, this`entry, this`qty, this`fundingPaid, this`trades
      ensures var net := CloseNet(costs, barSide, old(entry), old(qty), old(fundingPaid),
                                  Fill(costs, raw, barSide == -1));
              && balance == old(balance) + net
              && trades == old(trades) + [CloseRow(barSide, old(entry), old(qty), net)]
      ensures side == 0 && entry == 0.0 && qty == 0.0 && fundingPaid == 0.0
    {
      hide Fill, FillPrice;
      var exitPx := FillPrice(raw, if barSide == 1 then -1 else 1);
      assert exitPx == Fill(costs, raw, barSide == -1);
      var pnl := barSide as real * (exitPx - entry) * qty;
      var fees := (entry * qty + exitPx * qty) * costs.feePct;
      var net := pnl - fees - fundingPaid;
      assert net == CloseNet(costs, barSide, entry, qty, fundingPaid, exitPx);
      balance := balance + net;
      var cost := entry * qty;
      ghost var row := CloseRow(barSide, entry, qty, net);
      assert row == TradeRow(SideOf(barSide), if cost > 0.0 then net / cost else 0.0, net);
      hide CloseNet, CloseRow;
      trades := trades + [TradeRow(SideOf(barSide), if cost > 0.0 then net / cost else 0.0, net)];
      assert trades == old(trades) + [row];
      side, entry, qty, fundingPaid := 0, 0.0, 0.0, 0.0;
    }

    method OpenPosition(raw: real, newSide: int)
      requires newSide == 1 || newSide == -1
      modifies this`side, this`entry, this`qty, this`fundingPaid
      ensures side == newSide && fundingPaid == 0.0
      ensures entry == Fill(costs, raw, newSide == 1)
      ensures qty == balance * costs.positionPct * UnitQty(entry)
    {
      entry := FillPrice(raw, if newSide == 1 then 1 else -1);
      QtyOf(balance * costs.positionPct, entry);
      qty := if entry > 0.0 then (balance * costs.positionPct) / entry else 0.0;
      side := newSide;
      fundingPaid := 0.0;
    }

    /** Leave the position when the last closed bar says so. */
    method ExitAtOpen(i: nat, ghost book: Book)
      requires Valid() && minBars <= i < |bars| && Represents(book, i)
      requires book.position.Holding? ==> book.position.entryBar < i
      modifies this`balance, this`side, this`entry, this`qty, this`fundingPaid, this`trades
      ensures Represents(if Leaves(book.position, zones[i - 1]) then
                           Book(Flat, book.trips + [Trip(book.position.side, book.position.entryBar, AtOpen(i))])
                         else book, i)
    {
      hide Stands, Rows, Fill, CloseNet, CloseRow;
      var z1 := zones[i - 1];
      SideMatches(costs, bars, book, i, balance, side, entry, qty, fundingPaid);
      if Leaves(book.position, z1) {
        ClosedTrip(costs, bars, book, AtOpen(i), i, balance, side, entry, qty, fundingPaid,
                   Fill(costs, bars[i].open, side == -1));
      }
      if side == 1 && z1 == Red {
        ClosePosition(bars[i].open, 1);
      } else if side == -1 && z1 == Green {
        ClosePosition(bars[i].open, -1);
      }
    }

    /** Enter when flat and the last closed bar opens a fresh zone. */
    method EnterAtOpen(i: nat, ghost book: Book)
      requires Valid() && minBars <= i < |bars| && Represents(book, i)
      modifies this`side, this`entry, this`qty, this`fundingPaid
      ensures Represents(if book.position.Flat? then Book(Enter(mode, zones, i), book.trips) else book, i)
    {
      hide Rows, Fill, Balance, UnitQty;
      var z1, z2 := zones[i - 1], zones[i - 2];
      var freshGreen := z1 == Green && z2 != Green;
      var freshRed := z1 == Red && z2 != Red;
      SideMatches(costs, bars, book, i, balance, side, entry, qty, fundingPaid);
      if side == 0 {
        if mode.AllowLong() && freshGreen {
          OpenPosition(bars[i].open, 1);
          OpenedPosition(costs, bars, book, i, balance, Long, entry, qty);
        } else if mode.AllowShort() && freshRed {
          OpenPosition(bars[i].open, -1);
          OpenedPosition(costs, bars, book, i, balance, Short, entry, qty);
        }
      }
    }

    /** Accrue funding and mark the position at the close of bar `i`. */
    method MarkToMarket(i: nat, ghost book: Book, ghost curve: seq<real>)
      requires Valid() && i < |bars| && Represents(book, i)
      requires book.position.Holding? ==> book.position.entryBar <= i
      requires peak == Peak(1.0, curve) && maxDrawdown == MaxDrawdown(1.0, curve)
      modifies this`fundingPaid, this`peak, this`maxDrawdown
      ensures Represents(book, i + 1)
      ensures var curve' := curve + [Equity(costs, bars, book, i + 1)];
              peak == Peak(1.0, curve') && maxDrawdown == MaxDrawdown(1.0, curve')
    {
      hide Stands, Rows, Equity, Peak, MaxDrawdown;
      var cp := bars[i].close;
      AccrueFunding(cp);
      MarkedEquity(costs, bars, book, i, balance, side, entry, qty, old(fundingPaid), fundingPaid);
      var equity := balance + (if side != 0 then side as real * (cp - entry) * qty else 0.0) - fundingPaid;
      assert equity == MarkValue(balance, side, entry, qty, fundingPaid, cp);
      CurveGrows(1.0, curve, equity);
      peak := Max(peak, equity);
      if peak > 0.0 {
        maxDrawdown := Max(maxDrawdown, (peak - equity) / peak);
      }
    }

    /** The state of the loop when the bars before `n` are done. */
    ghost predicate AtBar(n: nat)
      reads this
      requires Valid()
    {
      && n <= |bars|
      && Represents(BookAfter(mode, zones, minBars, n), n)
      && peak == Peak(1.0, Curve(costs, bars, zones, mode, minBars, n))
      && maxDrawdown == MaxDrawdown(1.0, Curve(costs, bars, zones, mode, minBars, n))
    }

    method Bar(i: nat)
      requires Valid() && minBars <= i < |bars| && AtBar(i)
      modifies this
      ensures AtBar(i + 1)
    {
      hide Represents, Peak, MaxDrawdown, Enter, Equity;
      BookIsValid(mode, zones, minBars, i, bars);
      BookIsValid(mode, zones, minBars, i + 1, bars);
      ghost var book, next := BookAfter(mode, zones, minBars, i), BookAfter(mode, zones, minBars, i + 1);
      assert next == Trade(mode, zones, i, book);
      ExitAtOpen(i, book);
      ghost var left := if Leaves(book.position, zones[i - 1])
                        then Book(Flat, book.trips + [Trip(book.position.side, book.position.entryBar, AtOpen(i))])
                        else book;
      EnterAtOpen(i, left);
      assert next == if left.position.Flat? then Book(Enter(mode, zones, i), left.trips) else left;
      MarkToMarket(i, next, Curve(costs, bars, zones, mode, minBars, i));
    }

    /** Close what is still held, at the last close. */
    method CloseOut()
      requires Valid() && AtBar(|bars|)
      modifies this`balance, this`side, this`entry, this`qty, this`fundingPaid, this`trades
      ensures balance == FinalBalance(costs, bars, zones, mode, minBars)
      ensures trades == FinalRows(costs, bars, zones, mode, minBars)
    {
      hide Stands, Rows, Fill, CloseNet, CloseRow, Balance, Peak, MaxDrawdown, Curve;
      ghost var n := |bars|;
      ghost var book := BookAfter(mode, zones, minBars, n);
      BookIsValid(mode, zones, minBars, n, bars);
      SideMatches(costs, bars, book, n, balance, side, entry, qty, fundingPaid);
      if side != 0 {
        ClosedTrip(costs, bars, book, AtEnd, n, balance, side, entry, qty, fundingPaid,
                   Fill(costs, bars[n - 1].close, side == -1));
        ClosePosition(bars[|bars| - 1].close, side);
        ghost var all := book.trips + [Trip(book.position.side, book.position.entryBar, AtEnd)];
        SideMatches(costs, bars, Book(Flat, all), n, balance, side, entry, qty, fundingPaid);
      }
    }

    /** The bars `minBars ..` in order, and the close of what is still held. */
    method Run() returns (r: ModeResult)
      requires Valid() && AtBar(0)
      modifies this
      ensures r == Simulated(costs, bars, zones, mode, minBars)
      ensures balance == FinalBalance(costs, bars, zones, mode, minBars)
      ensures trades == FinalRows(costs, bars, zones, mode, minBars)
    {
      hide AtBar, FinalBalance, FinalRows;
      var i := minBars;
      BeforeFirstBar(if minBars <= |bars| then minBars else |bars|);
      while i < |bars|
        invariant minBars <= i
        invariant AtBar(if i <= |bars| then i else |bars|)
      {
        Bar(i);
        i := i + 1;
      }
      AtEndDrawdown();
      CloseOut();
      r := Report(balance, trades, maxDrawdown);
    }

    lemma BeforeFirstBar(n: nat)
      requires Valid() && AtBar(0) && n <= |bars| && n <= minBars
      ensures AtBar(n)
    {
      hide Rows, Balance;
    }

    lemma AtEndDrawdown()
      requires Valid() && AtBar(|bars|)
      ensures maxDrawdown == MaxDrawdown(1.0, Curve(costs, bars, zones, mode, minBars, |bars|))
    {
    }
  }

  lemma MarkedEquity(costs: Costs, bars: seq<Bar>, book: Book, i: nat,
                     balance: real, side: int, entry: real, qty: real, funding: real, accrued: real)
    requires i < |bars| && ValidTrips(bars, book.trips)
    requires book.position.Holding? ==> book.position.entryBar <= i
    requires Stands(costs, bars, book, i, balance, side, entry, qty, funding)
    requires accrued == funding + side as real * costs.FundingPerBar() * qty * bars[i].close
    ensures Stands(costs, bars, book, i + 1, balance, side, entry, qty, accrued)
    ensures MarkValue(balance, side, entry, qty, accrued, bars[i].close) == Equity(costs, bars, book, i + 1)
  {
    hide Balance, UnitQty, Fill, Factor;
    if book.position.Holding? {
      var held, a := book.position.side, book.position.entryBar;
      var f := costs.FundingPerBar();
      SumAlgebra(held.Sign() * f * qty, CloseSum(bars, a, i), bars[i].close);
      MarkAlgebra(balance, costs.positionPct, UnitQty(entry), held.Sign(), bars[i].close, entry, f,
                  CloseSum(bars, a, i + 1));
    }
  }

  lemma SumAlgebra(k: real, s: real, c: real)
    ensures k * (s + c) == k * s + k * c
  {
  }

  // ----- The gate

  datatype Decision = Decision(passed: bool, edge: real, longOnly: ModeResult, shortOnly: ModeResult,
                               longShort: ModeResult)

  predicate Passes(longShort: ModeResult, longOnly: ModeResult, minEdge: real) {
    longShort.netPct > 0.0 && longShort.netPct - longOnly.netPct >= minEdge
  }

  method RunMode(costs: Costs, bars: seq<Bar>, zones: seq<Zone>, mode: Mode, minBars: nat) returns (r: ModeResult)
    requires 2 <= minBars && |zones| == |bars|
    ensures r == Simulated(costs, bars, zones, mode, minBars)
  {
    hide Simulated;
    var sim := new Simulation(costs, bars, zones, mode, minBars);
    r := sim.Run();
  }

  datatype EvaluateError = NoCandles

  /** The three modes over the same candles, and the comparison of two of them. */
  method EvaluateMigration(costs: Costs, bars: seq<Bar>, zones: seq<Zone>, minBars: nat, minEdge: real)
    returns (r: Result<Decision, EvaluateError>)
    requires 2 <= minBars && |zones| == |bars|
    ensures r.Failure? <==> bars == []
    ensures r.Success? ==>
              var d := r.value;
              && d.longOnly == Simulated(costs, bars, zones, LongOnly, minBars)
              && d.shortOnly == Simulated(costs, bars, zones, ShortOnly, minBars)
              && d.longShort == Simulated(costs, bars, zones, LongShort, minBars)
              && d.edge == d.longShort.netPct - d.longOnly.netPct
              && d.passed == Passes(d.longShort, d.longOnly, minEdge)
  {
    hide Simulated;
    if bars == [] {
      return Failure(NoCandles);
    }
    var longOnly := RunMode(costs, bars, zones, LongOnly, minBars);
    var shortOnly := RunMode(costs, bars, zones, ShortOnly, minBars);
    var longShort := RunMode(costs, bars, zones, LongShort, minBars);
    var edge := longShort.netPct - longOnly.netPct;
    r := Success(Decision(longShort.netPct > 0.0 && edge >= minEdge, edge, longOnly, shortOnly, longShort));
  }

  lemma NetIsBalance(costs: Costs, bars: seq<Bar>, zones: seq<Zone>, mode: Mode, minBars: nat)
    requires 2 <= minBars && |zones| == |bars|
    ensures Simulated(costs, bars, zones, mode, minBars).netPct ==
            (FinalBalance(costs, bars, zones, mode, minBars) - 1.0) * 100.0
  {
    hide FinalBalance, FinalRows, Curve;
  }

  lemma GateAlgebra(l: real, s: real, b: real, longNet: real, shortNet: real, bothNet: real, minEdge: real)
    requires b == l * s
    requires longNet == (l - 1.0) * 100.0 && shortNet == (s - 1.0) * 100.0 && bothNet == (b - 1.0) * 100.0
    ensures bothNet - longNet == 100.0 * l * (s - 1.0)
    ensures bothNet > 0.0 <==> l * s > 1.0
    ensures l > 0.0 && minEdge > 0.0 && bothNet - longNet >= minEdge ==> shortNet > 0.0
  {
    if l > 0.0 && s <= 1.0 {
      assert l * (s - 1.0) <= 0.0;
    }
  }

  /** The gate in terms of the two one-sided balances: its edge is the long balance times
      the short profit, so with the long mode solvent a pass means that shorting alone
      was profitable, and the pass can be read off the two balances. */
  lemma GateReadsTheShortSide(costs: Costs, bars: seq<Bar>, zones: seq<Zone>, minBars: nat, minEdge: real)
    requires 2 <= minBars && |zones| == |bars|
    ensures var l := FinalBalance(costs, bars, zones, LongOnly, minBars);
            var s := FinalBalance(costs, bars, zones, ShortOnly, minBars);
            var longOnly := Simulated(costs, bars, zones, LongOnly, minBars);
            var shortOnly := Simulated(costs, bars, zones, ShortOnly, minBars);
            var longShort := Simulated(costs, bars, zones, LongShort, minBars);
            && longShort.netPct - longOnly.netPct == 100.0 * l * (s - 1.0)
            && (Passes(longShort, longOnly, minEdge) <==> l * s > 1.0 && 100.0 * l * (s - 1.0) >= minEdge)
            && (l > 0.0 && minEdge > 0.0 && Passes(longShort, longOnly, minEdge) ==> shortOnly.netPct > 0.0)
  {
    hide Simulated, FinalBalance;
    var l := FinalBalance(costs, bars, zones, LongOnly, minBars);
    var s := FinalBalance(costs, bars, zones, ShortOnly, minBars);
    var b := FinalBalance(costs, bars, zones, LongShort, minBars);
    NetIsBalance(costs, bars, zones, LongOnly, minBars);
    NetIsBalance(costs, bars, zones, ShortOnly, minBars);
    NetIsBalance(costs, bars, zones, LongShort, minBars);
    FinalProduct(costs, bars, zones, minBars);
    GateAlgebra(l, s, b, Simulated(costs, bars, zones, LongOnly, minBars).netPct,
                Simulated(costs, bars, zones, ShortOnly, minBars).netPct,
                Simulated(costs, bars, zones, LongShort, minBars).netPct, minEdge);
  }

  lemma FinalProduct(costs: Costs, bars: seq<Bar>, zones: seq<Zone>, minBars: nat)
    requires 2 <= minBars && |zones| == |bars|
    ensures FinalBalance(costs, bars, zones, LongShort, minBars)
         == FinalBalance(costs, bars, zones, LongOnly, minBars) * FinalBalance(costs, bars, zones, ShortOnly, minBars)
  {
    hide Balance, AllTrips;
    ProductOfModes(costs, bars, zones, minBars);
  }

  // ----- Conservation and drawdown of the report

  /** The reported net is the long net plus the short net, and the balance is one plus the
      sum of the recorded nets. */
  lemma ReportConserves(costs: Costs, bars: seq<Bar>, zones: seq<Zone>, mode: Mode, minBars: nat)
    requires 2 <= minBars && |zones| == |bars|
    ensures var r := Simulated(costs, bars, zones, mode, minBars);
            r.netPct == r.longNetPct + r.shortNetPct
    ensures FinalBalance(costs, bars, zones, mode, minBars) ==
            1.0 + NetSum(FinalRows(costs, bars, zones, mode, minBars))
  {
    hide Balance, Rows, AllTrips, Curve, Gross, Wins;
    AllTripsAreValid(mode, zones, minBars, bars);
    BalanceIsNetSum(costs, bars, AllTrips(mode, zones, minBars));
    SidesAddUp(FinalRows(costs, bars, zones, mode, minBars));
  }

  /** The reported drawdown is the largest relative loss between any two points of the
      equity curve, the initial balance included, exactly when no negative equity loses
      more against the smallest positive equity before it; so always while equity stays
      nonnegative. */
  lemma ReportedDrawdown(costs: Costs, bars: seq<Bar>, zones: seq<Zone>, mode: Mode, minBars: nat)
    requires 2 <= minBars && |zones| == |bars|
    ensures var curve := Curve(costs, bars, zones, mode, minBars, |bars|);
            var reported := Simulated(costs, bars, zones, mode, minBars).mddPct / 100.0;
            && (IsWorstDrop([1.0] + curve, reported) <==> TroughDrawdown(1.0, curve) <= reported)
            && ((forall i :: 0 <= i < |curve| ==> curve[i] >= 0.0) ==> IsWorstDrop([1.0] + curve, reported))
  {
    hide Balance, Rows, AllTrips, Curve, Gross, Wins, IsWorstDrop, MaxDrawdown, TroughDrawdown;
    SinglePassIsQuadraticIff(1.0, Curve(costs, bars, zones, mode, minBars, |bars|));
  }

  // ----- What the figures of a report are

  /** The gains, the losses and the results of either side, trade by trade. */
  ghost predicate Parts(rows: seq<TradeRow>, gains: seq<real>, losses: seq<real>, longs: seq<real>, shorts: seq<real>) {
    && |gains| == |losses| == |longs| == |shorts| == |rows|
    && (forall k :: 0 <= k < |rows| ==> gains[k] == if rows[k].net > 0.0 then rows[k].net else 0.0)
    && (forall k :: 0 <= k < |rows| ==> losses[k] == if rows[k].net < 0.0 then -rows[k].net else 0.0)
    && (forall k :: 0 <= k < |rows| ==> longs[k] == if rows[k].side == Long then rows[k].net else 0.0)
    && (forall k :: 0 <= k < |rows| ==> shorts[k] == if rows[k].side == Short then rows[k].net else 0.0)
  }

  lemma {:induction false} RowSums(rows: seq<TradeRow>, gains: seq<real>, losses: seq<real>, longs: seq<real>,
                                   shorts: seq<real>)
    requires Parts(rows, gains, losses, longs, shorts)
    ensures Gross(rows, true) == Sum(gains) && -Gross(rows, false) == Sum(losses)
    ensures SideNetSum(rows, Long) == Sum(longs) && SideNetSum(rows, Short) == Sum(shorts)
    decreases |rows|
  {
    if rows != [] {
      var n := |rows| - 1;
      RowSums(rows[..n], gains[..n], losses[..n], longs[..n], shorts[..n]);
    }
  }

  lemma {:induction false} WinsAre(rows: seq<TradeRow>)
    ensures Wins(rows) == |set k | 0 <= k < |rows| && rows[k].ret > 0.0|
    decreases |rows|
  {
    var after := set k | 0 <= k < |rows| && rows[k].ret > 0.0;
    if rows == [] {
      assert after == {};
    } else {
      var n := |rows| - 1;
      WinsAre(rows[..n]);
      var before := set k | 0 <= k < n && rows[..n][k].ret > 0.0;
      assert after == if rows[n].ret > 0.0 then before + {n} else before;
    }
  }

  /** The figures of a report, from the balance, the trades and the drawdown. */
  lemma ReportMeans(balance: real, rows: seq<TradeRow>, maxDrawdown: real, gains: seq<real>, losses: seq<real>,
                    longs: seq<real>, shorts: seq<real>)
    requires Parts(rows, gains, losses, longs, shorts)
    ensures var r := Report(balance, rows, maxDrawdown);
            && r.netPct / 100.0 == balance - 1.0 && r.mddPct / 100.0 == maxDrawdown && r.trades == |rows|
            && r.winPct * |rows| as real == 100.0 * |set k | 0 <= k < |rows| && rows[k].ret > 0.0| as real
            && (rows == [] ==> r.winPct == 0.0)
            && (Sum(losses) > 0.0 ==> r.profitFactor * Sum(losses) == Sum(gains))
            && (Sum(losses) <= 0.0 ==> r.profitFactor == if Sum(gains) > 0.0 then 99.9 else 0.0)
            && r.longNetPct == 100.0 * Sum(longs) && r.shortNetPct == 100.0 * Sum(shorts)
  {
    hide Sum, Gross, SideNetSum, Wins, Parts;
    RowSums(rows, gains, losses, longs, shorts);
    WinsAre(rows);
    if rows != [] {
      QuotientBack(100.0 * Wins(rows) as real, |rows| as real);
    }
    if Sum(losses) > 0.0 {
      QuotientBack(Sum(gains), Sum(losses));
    }
  }

  lemma QuotientBack(x: real, n: real)
    requires n > 0.0
    ensures x / n * n == x
  {
  }

  // ----- A run into negative equity

  const NO_COSTS := Costs(0.0, 0.0, 0.0, 4.0, 1.0)

  /** A long that doubles, then a short against which the price rises two and a half
      times. */
  function RisingBars(minBars: nat): seq<Bar> {
    seq(minBars, i => Bar(1.0, 1.0)) + [Bar(1.0, 2.0), Bar(2.0, 5.0)]
  }

  function RisingZones(minBars: nat): seq<Zone>
    requires 2 <= minBars
  {
    seq(minBars - 1, i => Neutral) + [Green, Red, Neutral]
  }

  lemma RisingBook(minBars: nat)
    requires 2 <= minBars
    ensures var zones := RisingZones(minBars);
            && BookAfter(LongShort, zones, minBars, minBars) == Book(Flat, [])
            && BookAfter(LongShort, zones, minBars, minBars + 1) == Book(Holding(Long, minBars), [])
            && BookAfter(LongShort, zones, minBars, minBars + 2) ==
               Book(Holding(Short, minBars + 1), [Trip(Long, minBars, AtOpen(minBars + 1))])
  {
    var zones := RisingZones(minBars);
    assert zones[minBars - 2] == Neutral && zones[minBars - 1] == Green && zones[minBars] == Red;
    assert Trade(LongShort, zones, minBars, Book(Flat, [])) == Book(Holding(Long, minBars), []);
  }

  lemma RisingLong(minBars: nat)
    requires 2 <= minBars
    ensures Equity(NO_COSTS, RisingBars(minBars), Book(Holding(Long, minBars), []), minBars + 1) == 2.0
  {
    var bars := RisingBars(minBars);
    assert bars[minBars] == Bar(1.0, 2.0);
    assert UnitQty(EntryPrice(NO_COSTS, bars, Long, minBars)) == 1.0;
    assert Marked(NO_COSTS, bars, Long, minBars, 2.0, minBars + 1) == 1.0;
  }

  lemma RisingShort(minBars: nat)
    requires 2 <= minBars
    ensures ValidTrips(RisingBars(minBars), [Trip(Long, minBars, AtOpen(minBars + 1))])
    ensures Equity(NO_COSTS, RisingBars(minBars),
                   Book(Holding(Short, minBars + 1), [Trip(Long, minBars, AtOpen(minBars + 1))]), minBars + 2) == -1.0
  {
    hide Factor, Marked;
    var bars := RisingBars(minBars);
    var trip := Trip(Long, minBars, AtOpen(minBars + 1));
    RisingTrip(minBars);
    RisingMark(minBars);
    assert [trip][..0] == [];
    assert Balance(NO_COSTS, bars, [trip]) == 2.0;
  }

  lemma RisingMark(minBars: nat)
    requires 2 <= minBars
    ensures RisingBars(minBars)[minBars + 1].close == 5.0
    ensures Marked(NO_COSTS, RisingBars(minBars), Short, minBars + 1, 5.0, minBars + 2) == -1.5
  {
    var bars := RisingBars(minBars);
    assert bars[minBars + 1] == Bar(2.0, 5.0);
    assert UnitQty(EntryPrice(NO_COSTS, bars, Short, minBars + 1)) == 0.5;
  }

  lemma RisingTrip(minBars: nat)
    requires 2 <= minBars
    ensures var trip := Trip(Long, minBars, AtOpen(minBars + 1));
            ValidTrip(RisingBars(minBars), trip) && Factor(NO_COSTS, RisingBars(minBars), trip) == 2.0
  {
    var bars := RisingBars(minBars);
    var trip := Trip(Long, minBars, AtOpen(minBars + 1));
    assert bars[minBars] == Bar(1.0, 2.0) && bars[minBars + 1] == Bar(2.0, 5.0);
    assert EntryPrice(NO_COSTS, bars, Long, minBars) == 1.0 && ExitPrice(NO_COSTS, bars, trip) == 2.0;
    assert Marked(NO_COSTS, bars, Long, minBars, 2.0, minBars + 1) == 1.0;
  }

  /** On these candles, after any number of warm-up bars, the simulation reports 150
      percent although equity lost 200 percent of its initial value. */
  lemma NegativeEquityIsUnderreported(minBars: nat)
    requires 2 <= minBars
    ensures var bars, zones := RisingBars(minBars), RisingZones(minBars);
            && Curve(NO_COSTS, bars, zones, LongShort, minBars, |bars|) == [2.0, -1.0]
            && Simulated(NO_COSTS, bars, zones, LongShort, minBars).mddPct == 150.0
            && !IsWorstDrop([1.0] + [2.0, -1.0], Simulated(NO_COSTS, bars, zones, LongShort, minBars).mddPct / 100.0)
  {
    hide Equity, BookAfter, IsWorstDrop, MaxDrawdown, RisingZones, FinalBalance, FinalRows, Wins, Gross, SideNetSum;
    var bars, zones := RisingBars(minBars), RisingZones(minBars);
    RisingShape(minBars);
    RisingBook(minBars);
    RisingLong(minBars);
    RisingShort(minBars);
    assert Curve(NO_COSTS, bars, zones, LongShort, minBars, minBars) == [];
    assert Curve(NO_COSTS, bars, zones, LongShort, minBars, minBars + 1) == [2.0];
    NegativeEquityDiffers();
  }

  lemma RisingShape(minBars: nat)
    requires 2 <= minBars
    ensures |RisingBars(minBars)| == |RisingZones(minBars)| == minBars + 2
  {
  }
}
