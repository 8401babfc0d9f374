/** The older long/short backtest: no slippage, no funding and a fixed fee. It is proved
    against the same round trips as the migration backtest, which generalises it. */
module LongShortBacktest {
  import opened Drawdown
  import opened Reals
  import opened RoundTrips
  import opened ModeSimulator

  const FEE: real := 0.001
  const MIN_BARS: nat := 100

  /** The cost setting of the migration backtest that this program amounts to. */
  function PlainCosts(positionPct: real): Costs { Costs(FEE, 0.0, 0.0, 1.0, positionPct) }

  lemma PlainFill(positionPct: real, raw: real, buy: bool)
    ensures Fill(PlainCosts(positionPct), raw, buy) == raw
  {
  }

  lemma PlainFunding(positionPct: real, sign: real, qty: real, mark: real)
    ensures sign * PlainCosts(positionPct).FundingPerBar() * qty * mark == 0.0
  {
    NoFunding(sign, PlainCosts(positionPct).FundingPerBar(), qty, mark);
  }

  class Backtest {
    const bars: seq<Bar>
    const zones: seq<Zone>
    const mode: Mode
    const positionPct: real
    var balance: real
    var side: int
    var entry: real
    var qty: real
    var trades: seq<TradeRow>
    var peak: real
    var maxDrawdown: real

    ghost predicate Valid() { |zones| == |bars| }

    ghost predicate Represents(book: Book, n: nat)
      reads this
    {
      && n <= |bars| && ValidTrips(bars, book.trips)
      && Stands(PlainCosts(positionPct), bars, book, n, balance, side, entry, qty, 0.0)
      && trades == Rows(PlainCosts(positionPct), bars, book.trips)
    }

    ghost predicate AtBar(n: nat)
      reads this
      requires Valid()
    {
      var costs := PlainCosts(positionPct);
      && n <= |bars|
      && Represents(BookAfter(mode, zones, MIN_BARS, n), n)
      && peak == Peak(1.0, Curve(costs, bars, zones, mode, MIN_BARS, n))
      && maxDrawdown == MaxDrawdown(1.0, Curve(costs, bars, zones, mode, MIN_BARS, n))
    }

    constructor (bars: seq<Bar>, zones: seq<Zone>, mode: Mode, positionPct: real)
      requires |zones| == |bars|
      ensures this.bars == bars && this.zones == zones && this.mode == mode && this.positionPct == positionPct
      ensures Valid() && AtBar(0)
    {
      this.bars, this.zones, this.mode, this.positionPct := bars, zones, mode, positionPct;
      balance, side, entry, qty, trades, peak, maxDrawdown := 1.0, 0, 0.0, 0.0, [], 1.0, 0.0;
    }

    method ClosePosition(exitPx: real, barSide: int)
      requires barSide == side && (side == 1 || side == -1)
      modifies this`balance, this`side, this`entry, this`qty, this`trades
      ensures var net := CloseNet(PlainCosts(positionPct), barSide, old(entry), old(qty), 0.0, exitPx);
              && balance == old(balance) + net
              && trades == old(trades) + [CloseRow(barSide, old(entry), old(qty), net)]
      ensures side == 0 && entry == 0.0 && qty == 0.0
    {
      var pnl := barSide as real * (exitPx - entry) * qty;
      var fee := (entry * qty + exitPx * qty) * FEE;
      var net := pnl - fee;
      assert net == CloseNet(PlainCosts(positionPct), barSide, entry, qty, 0.0, exitPx);
      balance := balance + net;
      var cost := entry * qty;
      ghost var row := CloseRow(barSide, entry, qty, net);
      assert row == TradeRow(SideOf(barSide), if cost > 0.0 then net / cost else 0.0, net);
      hide CloseNet, CloseRow;
      trades := trades + [TradeRow(SideOf(barSide), if cost > 0.0 then net / cost else 0.0, net)];
      assert trades == old(trades) + [row];
      side, entry, qty := 0, 0.0, 0.0;
    }

    method OpenPosition(entryPx: real, newSide: int)
      requires newSide == 1 || newSide == -1
      modifies this`side, this`entry, this`qty
      ensures side == newSide && entry == entryPx
      ensures qty == balance * positionPct * UnitQty(entry)
    {
      QtyOf(balance * positionPct, entryPx);
      side := newSide;
      entry := entryPx;
      qty := if entryPx > 0.0 then (balance * positionPct) / entryPx else 0.0;
    }

    method ExitAtOpen(i: nat, ghost book: Book)
      requires Valid() && MIN_BARS <= i < |bars| && Represents(book, i)
      requires book.position.Holding? ==> book.position.entryBar < i
      modifies this`balance, this`side, this`entry, this`qty, this`trades
      ensures Represents(if Leaves(book.position, zones[i - 1]) then
                           Book(Flat, book.trips + [Trip(book.position.side, book.position.entryBar, AtOpen(i))])
                         else book, i)
    {
      hide Stands, Rows, Fill, CloseNet, CloseRow, PlainCosts;
      var op, z1 := bars[i].open, zones[i - 1];
      ghost var costs := PlainCosts(positionPct);
      SideMatches(costs, bars, book, i, balance, side, entry, qty, 0.0);
      if Leaves(book.position, z1) {
        PlainFill(positionPct, op, side == -1);
        ClosedTrip(costs, bars, book, AtOpen(i), i, balance, side, entry, qty, 0.0, op);
      }
      if side == 1 && z1 == Red {
        ClosePosition(op, 1);
      } else if side == -1 && z1 == Green {
        ClosePosition(op, -1);
      }
    }

    method EnterAtOpen(i: nat, ghost book: Book)
      requires Valid() && MIN_BARS <= i < |bars| && Represents(book, i)
      modifies this`side, this`entry, this`qty
      ensures Represents(if book.position.Flat? then Book(Enter(mode, zones, i), book.trips) else book, i)
    {
      hide Rows, Fill, Balance, UnitQty;
      var op, z1, z2 := bars[i].open, zones[i - 1], zones[i - 2];
      var freshGreen := z1 == Green && z2 != Green;
      var freshRed := z1 == Red && z2 != Red;
      ghost var costs := PlainCosts(positionPct);
      SideMatches(costs, bars, book, i, balance, side, entry, qty, 0.0);
      PlainFill(positionPct, op, true);
      PlainFill(positionPct, op, false);
      if side == 0 {
        if mode.AllowLong() && freshGreen {
          OpenPosition(op, 1);
          OpenedPosition(costs, bars, book, i, balance, Long, entry, qty);
        } else if mode.AllowShort() && freshRed {
          OpenPosition(op, -1);
          OpenedPosition(costs, bars, book, i, balance, Short, entry, qty);
        }
      }
    }

    method MarkToMarket(i: nat, ghost book: Book, ghost curve: seq<real>)
      requires Valid() && i < |bars| && Represents(book, i)
      requires book.position.Holding? ==> book.position.entryBar <= i
      requires peak == Peak(1.0, curve) && maxDrawdown == MaxDrawdown(1.0, curve)
      modifies this`peak, this`maxDrawdown
      ensures Represents(book, i + 1)
      ensures var curve' := curve + [Equity(PlainCosts(positionPct), bars, book, i + 1)];
              peak == Peak(1.0, curve') && maxDrawdown == MaxDrawdown(1.0, curve')
    {
      hide Stands, Rows, Equity, Peak, MaxDrawdown, PlainCosts;
      var cp := bars[i].close;
      PlainFunding(positionPct, side as real, qty, cp);
      MarkedEquity(PlainCosts(positionPct), bars, book, i, balance, side, entry, qty, 0.0, 0.0);
      var eq := balance + if side != 0 then side as real * (cp - entry) * qty else 0.0;
      assert eq == MarkValue(balance, side, entry, qty, 0.0, cp);
      CurveGrows(1.0, curve, eq);
      peak := Max(peak, eq);
      if peak > 0.0 {
        maxDrawdown := Max(maxDrawdown, (peak - eq) / peak);
      }
    }

    method Bar(i: nat)
      requires Valid() && MIN_BARS <= i < |bars| && AtBar(i)
      modifies this
      ensures AtBar(i + 1)
    {
      hide Represents, Peak, MaxDrawdown, Enter, Equity, PlainCosts;
      BookIsValid(mode, zones, MIN_BARS, i, bars);
      BookIsValid(mode, zones, MIN_BARS, i + 1, bars);
      ghost var book, next := BookAfter(mode, zones, MIN_BARS, i), BookAfter(mode, zones, MIN_BARS, i + 1);
      assert next == Trade(mode, zones, i, book);
      ExitAtOpen(i, book);
      ghost var left := if Leaves(book.position, zones[i - 1])
                        then Book(Flat, book.trips + [Trip(book.position.side, book.position.entryBar, AtOpen(i))])
                        else book;
      EnterAtOpen(i, left);
      assert next == if left.position.Flat? then Book(Enter(mode, zones, i), left.trips) else left;
      MarkToMarket(i, next, Curve(PlainCosts(positionPct), bars, zones, mode, MIN_BARS, i));
    }

    method CloseOut()
      requires Valid() && AtBar(|bars|)
      modifies this`balance, this`side, this`entry, this`qty, this`trades
      ensures balance == FinalBalance(PlainCosts(positionPct), bars, zones, mode, MIN_BARS)
      ensures trades == FinalRows(PlainCosts(positionPct), bars, zones, mode, MIN_BARS)
    {
      hide Stands, Rows, Fill, CloseNet, CloseRow, Balance, Peak, MaxDrawdown, Curve, PlainCosts;
      ghost var costs, n := PlainCosts(positionPct), |bars|;
      ghost var book := BookAfter(mode, zones, MIN_BARS, n);
      BookIsValid(mode, zones, MIN_BARS, n, bars);
      SideMatches(costs, bars, book, n, balance, side, entry, qty, 0.0);
      if side != 0 {
        PlainFill(positionPct, bars[n - 1].close, side == -1);
        ClosedTrip(costs, bars, book, AtEnd, n, balance, side, entry, qty, 0.0, bars[n - 1].close);
        ClosePosition(bars[|bars| - 1].close, side);
        ghost var all := book.trips + [Trip(book.position.side, book.position.entryBar, AtEnd)];
        SideMatches(costs, bars, Book(Flat, all), n, balance, side, entry, qty, 0.0);
      }
    }

    method Run() returns (r: ModeResult)
      requires Valid() && AtBar(0)
      modifies this
      ensures r == Simulated(PlainCosts(positionPct), bars, zones, mode, MIN_BARS)
      ensures trades == FinalRows(PlainCosts(positionPct), bars, zones, mode, MIN_BARS)
    {
      hide AtBar, FinalBalance, FinalRows, PlainCosts;
      var i := MIN_BARS;
      BeforeFirstBar(if MIN_BARS <= |bars| then MIN_BARS else |bars|);
      while i < |bars|
        invariant MIN_BARS <= i
        invariant AtBar(if i <= |bars| then i else |bars|)
      {
        Bar(i);
        i := i + 1;
      }
      AtEndDrawdown();
      CloseOut();
      r := Report(balance, trades, maxDrawdown);
    }

    lemma BeforeFirstBar(n: nat)
      requires Valid() && AtBar(0) && n <= |bars| && n <= MIN_BARS
      ensures AtBar(n)
    {
      hide Rows, Balance;
    }

    lemma AtEndDrawdown()
      requires Valid() && AtBar(|bars|)
      ensures maxDrawdown == MaxDrawdown(1.0, Curve(PlainCosts(positionPct), bars, zones, mode, MIN_BARS, |bars|))
    {
    }
  }

  // ----- Refinement

  /** The migration backtest refines the older one: with the same fee, no slippage and no
      funding the two programs give the same report and the same trades, bar length and
      all. */
  method SameAsMigration(bars: seq<Bar>, zones: seq<Zone>, mode: Mode, positionPct: real, barHours: real)
    returns (older: ModeResult, olderTrades: seq<TradeRow>, newer: ModeResult, newerTrades: seq<TradeRow>)
    requires |zones| == |bars|
    ensures older == newer && olderTrades == newerTrades
    ensures older == Simulated(Costs(0.001, 0.0, 0.0, barHours, positionPct), bars, zones, mode, 100)
    ensures olderTrades == FinalRows(Costs(0.001, 0.0, 0.0, barHours, positionPct), bars, zones, mode, 100)
  {
    hide Simulated, FinalRows;
    var backtest := new Backtest(bars, zones, mode, positionPct);
    older := backtest.Run();
    olderTrades := backtest.trades;
    var simulation := new Simulation(Costs(0.001, 0.0, 0.0, barHours, positionPct), bars, zones, mode, 100);
    newer := simulation.Run();
    newerTrades := simulation.trades;
    HoursDoNotMatter(bars, zones, mode, positionPct, barHours);
  }

  /** Bar by bar: after the same number of bars the two programs hold the same side, entry
      and quantity, and have the same balance, trades, peak and drawdown. */
  lemma SameAtEveryBar(backtest: Backtest, simulation: Simulation, barHours: real, n: nat)
    requires backtest.Valid() && backtest.AtBar(n)
    requires simulation.Valid() && simulation.AtBar(n)
    requires simulation.bars == backtest.bars && simulation.zones == backtest.zones && simulation.mode == backtest.mode
    requires simulation.minBars == 100 && simulation.costs == Costs(0.001, 0.0, 0.0, barHours, backtest.positionPct)
    ensures backtest.side == simulation.side && backtest.entry == simulation.entry && backtest.qty == simulation.qty
    ensures backtest.balance == simulation.balance && backtest.trades == simulation.trades
    ensures backtest.peak == simulation.peak && backtest.maxDrawdown == simulation.maxDrawdown
    ensures simulation.fundingPaid == 0.0
  {
    hide Balance, Rows, Curve, Peak, MaxDrawdown, UnitQty, CloseSum, BookAfter, Fill;
    var costs, plain := simulation.costs, PlainCosts(backtest.positionPct);
    var book := BookAfter(backtest.mode, backtest.zones, 100, n);
    SameBook(costs, plain, backtest.bars, backtest.zones, backtest.mode, 100, n);
    if book.position.Holding? {
      SameFill(costs, plain, backtest.bars[book.position.entryBar].open, book.position.side.Long?);
      NoFunding(book.position.side.Sign(), costs.FundingPerBar(), simulation.qty,
                CloseSum(backtest.bars, book.position.entryBar, n));
    }
  }

  /** The same at the level of the specification, for every prefix of the bars: balance,
      trades and equity curve. Sides and entry bars do not depend on costs at all. */
  lemma SameBook(a: Costs, b: Costs, bars: seq<Bar>, zones: seq<Zone>, mode: Mode, start: nat, n: nat)
    requires SameCharges(a, b) && 2 <= start && n <= |zones| == |bars|
    ensures var trips := BookAfter(mode, zones, start, n).trips;
            && ValidTrips(bars, trips)
            && Balance(a, bars, trips) == Balance(b, bars, trips) && Rows(a, bars, trips) == Rows(b, bars, trips)
    ensures Curve(a, bars, zones, mode, start, n) == Curve(b, bars, zones, mode, start, n)
  {
    hide *;
    BookIsValid(mode, zones, start, n, bars);
    SameBalance(a, b, bars, BookAfter(mode, zones, start, n).trips);
    SameCurve(a, b, bars, zones, mode, start, n);
  }

  /** The cost settings charge the same for every fill and every held bar. */
  predicate SameCharges(a: Costs, b: Costs) {
    && a.feePct == b.feePct && a.slippageBps == b.slippageBps && a.positionPct == b.positionPct
    && a.FundingPerBar() == b.FundingPerBar()
  }

  lemma SameFill(a: Costs, b: Costs, raw: real, buy: bool)
    requires SameCharges(a, b)
    ensures Fill(a, raw, buy) == Fill(b, raw, buy)
  {
  }

  lemma SamePositionPct(a: Costs, b: Costs)
    requires SameCharges(a, b)
    ensures a.positionPct == b.positionPct
  {
  }

  lemma SameMarked(a: Costs, b: Costs, bars: seq<Bar>, side: Side, entryBar: nat, price: real, upTo: nat)
    requires SameCharges(a, b) && entryBar < |bars| && upTo <= |bars|
    ensures Marked(a, bars, side, entryBar, price, upTo) == Marked(b, bars, side, entryBar, price, upTo)
  {
    hide Fill, UnitQty, CloseSum;
    SameFill(a, b, bars[entryBar].open, side.Long?);
  }

  lemma SameReturn(a: Costs, b: Costs, bars: seq<Bar>, trip: Trip)
    requires SameCharges(a, b) && ValidTrip(bars, trip)
    ensures EntryPrice(a, bars, trip.side, trip.entryBar) == EntryPrice(b, bars, trip.side, trip.entryBar)
    ensures TripReturn(a, bars, trip) == TripReturn(b, bars, trip)
  {
    hide Fill, UnitQty, Marked;
    var raw := if trip.exit.AtOpen? then bars[trip.exit.bar].open else bars[|bars| - 1].close;
    SameFill(a, b, bars[trip.entryBar].open, trip.side.Long?);
    SameFill(a, b, raw, trip.side.Short?);
    SameMarked(a, b, bars, trip.side, trip.entryBar, Fill(a, raw, trip.side.Short?),
               if trip.exit.AtOpen? then trip.exit.bar else |bars|);
  }

  lemma {:induction false} SameBalance(a: Costs, b: Costs, bars: seq<Bar>, trips: seq<Trip>)
    requires SameCharges(a, b) && ValidTrips(bars, trips)
    ensures Balance(a, bars, trips) == Balance(b, bars, trips) && Rows(a, bars, trips) == Rows(b, bars, trips)
    decreases |trips|
  {
    if trips != [] {
      hide TripReturn, EntryPrice, UnitQty, Product, RowOf;
      SameBalance(a, b, bars, trips[..|trips| - 1]);
      SameReturn(a, b, bars, trips[|trips| - 1]);
    }
  }

  lemma SameEquity(a: Costs, b: Costs, bars: seq<Bar>, book: Book, n: nat)
    requires SameCharges(a, b) && 0 < n <= |bars| && ValidTrips(bars, book.trips)
    requires book.position.Holding? ==> book.position.entryBar < n
    ensures Equity(a, bars, book, n) == Equity(b, bars, book, n)
  {
    hide Balance, Marked, Product, Rows, SameCharges, ValidTrips;
    SameBalance(a, b, bars, book.trips);
    SamePositionPct(a, b);
    if book.position.Holding? {
      SameMarked(a, b, bars, book.position.side, book.position.entryBar, bars[n - 1].close, n);
    }
  }

  lemma CurveStep(costs: Costs, bars: seq<Bar>, zones: seq<Zone>, mode: Mode, start: nat, n: nat)
    requires 2 <= start < n <= |zones| == |bars|
    ensures var book := BookAfter(mode, zones, start, n);
            && ValidTrips(bars, book.trips) && (book.position.Holding? ==> book.position.entryBar < n)
            && Curve(costs, bars, zones, mode, start, n) ==
               Curve(costs, bars, zones, mode, start, n - 1) + [Equity(costs, bars, book, n)]
  {
    hide BookAfter, Equity, ValidTrips;
    BookIsValid(mode, zones, start, n, bars);
  }

  lemma NoCurve(costs: Costs, bars: seq<Bar>, zones: seq<Zone>, mode: Mode, start: nat, n: nat)
    requires 2 <= start && n <= start && n <= |zones| == |bars|
    ensures Curve(costs, bars, zones, mode, start, n) == []
  {
  }

  lemma {:induction false} SameCurve(a: Costs, b: Costs, bars: seq<Bar>, zones: seq<Zone>, mode: Mode, start: nat,
                                     n: nat)
    requires SameCharges(a, b) && 2 <= start && n <= |zones| == |bars|
    ensures Curve(a, bars, zones, mode, start, n) == Curve(b, bars, zones, mode, start, n)
    decreases n
  {
    hide *;
    if n <= start {
      NoCurve(a, bars, zones, mode, start, n);
      NoCurve(b, bars, zones, mode, start, n);
    } else {
      SameCurve(a, b, bars, zones, mode, start, n - 1);
      CurveStep(a, bars, zones, mode, start, n);
      CurveStep(b, bars, zones, mode, start, n);
      SameEquity(a, b, bars, BookAfter(mode, zones, start, n), n);
    }
  }

  lemma HoursDoNotMatter(bars: seq<Bar>, zones: seq<Zone>, mode: Mode, positionPct: real, barHours: real)
    requires |zones| == |bars|
    ensures Simulated(Costs(0.001, 0.0, 0.0, barHours, positionPct), bars, zones, mode, MIN_BARS) ==
            Simulated(PlainCosts(positionPct), bars, zones, mode, MIN_BARS)
    ensures FinalRows(Costs(0.001, 0.0, 0.0, barHours, positionPct), bars, zones, mode, MIN_BARS) ==
            FinalRows(PlainCosts(positionPct), bars, zones, mode, MIN_BARS)
  {
    hide Balance, Rows, AllTrips, Curve, Report;
    var a, b := Costs(0.001, 0.0, 0.0, barHours, positionPct), PlainCosts(positionPct);
    AllTripsAreValid(mode, zones, MIN_BARS, bars);
    SameBalance(a, b, bars, AllTrips(mode, zones, MIN_BARS));
    SameCurve(a, b, bars, zones, mode, MIN_BARS, |bars|);
  }
}
