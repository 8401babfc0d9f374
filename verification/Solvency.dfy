/** Candles on which a simulated mode can never run into negative equity. */
module Solvency {
  import opened Reals
  import opened Drawdown
  import opened RoundTrips
  import opened ModeSimulator

  /** Costs of an unleveraged account without funding. */
  predicate Plain(costs: Costs) {
    && 0.0 <= costs.positionPct <= 1.0 && 0.0 <= costs.feePct < 1.0 && 0.0 <= costs.Slip() < 1.0
    && costs.FundingPerBar() == 0.0
  }

  /** A long entered at the raw price `entry` can be sold at `exit` for what the fees
      take. */
  predicate LongHolds(costs: Costs, entry: real, exit: real) {
    Fill(costs, exit, false) * (1.0 - costs.feePct) >= Fill(costs, entry, true) * costs.feePct
  }

  /** A short entered at the raw price `entry` can be bought back at `exit` out of twice the
      entry, less what the fees take. */
  predicate ShortHolds(costs: Costs, entry: real, exit: real) {
    Fill(costs, exit, true) * (1.0 + costs.feePct) <= Fill(costs, entry, false) * (2.0 - costs.feePct)
  }

  predicate Holds(costs: Costs, side: Side, entry: real, exit: real) {
    if side.Long? then LongHolds(costs, entry, exit) else ShortHolds(costs, entry, exit)
  }

  predicate Allows(mode: Mode, side: Side) { if side.Long? then mode.AllowLong() else mode.AllowShort() }

  /** Prices are positive, and no price moves so far against an earlier open that a position
      the mode may hold would be wiped out. */
  ghost predicate Bounded(costs: Costs, bars: seq<Bar>, mode: Mode) {
    && (forall i :: 0 <= i < |bars| ==> bars[i].open > 0.0 && bars[i].close > 0.0)
    && (forall i, j, side :: 0 <= i <= j < |bars| && Allows(mode, side) ==>
          Holds(costs, side, bars[i].open, bars[j].open) && Holds(costs, side, bars[i].open, bars[j].close))
  }

  lemma Scaled(entry: real, a: real)
    requires entry > 0.0 && a >= -entry
    ensures UnitQty(entry) * a >= -1.0
  {
    assert UnitQty(entry) * a == a / entry;
  }

  lemma Shrunk(pct: real, r: real)
    requires 0.0 <= pct <= 1.0 && r >= -1.0
    ensures 1.0 + pct * r >= 0.0
  {
    ProductLe(0.0, r + 1.0, pct);
    assert (r + 1.0) * pct == pct * r + pct;
  }

  lemma PositiveFill(costs: Costs, raw: real, buy: bool)
    requires Plain(costs) && raw > 0.0
    ensures Fill(costs, raw, buy) > 0.0
    ensures buy ==> Fill(costs, raw, buy) >= raw
  {
    var slip := costs.Slip();
    PositiveProduct(raw, if buy then 1.0 + slip else 1.0 - slip);
    ProductLe(0.0, slip, raw);
    assert raw * (1.0 + slip) == raw + slip * raw;
  }

  /** The mark of a held position never takes more than the capital it was sized on. */
  lemma MarkBounded(costs: Costs, bars: seq<Bar>, mode: Mode, side: Side, entryBar: nat, n: nat)
    requires Plain(costs) && Bounded(costs, bars, mode) && Allows(mode, side) && entryBar < n <= |bars|
    ensures Marked(costs, bars, side, entryBar, bars[n - 1].close, n) >= -1.0
  {
    hide Fill, UnitQty, Plain, CloseSum;
    var entry, price := EntryPrice(costs, bars, side, entryBar), bars[n - 1].close;
    PlainParts(costs);
    PositiveFill(costs, bars[entryBar].open, side.Long?);
    assert Holds(costs, side, bars[entryBar].open, price);
    MoveBounded(costs, side, bars[entryBar].open, price);
    Scaled(entry, side.Sign() * (price - entry));
  }

  lemma PlainParts(costs: Costs)
    requires Plain(costs)
    ensures 0.0 <= costs.positionPct <= 1.0 && costs.FundingPerBar() == 0.0 && 0.0 <= costs.feePct < 1.0
  {
  }

  lemma MoveBounded(costs: Costs, side: Side, raw: real, price: real)
    requires Plain(costs) && raw > 0.0 && price > 0.0 && Holds(costs, side, raw, price)
    ensures var entry := Fill(costs, raw, side.Long?); side.Sign() * (price - entry) >= -entry
  {
    hide Fill;
    var entry := Fill(costs, raw, side.Long?);
    PositiveFill(costs, raw, side.Long?);
    if side.Short? {
      var exit := Fill(costs, price, true);
      PositiveFill(costs, price, true);
      TwiceEntry(entry, exit, costs.feePct);
    }
  }

  lemma TwiceEntry(entry: real, exit: real, fee: real)
    requires entry > 0.0 && exit > 0.0 && 0.0 <= fee < 1.0 && exit * (1.0 + fee) <= entry * (2.0 - fee)
    ensures exit <= 2.0 * entry
  {
    assert exit * fee >= 0.0 && entry * fee >= 0.0;
  }

  /** Closing never takes more than the capital the position was sized on. */
  lemma CloseBounded(costs: Costs, bars: seq<Bar>, mode: Mode, trip: Trip)
    requires Plain(costs) && Bounded(costs, bars, mode) && Allows(mode, trip.side) && ValidTrip(bars, trip)
    ensures Factor(costs, bars, trip) >= 0.0
  {
    hide Fill, UnitQty, Plain, CloseSum, Bounded, Holds;
    PlainParts(costs);
    var raw := if trip.exit.AtOpen? then bars[trip.exit.bar].open else bars[|bars| - 1].close;
    TripPrices(costs, bars, mode, trip, raw);
    var entry, exit := EntryPrice(costs, bars, trip.side, trip.entryBar), ExitPrice(costs, bars, trip);
    ReturnBounded(costs, trip.side, bars[trip.entryBar].open, raw);
    var move, fees := trip.side.Sign() * (exit - entry), (entry + exit) * costs.feePct;
    Regrouped(UnitQty(entry), move, entry + exit, costs.feePct);
    Scaled(entry, move - fees);
    assert TripReturn(costs, bars, trip) == UnitQty(entry) * (move - fees);
    Shrunk(costs.positionPct, TripReturn(costs, bars, trip));
  }

  lemma Regrouped(u: real, move: real, sum: real, fee: real)
    ensures u * move - u * sum * fee == u * (move - sum * fee)
  {
  }

  lemma TripPrices(costs: Costs, bars: seq<Bar>, mode: Mode, trip: Trip, raw: real)
    requires Plain(costs) && Bounded(costs, bars, mode) && Allows(mode, trip.side) && ValidTrip(bars, trip)
    requires raw == if trip.exit.AtOpen? then bars[trip.exit.bar].open else bars[|bars| - 1].close
    ensures Holds(costs, trip.side, bars[trip.entryBar].open, raw)
    ensures bars[trip.entryBar].open > 0.0 && Fill(costs, bars[trip.entryBar].open, trip.side.Long?) > 0.0
  {
    hide Holds, Fill;
    PositiveFill(costs, bars[trip.entryBar].open, trip.side.Long?);
  }

  lemma ReturnBounded(costs: Costs, side: Side, raw: real, exitRaw: real)
    requires Holds(costs, side, raw, exitRaw)
    ensures var entry, exit := Fill(costs, raw, side.Long?), Fill(costs, exitRaw, side.Short?);
            side.Sign() * (exit - entry) - (entry + exit) * costs.feePct >= -entry
  {
    hide Fill;
    var entry, exit := Fill(costs, raw, side.Long?), Fill(costs, exitRaw, side.Short?);
    assert exit * (1.0 - costs.feePct) == exit - exit * costs.feePct
      && exit * (1.0 + costs.feePct) == exit + exit * costs.feePct;
    assert (entry + exit) * costs.feePct == entry * costs.feePct + exit * costs.feePct;
    assert entry * (2.0 - costs.feePct) == 2.0 * entry - entry * costs.feePct;
  }

  /** The mode only holds sides it allows. */
  ghost predicate Allowed(mode: Mode, book: Book) {
    && (book.position.Holding? ==> Allows(mode, book.position.side))
    && forall k :: 0 <= k < |book.trips| ==> Allows(mode, book.trips[k].side)
  }

  lemma {:induction false} BookAllowed(mode: Mode, zones: seq<Zone>, start: nat, n: nat)
    requires 2 <= start && n <= |zones|
    ensures Allowed(mode, BookAfter(mode, zones, start, n))
    decreases n
  {
    if n > start {
      BookAllowed(mode, zones, start, n - 1);
    }
  }

  lemma {:induction false} BalanceNonnegative(costs: Costs, bars: seq<Bar>, mode: Mode, trips: seq<Trip>)
    requires Plain(costs) && Bounded(costs, bars, mode) && ValidTrips(bars, trips)
    requires forall k :: 0 <= k < |trips| ==> Allows(mode, trips[k].side)
    ensures Balance(costs, bars, trips) >= 0.0
    decreases |trips|
  {
    if trips != [] {
      hide Factor, Plain, Bounded, Allows, ValidTrip, Product;
      var n := |trips| - 1;
      BalanceNonnegative(costs, bars, mode, trips[..n]);
      CloseBounded(costs, bars, mode, trips[n]);
      NonnegativeProduct(Balance(costs, bars, trips[..n]), Factor(costs, bars, trips[n]));
    }
  }

  lemma EquityNonnegative(costs: Costs, bars: seq<Bar>, mode: Mode, book: Book, n: nat)
    requires Plain(costs) && Bounded(costs, bars, mode) && Allowed(mode, book)
    requires 0 < n <= |bars| && ValidTrips(bars, book.trips) && (book.position.Holding? ==> book.position.entryBar < n)
    ensures Equity(costs, bars, book, n) >= 0.0
  {
    hide Balance, Marked, Bounded, Plain, Allows, ValidTrips, Product;
    PlainParts(costs);
    BalanceNonnegative(costs, bars, mode, book.trips);
    if book.position.Holding? {
      MarkBounded(costs, bars, mode, book.position.side, book.position.entryBar, n);
      var marked := Marked(costs, bars, book.position.side, book.position.entryBar, bars[n - 1].close, n);
      Shrunk(costs.positionPct, marked);
      ProductIs(costs.positionPct, marked);
      NonnegativeProduct(Balance(costs, bars, book.trips), 1.0 + Product(costs.positionPct, marked));
    }
  }

  lemma NonnegativeProduct(x: real, y: real)
    requires x >= 0.0 && y >= 0.0
    ensures Product(x, y) >= 0.0
  {
  }

  lemma {:induction false} CurveNonnegative(costs: Costs, bars: seq<Bar>, zones: seq<Zone>, mode: Mode, start: nat,
                                            n: nat)
    requires Plain(costs) && Bounded(costs, bars, mode) && 2 <= start && n <= |zones| == |bars|
    ensures forall i :: 0 <= i < |Curve(costs, bars, zones, mode, start, n)| ==>
            Curve(costs, bars, zones, mode, start, n)[i] >= 0.0
    decreases n
  {
    if n > start {
      hide Equity, Plain, Bounded, BookAfter, Allowed, ValidTrips;
      CurveNonnegative(costs, bars, zones, mode, start, n - 1);
      BookIsValid(mode, zones, start, n, bars);
      BookAllowed(mode, zones, start, n);
      EquityNonnegative(costs, bars, mode, BookAfter(mode, zones, start, n), n);
    }
  }

  /** On such candles the reported drawdown is the largest relative loss between any two
      points of the equity curve, whatever the zones. */
  lemma BoundedDrawdown(costs: Costs, bars: seq<Bar>, zones: seq<Zone>, mode: Mode, minBars: nat)
    requires 2 <= minBars && |zones| == |bars| && Plain(costs) && Bounded(costs, bars, mode)
    ensures IsWorstDrop([1.0] + Curve(costs, bars, zones, mode, minBars, |bars|),
                        Simulated(costs, bars, zones, mode, minBars).mddPct / 100.0)
  {
    hide *;
    CurveNonnegative(costs, bars, zones, mode, minBars, |bars|);
    ReportedDrawdown(costs, bars, zones, mode, minBars);
  }
}
