/** Zone-driven long/short trading as a list of round trips: which bars a mode enters and
    leaves at, and the factor by which each round trip multiplies the balance. The bar
    loops of the two simulators are proved against this. */
module RoundTrips {
  import opened Reals

  datatype Zone = Green | Red | Neutral

  datatype Mode = LongOnly | ShortOnly | LongShort {
    predicate AllowLong() { LongOnly? || LongShort? }
    predicate AllowShort() { ShortOnly? || LongShort? }
  }

  datatype Side = Long | Short {
    function Sign(): real { if Long? then 1.0 else -1.0 }
    function Opposite(): Side { if Long? then Short else Long }
  }

  datatype Bar = Bar(open: real, close: real)

  datatype Costs = Costs(feePct: real, slippageBps: real, fundingRate8h: real, barHours: real, positionPct: real) {
    function Slip(): real { slippageBps / 10000.0 }

    /** Funding per unit of notional and bar. */
    function FundingPerBar(): real {
      if fundingRate8h == 0.0 || barHours <= 0.0 then 0.0 else fundingRate8h * (barHours / 8.0)
    }
  }

  // ----- Positions

  datatype Position = Flat | Holding(side: Side, entryBar: nat)

  /** A position was left at the open of a bar or, at the very end, at the last close. */
  datatype Exit = AtOpen(bar: nat) | AtEnd

  datatype Trip = Trip(side: Side, entryBar: nat, exit: Exit)

  /** The closed trips and the position after some bars. */
  datatype Book = Book(position: Position, trips: seq<Trip>)

  predicate Leaves(position: Position, zone: Zone) {
    position.Holding? && (if position.side.Long? then zone == Red else zone == Green)
  }

  /** What a flat book does at the open of bar `i`, judging the two bars before it. */
  function Enter(mode: Mode, zones: seq<Zone>, i: nat): Position
    requires 2 <= i <= |zones|
  {
    var z1, z2 := zones[i - 1], zones[i - 2];
    if mode.AllowLong() && z1 == Green && z2 != Green then Holding(Long, i)
    else if mode.AllowShort() && z1 == Red && z2 != Red then Holding(Short, i)
    else Flat
  }

  function Trade(mode: Mode, zones: seq<Zone>, i: nat, book: Book): Book
    requires 2 <= i <= |zones|
  {
    if Leaves(book.position, zones[i - 1]) then
      Book(Enter(mode, zones, i), book.trips + [Trip(book.position.side, book.position.entryBar, AtOpen(i))])
    else if book.position.Flat? then Book(Enter(mode, zones, i), book.trips)
    else book
  }

  /** The book after bars `start .. n`. */
  function BookAfter(mode: Mode, zones: seq<Zone>, start: nat, n: nat): Book
    requires 2 <= start && n <= |zones|
    decreases n
  {
    if n <= start then Book(Flat, []) else Trade(mode, zones, n - 1, BookAfter(mode, zones, start, n - 1))
  }

  function AllTrips(mode: Mode, zones: seq<Zone>, start: nat): seq<Trip>
    requires 2 <= start
  {
    var book := BookAfter(mode, zones, start, |zones|);
    match book.position
    case Flat => book.trips
    case Holding(side, entryBar) => book.trips + [Trip(side, entryBar, AtEnd)]
  }

  // ----- Prices and returns

  /** Buys pay up, sells receive down. */
  function Fill(costs: Costs, raw: real, buy: bool): real {
    raw * (if buy then 1.0 + costs.Slip() else 1.0 - costs.Slip())
  }

  function EntryPrice(costs: Costs, bars: seq<Bar>, side: Side, entryBar: nat): real
    requires entryBar < |bars|
  {
    Fill(costs, bars[entryBar].open, side.Long?)
  }

  function ExitPrice(costs: Costs, bars: seq<Bar>, trip: Trip): real
    requires trip.exit.AtOpen? ==> trip.exit.bar < |bars|
    requires bars != []
  {
    Fill(costs, if trip.exit.AtOpen? then bars[trip.exit.bar].open else bars[|bars| - 1].close, trip.side.Short?)
  }

  /** The quantity one unit of capital buys. */
  function UnitQty(entry: real): real { if entry > 0.0 then 1.0 / entry else 0.0 }

  function CloseSum(bars: seq<Bar>, start: nat, upTo: nat): real
    requires upTo <= |bars|
    decreases upTo
  {
    if upTo <= start then 0.0 else CloseSum(bars, start, upTo - 1) + bars[upTo - 1].close
  }

  /** The return, per unit of capital, of a position marked at `price`: the price move
      and the funding of the bars held so far. */
  function Marked(costs: Costs, bars: seq<Bar>, side: Side, entryBar: nat, price: real, upTo: nat): real
    requires entryBar < |bars| && upTo <= |bars|
  {
    var entry := EntryPrice(costs, bars, side, entryBar);
    UnitQty(entry) *
    (side.Sign() * (price - entry) - side.Sign() * costs.FundingPerBar() * CloseSum(bars, entryBar, upTo))
  }

  ghost predicate ValidTrip(bars: seq<Bar>, trip: Trip) {
    && trip.entryBar < |bars|
    && (trip.exit.AtOpen? ==> trip.entryBar < trip.exit.bar < |bars|)
  }

  /** The net return of a round trip per unit of capital: it knows nothing of the mode or
      of the balance. */
  function TripReturn(costs: Costs, bars: seq<Bar>, trip: Trip): real
    requires ValidTrip(bars, trip)
  {
    var entry, exit := EntryPrice(costs, bars, trip.side, trip.entryBar), ExitPrice(costs, bars, trip);
    var upTo := if trip.exit.AtOpen? then trip.exit.bar else |bars|;
    Marked(costs, bars, trip.side, trip.entryBar, exit, upTo) - UnitQty(entry) * (entry + exit) * costs.feePct
  }

  ghost predicate ValidTrips(bars: seq<Bar>, trips: seq<Trip>) {
    forall k :: 0 <= k < |trips| ==> ValidTrip(bars, trips[k])
  }

  /** What a round trip multiplies the balance by. */
  function Factor(costs: Costs, bars: seq<Bar>, trip: Trip): real
    requires ValidTrip(bars, trip)
  {
    1.0 + Product(costs.positionPct, TripReturn(costs, bars, trip))
  }

  /** The balance after the trips, from a balance of one. */
  function Balance(costs: Costs, bars: seq<Bar>, trips: seq<Trip>): real
    requires ValidTrips(bars, trips)
    decreases |trips|
  {
    if trips == [] then 1.0
    else
      var n := |trips| - 1;
      Product(Balance(costs, bars, trips[..n]), Factor(costs, bars, trips[n]))
  }

  /** The equity at the close of bar `n - 1`. */
  function Equity(costs: Costs, bars: seq<Bar>, book: Book, n: nat): real
    requires 0 < n <= |bars| && ValidTrips(bars, book.trips)
    requires book.position.Holding? ==> book.position.entryBar < n
  {
    var balance := Balance(costs, bars, book.trips);
    match book.position
    case Flat => balance
    case Holding(side, entryBar) =>
      Product(balance, 1.0 + Product(costs.positionPct, Marked(costs, bars, side, entryBar, bars[n - 1].close, n)))
  }

  // ----- What is in a book

  lemma {:induction false} BookIsValid(mode: Mode, zones: seq<Zone>, start: nat, n: nat, bars: seq<Bar>)
    requires 2 <= start && n <= |zones| == |bars|
    ensures var book := BookAfter(mode, zones, start, n);
            && ValidTrips(bars, book.trips)
            && (book.position.Holding? ==> start <= book.position.entryBar < n)
    decreases n
  {
    if n > start {
      BookIsValid(mode, zones, start, n - 1, bars);
    }
  }

  lemma AllTripsAreValid(mode: Mode, zones: seq<Zone>, start: nat, bars: seq<Bar>)
    requires 2 <= start && |zones| == |bars|
    ensures ValidTrips(bars, AllTrips(mode, zones, start))
  {
    BookIsValid(mode, zones, start, |zones|, bars);
  }

  /** The equity curve over the bars `start .. n`. */
  function Curve(costs: Costs, bars: seq<Bar>, zones: seq<Zone>, mode: Mode, start: nat, n: nat): seq<real>
    requires 2 <= start && n <= |zones| == |bars|
    decreases n
  {
    if n <= start then []
    else
      BookIsValid(mode, zones, start, n, bars);
      Curve(costs, bars, zones, mode, start, n - 1) + [Equity(costs, bars, BookAfter(mode, zones, start, n), n)]
  }

  // ----- The product automaton

  function OfSide(trips: seq<Trip>, side: Side): seq<Trip>
    decreases |trips|
  {
    if trips == [] then []
    else
      var n := |trips| - 1;
      OfSide(trips[..n], side) + if trips[n].side == side then [trips[n]] else []
  }

  lemma OfSideAppend(trips: seq<Trip>, trip: Trip, side: Side)
    ensures OfSide(trips + [trip], side) == OfSide(trips, side) + if trip.side == side then [trip] else []
  {
    assert (trips + [trip])[..|trips|] == trips;
  }

  /** How the three modes stand to each other between two bars; `last` is the zone the
      latest decision was made on. */
  ghost predicate InStep(both: Book, long: Book, short: Book, last: Zone) {
    && long.position == (if both.position.Holding? && both.position.side.Long? then both.position else Flat)
    && short.position == (if both.position.Holding? && both.position.side.Short? then both.position else Flat)
    && long.trips == OfSide(both.trips, Long)
    && short.trips == OfSide(both.trips, Short)
    && (both.position.Holding? ==> !Leaves(both.position, last))
  }

  lemma StepTogether(zones: seq<Zone>, i: nat, both: Book, long: Book, short: Book)
    requires 2 <= i <= |zones| && InStep(both, long, short, zones[i - 2])
    ensures InStep(Trade(LongShort, zones, i, both), Trade(LongOnly, zones, i, long), Trade(ShortOnly, zones, i, short),
                   zones[i - 1])
  {
    if Leaves(both.position, zones[i - 1]) {
      var trip := Trip(both.position.side, both.position.entryBar, AtOpen(i));
      OfSideAppend(both.trips, trip, Long);
      OfSideAppend(both.trips, trip, Short);
    }
  }

  /** At every bar the long/short mode is long exactly when the long-only mode is, short
      exactly when the short-only mode is, since the same bar and with the same closed
      trips of that side. */
  lemma {:induction false} ModesMoveTogether(zones: seq<Zone>, start: nat, n: nat)
    requires 2 <= start <= n <= |zones|
    ensures InStep(BookAfter(LongShort, zones, start, n), BookAfter(LongOnly, zones, start, n),
                   BookAfter(ShortOnly, zones, start, n),
                   zones[n - 2])
    decreases n
  {
    if n > start {
      hide Trade;
      ModesMoveTogether(zones, start, n - 1);
      StepTogether(zones, n - 1, BookAfter(LongShort, zones, start, n - 1), BookAfter(LongOnly, zones, start, n - 1),
                   BookAfter(ShortOnly, zones, start, n - 1));
    }
  }

  /** The trips of the one-sided modes are the trips of the long/short mode on that side. */
  lemma TripsOfModes(zones: seq<Zone>, start: nat)
    requires 2 <= start
    ensures AllTrips(LongOnly, zones, start) == OfSide(AllTrips(LongShort, zones, start), Long)
    ensures AllTrips(ShortOnly, zones, start) == OfSide(AllTrips(LongShort, zones, start), Short)
  {
    if start <= |zones| {
      ModesMoveTogether(zones, start, |zones|);
      var both := BookAfter(LongShort, zones, start, |zones|);
      if both.position.Holding? {
        var trip := Trip(both.position.side, both.position.entryBar, AtEnd);
        OfSideAppend(both.trips, trip, Long);
        OfSideAppend(both.trips, trip, Short);
      }
    }
  }

  /** Closed trips follow each other without a gap: every exit is the entry of the other
      side at the same open, up to the position now held. */
  ghost predicate Reversing(book: Book) {
    && (forall k :: 0 <= k < |book.trips| ==> book.trips[k].exit.AtOpen?)
    && (forall k :: 0 <= k < |book.trips| - 1 ==>
          && book.trips[k + 1].side == book.trips[k].side.Opposite()
          && book.trips[k + 1].entryBar == book.trips[k].exit.bar)
    && (book.trips != [] ==>
          var last := book.trips[|book.trips| - 1];
          book.position == Holding(last.side.Opposite(), last.exit.bar))
  }

  /** The long/short mode, once it has entered, is in the market at every bar end, leaves
      only by an immediate reversal, and alternates its sides strictly. */
  lemma {:induction false} LongShortReverses(zones: seq<Zone>, start: nat, n: nat)
    requires 2 <= start < n <= |zones|
    ensures Reversing(BookAfter(LongShort, zones, start, n))
    ensures BookAfter(LongShort, zones, start, n - 1).position.Holding? ==>
            BookAfter(LongShort, zones, start, n).position.Holding?
    decreases n
  {
    var before := BookAfter(LongShort, zones, start, n - 1);
    if n - 1 > start {
      LongShortReverses(zones, start, n - 1);
    }
    ModesMoveTogether(zones, start, n - 1);
    ReverseStep(zones, n - 1, before);
  }

  lemma ReverseStep(zones: seq<Zone>, i: nat, book: Book)
    requires 2 <= i <= |zones| && Reversing(book)
    requires book.position.Holding? ==> !Leaves(book.position, zones[i - 2])
    ensures Reversing(Trade(LongShort, zones, i, book))
    ensures book.position.Holding? ==> Trade(LongShort, zones, i, book).position.Holding?
  {
  }

  /** What one mode reports about its trades: each with its return on the capital it tied
      up and its net result. */
  datatype TradeRow = TradeRow(side: Side, ret: real, net: real)

  /** The capital the last trip was sized on. */
  function CapitalOfLast(costs: Costs, bars: seq<Bar>, trips: seq<Trip>): real
    requires ValidTrips(bars, trips) && trips != []
  {
    Product(Balance(costs, bars, trips[..|trips| - 1]), costs.positionPct)
  }

  function NetOfLast(costs: Costs, bars: seq<Bar>, trips: seq<Trip>): real
    requires ValidTrips(bars, trips) && trips != []
  {
    Product(CapitalOfLast(costs, bars, trips), TripReturn(costs, bars, trips[|trips| - 1]))
  }

  function RowOf(side: Side, entry: real, capital: real, net: real): TradeRow {
    var cost := entry * (capital * UnitQty(entry));
    TradeRow(side, if cost > 0.0 then net / cost else 0.0, net)
  }

  function RowOfLast(costs: Costs, bars: seq<Bar>, trips: seq<Trip>): TradeRow
    requires ValidTrips(bars, trips) && trips != []
  {
    var trip := trips[|trips| - 1];
    RowOf(trip.side, EntryPrice(costs, bars, trip.side, trip.entryBar), CapitalOfLast(costs, bars, trips),
          NetOfLast(costs, bars, trips))
  }

  function Rows(costs: Costs, bars: seq<Bar>, trips: seq<Trip>): seq<TradeRow>
    requires ValidTrips(bars, trips)
    decreases |trips|
  {
    if trips == [] then [] else Rows(costs, bars, trips[..|trips| - 1]) + [RowOfLast(costs, bars, trips)]
  }

  // ----- Product of the modes

  lemma {:induction false} BalanceSplits(costs: Costs, bars: seq<Bar>, trips: seq<Trip>)
    requires ValidTrips(bars, trips)
    ensures ValidTrips(bars, OfSide(trips, Long)) && ValidTrips(bars, OfSide(trips, Short))
    ensures Balance(costs, bars, trips) ==
            Product(Balance(costs, bars, OfSide(trips, Long)), Balance(costs, bars, OfSide(trips, Short)))
    decreases |trips|
  {
    hide *;
    if trips == [] {
      NothingSplits(costs, bars);
    } else {
      var n := |trips| - 1;
      ValidFront(bars, trips);
      BalanceSplits(costs, bars, trips[..n]);
      SplitAppend(costs, bars, trips[..n], trips[n]);
      assert trips == trips[..n] + [trips[n]];
    }
  }

  lemma ValidFront(bars: seq<Bar>, trips: seq<Trip>)
    requires ValidTrips(bars, trips) && trips != []
    ensures ValidTrips(bars, trips[..|trips| - 1]) && ValidTrip(bars, trips[|trips| - 1])
  {
    hide ValidTrip;
  }

  lemma NothingSplits(costs: Costs, bars: seq<Bar>)
    ensures ValidTrips(bars, []) && OfSide([], Long) == OfSide([], Short) == []
    ensures Balance(costs, bars, []) == Product(Balance(costs, bars, []), Balance(costs, bars, []))
  {
  }

  lemma SplitAppend(costs: Costs, bars: seq<Bar>, trips: seq<Trip>, trip: Trip)
    requires ValidTrips(bars, trips) && ValidTrip(bars, trip)
    requires ValidTrips(bars, OfSide(trips, Long)) && ValidTrips(bars, OfSide(trips, Short))
    requires Balance(costs, bars, trips) ==
             Product(Balance(costs, bars, OfSide(trips, Long)), Balance(costs, bars, OfSide(trips, Short)))
    ensures var all := trips + [trip];
            && ValidTrips(bars, all) && ValidTrips(bars, OfSide(all, Long)) && ValidTrips(bars, OfSide(all, Short))
            && Balance(costs, bars, all) ==
               Product(Balance(costs, bars, OfSide(all, Long)), Balance(costs, bars, OfSide(all, Short)))
  {
    hide Balance, Factor, ValidTrips, ValidTrip, Product, OfSide;
    var long, short := OfSide(trips, Long), OfSide(trips, Short);
    OfSideAppend(trips, trip, Long);
    OfSideAppend(trips, trip, Short);
    BalanceAppend(costs, bars, trips, trip);
    if trip.side.Long? {
      BalanceAppend(costs, bars, long, trip);
      assert short + [] == short;
    } else {
      BalanceAppend(costs, bars, short, trip);
      assert long + [] == long;
    }
    Regroup(Balance(costs, bars, long), Balance(costs, bars, short), Factor(costs, bars, trip));
  }

  lemma BalanceAppend(costs: Costs, bars: seq<Bar>, trips: seq<Trip>, trip: Trip)
    requires ValidTrips(bars, trips) && ValidTrip(bars, trip)
    ensures ValidTrips(bars, trips + [trip])
    ensures Balance(costs, bars, trips + [trip]) == Product(Balance(costs, bars, trips), Factor(costs, bars, trip))
  {
    hide Factor, ValidTrip, Product;
    assert (trips + [trip])[..|trips|] == trips;
  }

  /** For every candle and zone sequence and every cost setting, the final balance of the
      long/short mode is exactly the product of the final balances of the one-sided
      modes. */
  lemma ProductOfModes(costs: Costs, bars: seq<Bar>, zones: seq<Zone>, start: nat)
    requires 2 <= start && |zones| == |bars|
    ensures ValidTrips(bars, AllTrips(LongShort, zones, start)) && ValidTrips(bars, AllTrips(LongOnly, zones, start))
    ensures ValidTrips(bars, AllTrips(ShortOnly, zones, start))
    ensures Balance(costs, bars, AllTrips(LongShort, zones, start))
         == Balance(costs, bars, AllTrips(LongOnly, zones, start)) *
            Balance(costs, bars, AllTrips(ShortOnly, zones, start))
  {
    hide *;
    AllTripsAreValid(LongShort, zones, start, bars);
    AllTripsAreValid(LongOnly, zones, start, bars);
    AllTripsAreValid(ShortOnly, zones, start, bars);
    TripsOfModes(zones, start);
    BalanceSplits(costs, bars, AllTrips(LongShort, zones, start));
    ProductIs(Balance(costs, bars, AllTrips(LongOnly, zones, start)),
              Balance(costs, bars, AllTrips(ShortOnly, zones, start)));
  }

  // ----- Conservation

  function NetSum(rows: seq<TradeRow>): real
    decreases |rows|
  {
    if rows == [] then 0.0 else NetSum(rows[..|rows| - 1]) + rows[|rows| - 1].net
  }

  function SideNetSum(rows: seq<TradeRow>, side: Side): real
    decreases |rows|
  {
    if rows == [] then 0.0
    else
      var last := rows[|rows| - 1];
      SideNetSum(rows[..|rows| - 1], side) + if last.side == side then last.net else 0.0
  }

  lemma {:induction false} SidesAddUp(rows: seq<TradeRow>)
    ensures NetSum(rows) == SideNetSum(rows, Long) + SideNetSum(rows, Short)
    decreases |rows|
  {
    if rows != [] {
      SidesAddUp(rows[..|rows| - 1]);
    }
  }

  /** The compounded balance is one plus the sum of the recorded net results. */
  lemma {:induction false} BalanceIsNetSum(costs: Costs, bars: seq<Bar>, trips: seq<Trip>)
    requires ValidTrips(bars, trips)
    ensures |Rows(costs, bars, trips)| == |trips|
    ensures Balance(costs, bars, trips) == 1.0 + NetSum(Rows(costs, bars, trips))
    decreases |trips|
  {
    if trips != [] {
      hide NetOfLast, TripReturn, EntryPrice, UnitQty;
      var n := |trips| - 1;
      BalanceIsNetSum(costs, bars, trips[..n]);
      var rows := Rows(costs, bars, trips);
      assert rows[..n] == Rows(costs, bars, trips[..n]);
      assert rows[n].net == NetOfLast(costs, bars, trips);
      LastNet(costs, bars, trips);
    }
  }

  lemma LastNet(costs: Costs, bars: seq<Bar>, trips: seq<Trip>)
    requires ValidTrips(bars, trips) && trips != []
    ensures Balance(costs, bars, trips) == Balance(costs, bars, trips[..|trips| - 1]) + NetOfLast(costs, bars, trips)
  {
    hide TripReturn;
    var n := |trips| - 1;
    var b, r := Balance(costs, bars, trips[..n]), TripReturn(costs, bars, trips[n]);
    assert Balance(costs, bars, trips) == b * (1.0 + costs.positionPct * r);
    Compound(b, costs.positionPct, r);
  }

  lemma Compound(b: real, pct: real, r: real)
    ensures b * (1.0 + pct * r) == b + b * pct * r
  {
  }
}
