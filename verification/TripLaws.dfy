/** What the zone-driven machine does, in terms of the zones and prices alone: which bars it
    enters and leaves at, and what a round trip earns. */
module TripLaws {
  import opened Reals
  import opened RoundTrips

  // ----- Entries and exits

  /** The zone that a side is entered on. */
  function Own(side: Side): Zone { if side == Long then Green else Red }

  /** Bar `e` is the bar after a fresh change into the side's zone. */
  predicate Crossing(zones: seq<Zone>, side: Side, e: nat)
    requires 2 <= e <= |zones|
  {
    zones[e - 1] == Own(side) && zones[e - 2] != Own(side)
  }

  /** No bar from `e` on has had the other side's zone in time for the bars before `n`. */
  predicate Unbroken(zones: seq<Zone>, side: Side, e: nat, n: nat)
    requires n <= |zones|
  {
    forall j :: e <= j < n - 1 ==> zones[j] != Own(if side == Long then Short else Long)
  }

  /** A mode that trades the side has held it since `e` when the bars before `n` are done: bar
      `e` followed a crossing that nothing has ended, and every earlier crossing had been
      ended before it. */
  ghost predicate Since(zones: seq<Zone>, side: Side, start: nat, n: nat, e: nat)
    requires 2 <= start && n <= |zones|
  {
    && start <= e < n && Crossing(zones, side, e) && Unbroken(zones, side, e, n)
    && forall d :: start <= d < e && Crossing(zones, side, d) ==> !Unbroken(zones, side, d, e)
  }

  /** Every crossing so far has been ended. */
  ghost predicate AllEnded(zones: seq<Zone>, side: Side, start: nat, n: nat)
    requires 2 <= start && n <= |zones|
  {
    forall d :: start <= d < n && Crossing(zones, side, d) ==> !Unbroken(zones, side, d, n)
  }

  function OneSided(side: Side): Mode { if side == Long then LongOnly else ShortOnly }

  lemma {:induction false} OneSidedSince(zones: seq<Zone>, side: Side, start: nat, n: nat)
    requires 2 <= start && n <= |zones|
    ensures match BookAfter(OneSided(side), zones, start, n).position
            case Flat => AllEnded(zones, side, start, n)
            case Holding(held, e) => held == side && Since(zones, side, start, n, e)
    decreases n
  {
    if n > start {
      hide Unbroken;
      OneSidedSince(zones, side, start, n - 1);
      forall d: nat | d < n ensures Unbroken(zones, side, d, n) <==>
          Unbroken(zones, side, d, n - 1) && (d < n - 1 ==> zones[n - 2] != Own(if side == Long then Short else Long)) {
        UnbrokenStep(zones, side, d, n);
      }
    }
  }

  lemma UnbrokenStep(zones: seq<Zone>, side: Side, d: nat, n: nat)
    requires d < n <= |zones|
    ensures Unbroken(zones, side, d, n) <==>
            Unbroken(zones, side, d, n - 1) && (d < n - 1 ==> zones[n - 2] != Own(if side == Long then Short else Long))
  {
  }

  /** Which sides a mode trades. */
  predicate Trades(mode: Mode, side: Side) { mode == LongShort || mode == OneSided(side) }

  lemma OneSince(zones: seq<Zone>, side: Side, start: nat, n: nat, d: nat, e: nat)
    requires 2 <= start && n <= |zones| && Since(zones, side, start, n, d) && Since(zones, side, start, n, e)
    ensures d == e
  {
    hide Crossing, Unbroken;
    UnbrokenBefore(zones, side, d, e, n);
    UnbrokenBefore(zones, side, e, d, n);
  }

  lemma UnbrokenBefore(zones: seq<Zone>, side: Side, d: nat, m: nat, n: nat)
    requires m <= n <= |zones| && Unbroken(zones, side, d, n)
    ensures Unbroken(zones, side, d, m)
  {
  }

  lemma NoneSince(zones: seq<Zone>, side: Side, start: nat, n: nat, e: nat)
    requires 2 <= start && n <= |zones| && AllEnded(zones, side, start, n)
    ensures !Since(zones, side, start, n, e)
  {
    hide Crossing, Unbroken;
  }

  /** The position of every mode after any number of bars, told by the zones: it holds a side
      since bar `e` exactly when the mode trades that side, `e` followed a change into the
      side's zone, the other side's zone has not come since, and no earlier change of that
      kind was still in force. */
  lemma HeldSince(mode: Mode, zones: seq<Zone>, start: nat, n: nat, side: Side, e: nat)
    requires 2 <= start && n <= |zones|
    ensures BookAfter(mode, zones, start, n).position == Holding(side, e) <==>
            Trades(mode, side) && Since(zones, side, start, n, e)
  {
    hide Since, AllEnded, BookAfter;
    SideOfMode(mode, zones, start, n, side, e);
    OneSidedSince(zones, side, start, n);
    var held := BookAfter(OneSided(side), zones, start, n).position;
    if held.Holding? {
      if Since(zones, side, start, n, e) {
        OneSince(zones, side, start, n, e, held.entryBar);
      }
    } else {
      NoneSince(zones, side, start, n, e);
    }
  }

  /** A mode holds a side exactly when it trades it and the one-sided mode holds it. */
  lemma SideOfMode(mode: Mode, zones: seq<Zone>, start: nat, n: nat, side: Side, e: nat)
    requires 2 <= start && n <= |zones|
    ensures BookAfter(mode, zones, start, n).position == Holding(side, e) <==>
            Trades(mode, side) && BookAfter(OneSided(side), zones, start, n).position == Holding(side, e)
  {
    hide Since, AllEnded, Trade;
    OneSidedSince(zones, if side == Long then Short else Long, start, n);
    if n >= start {
      ModesMoveTogether(zones, start, n);
    }
  }

  /** A flat book enters at bar `i` exactly when the bar before it has freshly changed into
      the zone of a side that the mode trades, and then on that side. */
  lemma FlatEnters(mode: Mode, zones: seq<Zone>, start: nat, i: nat, side: Side)
    requires 2 <= start <= i < |zones| && BookAfter(mode, zones, start, i).position == Flat
    ensures BookAfter(mode, zones, start, i + 1).position == Holding(side, i) <==>
            Trades(mode, side) && Crossing(zones, side, i)
    ensures BookAfter(mode, zones, start, i + 1).trips == BookAfter(mode, zones, start, i).trips
  {
  }

  /** The round trips of every mode, told by the zones: one runs from bar `e` to the open of
      bar `x` exactly when the side had been held since `e` and the other side's zone came on
      the bar before `x`. */
  lemma {:induction false} TripsAre(mode: Mode, zones: seq<Zone>, start: nat, n: nat, side: Side, e: nat, x: nat)
    requires 2 <= start && n <= |zones|
    ensures Trip(side, e, AtOpen(x)) in BookAfter(mode, zones, start, n).trips <==>
            && start <= x < n && Trades(mode, side) && Since(zones, side, start, x, e)
            && zones[x - 1] == Own(if side == Long then Short else Long)
    decreases n
  {
    hide *;
    TripStep(mode, zones, start, n, side, e, x);
    if n > start {
      TripsAre(mode, zones, start, n - 1, side, e, x);
      HeldSince(mode, zones, start, n - 1, side, e);
    }
  }

  lemma TripStep(mode: Mode, zones: seq<Zone>, start: nat, n: nat, side: Side, e: nat, x: nat)
    requires 2 <= start && n <= |zones|
    ensures Trip(side, e, AtOpen(x)) in BookAfter(mode, zones, start, n).trips <==>
            && n > start
            && var before := BookAfter(mode, zones, start, n - 1);
               || Trip(side, e, AtOpen(x)) in before.trips
               || (x == n - 1 && before.position == Holding(side, e)
                   && zones[x - 1] == Own(if side == Long then Short else Long))
  {
    hide Enter;
  }

  ghost predicate InOrder(trips: seq<Trip>, n: nat) {
    && (forall k :: 0 <= k < |trips| ==> trips[k].exit.AtOpen? && trips[k].exit.bar < n)
    && (forall j, k :: 0 <= j < k < |trips| ==> trips[j].exit.bar < trips[k].exit.bar)
  }

  /** They are listed in the order of their exits, one each. */
  lemma {:induction false} TripsInOrder(mode: Mode, zones: seq<Zone>, start: nat, n: nat)
    requires 2 <= start && n <= |zones|
    ensures InOrder(BookAfter(mode, zones, start, n).trips, n)
    decreases n
  {
    hide Enter, InOrder;
    if n > start {
      TripsInOrder(mode, zones, start, n - 1);
      var before := BookAfter(mode, zones, start, n - 1);
      InOrderStep(before.trips, if before.position.Holding? then before.position.side else Long,
                  if before.position.Holding? then before.position.entryBar else 0, n - 1);
    } else {
      InOrderStep([], Long, 0, n);
    }
  }

  lemma InOrderStep(trips: seq<Trip>, side: Side, e: nat, n: nat)
    ensures InOrder([], n)
    ensures InOrder(trips, n) ==> InOrder(trips, n + 1) && InOrder(trips + [Trip(side, e, AtOpen(n))], n + 1)
  {
  }

  /** What is still held after the last bar is one more trip, to the last close. */
  lemma LastTrip(mode: Mode, zones: seq<Zone>, start: nat)
    requires 2 <= start
    ensures var all, closed := AllTrips(mode, zones, start), BookAfter(mode, zones, start, |zones|).trips;
            && (forall side, e :: Trip(side, e, AtEnd) in all <==>
                  Trades(mode, side) && Since(zones, side, start, |zones|, e))
            && closed <= all && |all| <= |closed| + 1
            && (forall k :: 0 <= k < |all| ==> (all[k].exit == AtEnd <==> k == |closed|))
  {
    hide Since, BookAfter, Trades;
    var book, all := BookAfter(mode, zones, start, |zones|), AllTrips(mode, zones, start);
    TripsInOrder(mode, zones, start, |zones|);
    forall side: Side, e: nat
      ensures Trip(side, e, AtEnd) in all <==> Trades(mode, side) && Since(zones, side, start, |zones|, e) {
      HeldSince(mode, zones, start, |zones|, side, e);
      assert Trip(side, e, AtEnd) !in book.trips;
    }
  }

  // ----- What a round trip earns

  function Closes(bars: seq<Bar>): (closes: seq<real>)
    ensures |closes| == |bars|
  {
    seq(|bars|, i requires 0 <= i < |bars| => bars[i].close)
  }

  lemma {:induction false} CloseSumIs(bars: seq<Bar>, e: nat, n: nat)
    requires e <= n <= |bars|
    ensures CloseSum(bars, e, n) == Sum(Closes(bars)[e..n])
    decreases n
  {
    if n > e {
      CloseSumIs(bars, e, n - 1);
      assert Closes(bars)[e..n][..n - 1 - e] == Closes(bars)[e..n - 1];
    }
  }

  /** What a long of one unit has paid for funding on the bars `e .. n`; a short receives
      it. */
  function Funding(costs: Costs, bars: seq<Bar>, e: nat, n: nat): real
    requires e <= n <= |bars|
  {
    if costs.fundingRate8h == 0.0 || costs.barHours <= 0.0 then 0.0
    else Product(costs.fundingRate8h * (costs.barHours / 8.0), Sum(Closes(bars)[e..n]))
  }

  /** The bar after the last one a trip accrues funding on, and the raw price it is left at. */
  function Until(bars: seq<Bar>, trip: Trip): nat { if trip.exit.AtOpen? then trip.exit.bar else |bars| }

  function RawExit(bars: seq<Bar>, trip: Trip): real
    requires ValidTrip(bars, trip)
  {
    if trip.exit.AtOpen? then bars[trip.exit.bar].open else bars[|bars| - 1].close
  }

  /** A marked long, per unit bought: the price over the entry, less funding. The entry is the
      open and the slippage on top. */
  lemma MarkedLong(costs: Costs, bars: seq<Bar>, e: nat, price: real, n: nat, buy: real)
    requires e < n <= |bars| && buy == bars[e].open * (1.0 + costs.slippageBps / 10000.0)
    ensures var r := Marked(costs, bars, Long, e, price, n);
            if buy > 0.0 then r * buy == price - buy - Funding(costs, bars, e, n) else r == 0.0
  {
    hide UnitQty, Marked, Funding, CloseSum;
    assert buy == EntryPrice(costs, bars, Long, e);
    hide EntryPrice;
    MarkParts(costs, bars, Long, e, price, n);
    UnitValue(buy, price - buy - Funding(costs, bars, e, n));
  }

  lemma MarkedShort(costs: Costs, bars: seq<Bar>, e: nat, price: real, n: nat, sold: real)
    requires e < n <= |bars| && sold == bars[e].open * (1.0 - costs.slippageBps / 10000.0)
    ensures var r := Marked(costs, bars, Short, e, price, n);
            if sold > 0.0 then r * sold == sold - price + Funding(costs, bars, e, n) else r == 0.0
  {
    hide UnitQty, Marked, Funding, CloseSum;
    assert sold == EntryPrice(costs, bars, Short, e);
    hide EntryPrice;
    MarkParts(costs, bars, Short, e, price, n);
    UnitValue(sold, sold - price + Funding(costs, bars, e, n));
  }

  lemma UnitValue(entry: real, a: real)
    ensures if entry > 0.0 then UnitQty(entry) * a * entry == a else UnitQty(entry) * a == 0.0
  {
    if entry > 0.0 {
      assert UnitQty(entry) * entry == 1.0;
      assert UnitQty(entry) * a * entry == (UnitQty(entry) * entry) * a;
    }
  }

  lemma MarkParts(costs: Costs, bars: seq<Bar>, side: Side, e: nat, price: real, n: nat)
    requires e < n <= |bars|
    ensures var entry := EntryPrice(costs, bars, side, e);
            Marked(costs, bars, side, e, price, n) == UnitQty(entry) *
            (if side == Long then price - entry - Funding(costs, bars, e, n)
             else entry - price + Funding(costs, bars, e, n))
  {
    hide UnitQty, Fill;
    CloseSumIs(bars, e, n);
    var entry, sum := EntryPrice(costs, bars, side, e), Sum(Closes(bars)[e..n]);
    var rate := costs.FundingPerBar();
    assert Funding(costs, bars, e, n) == rate * sum;
    SignedTerms(price - entry, rate, sum);
  }

  lemma SignedTerms(move: real, rate: real, sum: real)
    ensures Long.Sign() * move - Long.Sign() * rate * sum == move - rate * sum
    ensures Short.Sign() * move - Short.Sign() * rate * sum == -move + rate * sum
  {
  }

  /** A whole long trip, per unit bought: bought at the open with the slippage on top, sold with
      the slippage off, a fee on both amounts, and funding for the bars held. */
  lemma LongEarns(costs: Costs, bars: seq<Bar>, trip: Trip, buy: real, sell: real)
    requires ValidTrip(bars, trip) && trip.side == Long
    requires buy == bars[trip.entryBar].open * (1.0 + costs.slippageBps / 10000.0)
    requires sell == RawExit(bars, trip) * (1.0 - costs.slippageBps / 10000.0)
    ensures trip.entryBar < Until(bars, trip) <= |bars|
    ensures var r := TripReturn(costs, bars, trip);
            if buy <= 0.0 then r == 0.0
            else r * buy == sell - buy - costs.feePct * (buy + sell)
                            - Funding(costs, bars, trip.entryBar, Until(bars, trip))
  {
    Bounds(bars, trip);
    Prices(costs, bars, trip);
    hide *;
    MarkedLong(costs, bars, trip.entryBar, sell, Until(bars, trip), buy);
    FeeParts(costs, bars, trip, buy, sell);
  }

  /** And a short one: sold at the open, bought back later, and funding received. */
  lemma ShortEarns(costs: Costs, bars: seq<Bar>, trip: Trip, sold: real, cover: real)
    requires ValidTrip(bars, trip) && trip.side == Short
    requires sold == bars[trip.entryBar].open * (1.0 - costs.slippageBps / 10000.0)
    requires cover == RawExit(bars, trip) * (1.0 + costs.slippageBps / 10000.0)
    ensures trip.entryBar < Until(bars, trip) <= |bars|
    ensures var r := TripReturn(costs, bars, trip);
            if sold <= 0.0 then r == 0.0
            else r * sold == sold - cover - costs.feePct * (sold + cover)
                             + Funding(costs, bars, trip.entryBar, Until(bars, trip))
  {
    Bounds(bars, trip);
    Prices(costs, bars, trip);
    hide *;
    MarkedShort(costs, bars, trip.entryBar, cover, Until(bars, trip), sold);
    FeeParts(costs, bars, trip, sold, cover);
  }

  lemma Bounds(bars: seq<Bar>, trip: Trip)
    requires ValidTrip(bars, trip)
    ensures trip.entryBar < Until(bars, trip) <= |bars|
  {
  }

  lemma Prices(costs: Costs, bars: seq<Bar>, trip: Trip)
    requires ValidTrip(bars, trip)
    ensures var slip := costs.slippageBps / 10000.0;
            && EntryPrice(costs, bars, trip.side, trip.entryBar) ==
               bars[trip.entryBar].open * (if trip.side == Long then 1.0 + slip else 1.0 - slip)
            && ExitPrice(costs, bars, trip) ==
               RawExit(bars, trip) * (if trip.side == Long then 1.0 - slip else 1.0 + slip)
  {
  }

  lemma FeeParts(costs: Costs, bars: seq<Bar>, trip: Trip, entry: real, exit: real)
    requires ValidTrip(bars, trip)
    requires entry == EntryPrice(costs, bars, trip.side, trip.entryBar) && exit == ExitPrice(costs, bars, trip)
    ensures var r, m := TripReturn(costs, bars, trip),
                        Marked(costs, bars, trip.side, trip.entryBar, exit, Until(bars, trip));
            if entry > 0.0 then r * entry == m * entry - costs.feePct * (entry + exit) else r == m
  {
    hide UnitQty, Marked, EntryPrice, ExitPrice;
    var r, m := TripReturn(costs, bars, trip), Marked(costs, bars, trip.side, trip.entryBar, exit, Until(bars, trip));
    var fees := (entry + exit) * costs.feePct;
    FeeAlgebra(UnitQty(entry), entry + exit, costs.feePct);
    UnitValue(entry, fees);
    if entry > 0.0 {
      assert r == m - UnitQty(entry) * fees;
      assert r * entry == m * entry - UnitQty(entry) * fees * entry;
    }
  }

  lemma FeeAlgebra(u: real, both: real, fee: real)
    ensures u * both * fee == u * (both * fee)
  {
  }

  // ----- The account

  /** Every trip is made with the given share of the balance: it multiplies the balance by one
      plus the share times the trip's return. */
  lemma Compounds(costs: Costs, bars: seq<Bar>, trips: seq<Trip>, trip: Trip)
    requires ValidTrips(bars, trips) && ValidTrip(bars, trip)
    ensures ValidTrips(bars, trips + [trip]) && Balance(costs, bars, []) == 1.0
    ensures Balance(costs, bars, trips + [trip]) ==
            Balance(costs, bars, trips) * (1.0 + costs.positionPct * TripReturn(costs, bars, trip))
  {
    hide TripReturn, ValidTrip;
    BalanceAppend(costs, bars, trips, trip);
  }

  /** Equity at the close of a bar: the balance, and with a position what it would be if the
      position were worth its mark. */
  lemma EquityIsMarked(costs: Costs, bars: seq<Bar>, book: Book, n: nat)
    requires 0 < n <= |bars| && ValidTrips(bars, book.trips)
    requires book.position.Holding? ==> book.position.entryBar < n
    ensures var balance := Balance(costs, bars, book.trips);
            Equity(costs, bars, book, n) ==
            match book.position
            case Flat => balance
            case Holding(side, e) =>
              balance * (1.0 + costs.positionPct * Marked(costs, bars, side, e, bars[n - 1].close, n))
  {
    hide Balance, Marked;
  }

  /** A recorded trade has the side of its trip, the change it made to the balance, and, if
      there was capital to trade with, the trip's return. */
  lemma {:induction false} RowsMean(costs: Costs, bars: seq<Bar>, trips: seq<Trip>, k: nat)
    requires ValidTrips(bars, trips) && k < |trips|
    ensures |Rows(costs, bars, trips)| == |trips|
    ensures var row, trip := Rows(costs, bars, trips)[k], trips[k];
            var before, after := Balance(costs, bars, trips[..k]), Balance(costs, bars, trips[..k + 1]);
            && row.side == trip.side && row.net == after - before
            && (before * costs.positionPct > 0.0 && EntryPrice(costs, bars, trip.side, trip.entryBar) > 0.0 ==>
                  row.ret == TripReturn(costs, bars, trip))
            && (before * costs.positionPct <= 0.0 || EntryPrice(costs, bars, trip.side, trip.entryBar) <= 0.0 ==>
                  row.ret == 0.0)
    decreases |trips|
  {
    hide Balance, RowOfLast, TripReturn, EntryPrice, ValidTrip;
    var n := |trips| - 1;
    if k == n {
      RowsCount(costs, bars, trips[..n]);
      assert trips[..k + 1] == trips;
      LastRow(costs, bars, trips);
    } else {
      RowsMean(costs, bars, trips[..n], k);
      assert trips[..n][..k] == trips[..k] && trips[..n][..k + 1] == trips[..k + 1];
    }
  }

  lemma {:induction false} RowsCount(costs: Costs, bars: seq<Bar>, trips: seq<Trip>)
    requires ValidTrips(bars, trips)
    ensures |Rows(costs, bars, trips)| == |trips|
    decreases |trips|
  {
    hide RowOfLast;
    if trips != [] {
      RowsCount(costs, bars, trips[..|trips| - 1]);
    }
  }

  lemma LastRow(costs: Costs, bars: seq<Bar>, trips: seq<Trip>)
    requires ValidTrips(bars, trips) && trips != []
    ensures var n := |trips| - 1;
            var row, trip, before := RowOfLast(costs, bars, trips), trips[n], Balance(costs, bars, trips[..n]);
            && row.side == trip.side && row.net == Balance(costs, bars, trips) - before
            && (before * costs.positionPct > 0.0 && EntryPrice(costs, bars, trip.side, trip.entryBar) > 0.0 ==>
                  row.ret == TripReturn(costs, bars, trip))
            && (before * costs.positionPct <= 0.0 || EntryPrice(costs, bars, trip.side, trip.entryBar) <= 0.0 ==>
                  row.ret == 0.0)
  {
    hide Balance, TripReturn, EntryPrice, UnitQty;
    var n := |trips| - 1;
    LastNet(costs, bars, trips);
    var trip, capital := trips[n], Balance(costs, bars, trips[..n]) * costs.positionPct;
    var entry := EntryPrice(costs, bars, trip.side, trip.entryBar);
    CostIsCapital(entry, capital);
    if capital > 0.0 && entry > 0.0 {
      Ratio(capital, TripReturn(costs, bars, trip));
    }
  }

  lemma CostIsCapital(entry: real, capital: real)
    ensures entry * (capital * UnitQty(entry)) == if entry > 0.0 then capital else 0.0
  {
    assert entry > 0.0 ==> entry * UnitQty(entry) == 1.0;
    assert entry * (capital * UnitQty(entry)) == entry * UnitQty(entry) * capital;
  }

  lemma Ratio(capital: real, r: real)
    requires capital > 0.0
    ensures capital * r / capital == r
  {
  }
}
