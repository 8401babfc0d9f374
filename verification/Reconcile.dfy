/** Comparing the exchange's derivative positions with the locally tracked ones before a
    controlled restart. Each difference that is found becomes a reason not to restart. */
module Reconcile {
  import opened Reals
  import opened Wrappers
  import opened StableSort
  import opened Lexicographic

  /** A position as the exchange reports it. Absent numbers read as zero and absent texts as
      empty. */
  datatype Row = Row(symbol: string, quantity: real, contracts: real, side: string, entry: real, positionId: string)

  datatype Tracked = Tracked(side: string, quantity: real, entry: real, positionId: string)

  datatype Live = Live(symbol: string, side: string, quantity: real, entry: real, positionId: string)

  /** What the adapter answers: it cannot list positions, the query fails, or rows. */
  datatype Positions = Unsupported | QueryFailed | Rows(rows: seq<Row>)

  /** A symbol's exchange filters, if they can be read. */
  datatype Filters = Unavailable | Filters(minQty: real, stepSize: real, tickSize: real)

  datatype Reason =
    | CannotVerify
    | VerificationFailed
    | UntrackedPosition(symbol: string, quantity: real)
    | MultiplePositions(symbol: string)
    | OpenPosition(symbol: string)
    | MissingOnExchange(symbol: string)
    | NotTracked(symbol: string)
    | SideMismatch(symbol: string)
    | QuantityMismatch(symbol: string)
    | EntryUnavailable(symbol: string)
    | EntryMismatch(symbol: string)
    | PositionIdMismatch(symbol: string)

  // ----- Texts and tolerances

  function UpperChar(c: char): char {
    if 'a' <= c <= 'z' then (c as int - 32) as char else c
  }

  function Upper(s: string): string
    decreases |s|
  {
    if s == "" then "" else [UpperChar(s[0])] + Upper(s[1..])
  }

  function UpToColon(s: string): string
    decreases |s|
  {
    if s == "" || s[0] == ':' then "" else [s[0]] + UpToColon(s[1..])
  }

  predicate Separator(c: char) { c == '/' || c == '_' || c == '-' }

  function DropSeparators(s: string): string
    decreases |s|
  {
    if s == "" then "" else (if Separator(s[0]) then "" else [s[0]]) + DropSeparators(s[1..])
  }

  /** One spelling for every way an adapter writes an instrument. */
  function Symbol(raw: string): string { DropSeparators(Upper(UpToColon(raw))) }

  function QtyTolerance(filters: Filters): (r: real)
    ensures r > 0.0
  {
    if filters.Unavailable? then 0.00000001
    else Max(Max(filters.minQty, if filters.stepSize == 0.0 then 0.0001 else filters.stepSize), 0.000000000001)
  }

  function PriceTolerance(filters: Filters, price: real): (r: real)
    ensures r > 0.0
  {
    Max(Max(if filters.Unavailable? then 0.0 else filters.tickSize, Abs(price) * 0.000001), 0.00000001)
  }

  function Quantity(row: Row): real { Abs(if row.quantity != 0.0 then row.quantity else row.contracts) }

  function LiveOf(row: Row): Live {
    Live(Symbol(row.symbol), Upper(row.side), Quantity(row), row.entry, row.positionId)
  }

  function Symbols(pairs: seq<string>): set<string> { set p | p in pairs :: Symbol(p) }

  // ----- The two passes

  datatype Scan = Scan(live: map<string, Live>, reasons: seq<Reason>)

  function ScanRow(scan: Scan, row: Row, allowed: set<string>): Scan {
    var symbol := Symbol(row.symbol);
    if Quantity(row) <= 0.0 then scan
    else if symbol == "" || symbol !in allowed
      then scan.(reasons := scan.reasons + [UntrackedPosition(symbol, Quantity(row))])
    else if symbol in scan.live then scan.(reasons := scan.reasons + [MultiplePositions(symbol)])
    else scan.(live := scan.live[symbol := LiveOf(row)])
  }

  function ScanRows(rows: seq<Row>, allowed: set<string>): Scan
    decreases |rows|
  {
    if rows == [] then Scan(map[], [])
    else ScanRow(ScanRows(rows[..|rows| - 1], allowed), rows[|rows| - 1], allowed)
  }

  function Lookup<T>(m: map<string, T>, key: string): Option<T> { if key in m then Some(m[key]) else None }

  function CompareSides(symbol: string, tracked: Tracked, live: Live): seq<Reason> {
    var side := Upper(tracked.side);
    if side !in {"LONG", "SHORT"} || live.side != side then [SideMismatch(symbol)] else []
  }

  function CompareQuantities(symbol: string, tracked: Tracked, live: Live, filters: Filters): seq<Reason> {
    if Abs(live.quantity - Abs(tracked.quantity)) > QtyTolerance(filters) then [QuantityMismatch(symbol)] else []
  }

  function CompareEntries(symbol: string, tracked: Tracked, live: Live, filters: Filters): seq<Reason> {
    if tracked.entry <= 0.0 || live.entry <= 0.0 then [EntryUnavailable(symbol)]
    else if Abs(live.entry - tracked.entry) > PriceTolerance(filters, tracked.entry) then [EntryMismatch(symbol)]
    else []
  }

  function CompareIds(symbol: string, tracked: Tracked, live: Live): seq<Reason> {
    if tracked.positionId != "" && live.positionId != "" && live.positionId != tracked.positionId
    then [PositionIdMismatch(symbol)] else []
  }

  function ComparePair(symbol: string, tracked: Tracked, live: Live, filters: Filters): seq<Reason> {
    CompareSides(symbol, tracked, live) + CompareQuantities(symbol, tracked, live, filters)
    + CompareEntries(symbol, tracked, live, filters) + CompareIds(symbol, tracked, live)
  }

  function CheckSymbol(symbol: string, tracked: Option<Tracked>, live: Option<Live>, allow: bool,
                       filters: Filters): seq<Reason> {
    if !allow then (if live.Some? then [OpenPosition(symbol)] else [])
    else if tracked.Some? && live.None? then [MissingOnExchange(symbol)]
    else if live.Some? && tracked.None? then [NotTracked(symbol)]
    else if tracked.None? then []
    else ComparePair(symbol, tracked.value, live.value, filters)
  }

  type FilterSource = string -> Filters

  function CheckSymbols(symbols: seq<string>, tracked: map<string, Tracked>, live: map<string, Live>, allow: bool,
                        filters: FilterSource): seq<Reason>
    decreases |symbols|
  {
    if symbols == [] then []
    else
      var n := |symbols| - 1;
      CheckSymbols(symbols[..n], tracked, live, allow, filters)
      + CheckSymbol(symbols[n], Lookup(tracked, symbols[n]), Lookup(live, symbols[n]), allow, filters(symbols[n]))
  }

  /** The distinct pair symbols, sorted. */
  function SortedSymbols(pairs: seq<string>): seq<string> { Sort(Before, DistinctSymbols(pairs)) }

  function DistinctSymbols(pairs: seq<string>): seq<string>
    decreases |pairs|
  {
    if pairs == [] then []
    else
      var earlier := DistinctSymbols(pairs[..|pairs| - 1]);
      var symbol := Symbol(pairs[|pairs| - 1]);
      if symbol in earlier then earlier else earlier + [symbol]
  }

  function Reasons(rows: seq<Row>, pairs: seq<string>, tracked: map<string, Tracked>, allow: bool,
                   filters: FilterSource): seq<Reason> {
    var scan := ScanRows(rows, Symbols(pairs));
    scan.reasons + CheckSymbols(SortedSymbols(pairs), tracked, scan.live, allow, filters)
  }

  method DerivativePositions(positions: Positions, pairs: seq<string>, tracked: map<string, Tracked>, allow: bool,
                             filters: FilterSource)
    returns (liveBySymbol: map<string, Live>, reasons: seq<Reason>)
    ensures positions.Unsupported? ==> liveBySymbol == map[] && reasons == [CannotVerify]
    ensures positions.QueryFailed? ==> liveBySymbol == map[] && reasons == [VerificationFailed]
    ensures positions.Rows? ==> liveBySymbol == ScanRows(positions.rows, Symbols(pairs)).live
    ensures positions.Rows? ==> reasons == Reasons(positions.rows, pairs, tracked, allow, filters)
  {
    hide Symbol, Upper, Quantity, CheckSymbol, SortedSymbols, Symbols, Lookup;
    if positions.Unsupported? {
      return map[], [CannotVerify];
    }
    if positions.QueryFailed? {
      return map[], [VerificationFailed];
    }
    var rows, allowed := positions.rows, Symbols(pairs);
    liveBySymbol, reasons := map[], [];
    for i := 0 to |rows|
      invariant Scan(liveBySymbol, reasons) == ScanRows(rows[..i], allowed)
    {
      assert rows[..i + 1][..i] == rows[..i];
      var row := rows[i];
      var symbol, quantity := Symbol(row.symbol), Quantity(row);
      if quantity <= 0.0 {
        continue;
      }
      if symbol == "" || symbol !in allowed {
        reasons := reasons + [UntrackedPosition(symbol, quantity)];
        continue;
      }
      if symbol in liveBySymbol {
        reasons := reasons + [MultiplePositions(symbol)];
        continue;
      }
      liveBySymbol := liveBySymbol[symbol := Live(symbol, Upper(row.side), quantity, row.entry, row.positionId)];
    }
    assert rows[..|rows|] == rows;
    var symbols, found := SortedSymbols(pairs), reasons;
    for i := 0 to |symbols|
      invariant reasons == found + CheckSymbols(symbols[..i], tracked, liveBySymbol, allow, filters)
    {
      assert symbols[..i + 1][..i] == symbols[..i];
      var symbol := symbols[i];
      reasons := reasons + CheckSymbol(symbol, Lookup(tracked, symbol), Lookup(liveBySymbol, symbol), allow,
                                       filters(symbol));
    }
    assert symbols[..|symbols|] == symbols;
  }

  // ----- What no reasons means

  /** The rows that are positions at all, as a bag: the order is forgotten. */
  function Held(rows: seq<Row>): multiset<Row>
    decreases |rows|
  {
    if rows == [] then multiset{}
    else
      var row := rows[|rows| - 1];
      Held(rows[..|rows| - 1]) + if row.quantity != 0.0 || row.contracts != 0.0 then multiset{row} else multiset{}
  }

  lemma PositiveQuantity(row: Row)
    ensures Quantity(row) > 0.0 <==> row.quantity != 0.0 || row.contracts != 0.0
    ensures Quantity(row) >= 0.0
  {
  }

  /** At most one position per symbol, each on a configured pair. */
  ghost predicate OnePerPair(held: multiset<Row>, allowed: set<string>) {
    && (forall row :: row in held ==> held[row] == 1 && Symbol(row.symbol) != "" && Symbol(row.symbol) in allowed)
    && (forall a, b :: a in held && b in held && Symbol(a.symbol) == Symbol(b.symbol) ==> a == b)
  }

  /** The quantities differ by no more than the smallest order, the step, or a rounding error;
      without filters, by no more than 1e-8. A step of zero reads as 0.0001. */
  predicate QuantitiesAgree(row: Row, tracked: Tracked, filters: Filters) {
    var held := if row.quantity != 0.0 then row.quantity else row.contracts;
    var apart := Abs(Abs(held) - Abs(tracked.quantity));
    match filters
    case Unavailable => apart <= 0.00000001
    case Filters(minQty, stepSize, _) =>
      apart <= minQty || apart <= (if stepSize == 0.0 then 0.0001 else stepSize) || apart <= 0.000000000001
  }

  /** The entries differ by no more than a tick, a millionth of the tracked price, or 1e-8. */
  predicate EntriesAgree(row: Row, tracked: Tracked, filters: Filters) {
    var apart := Abs(row.entry - tracked.entry);
    || (filters.Filters? && apart <= filters.tickSize)
    || apart * 1000000.0 <= Abs(tracked.entry)
    || apart <= 0.00000001
  }

  /** The exchange and the local record describe the same position. */
  predicate Agrees(row: Row, tracked: Tracked, filters: Filters) {
    && Upper(row.side) == Upper(tracked.side)
    && Upper(tracked.side) in {"LONG", "SHORT"}
    && QuantitiesAgree(row, tracked, filters)
    && row.entry > 0.0 && tracked.entry > 0.0 && EntriesAgree(row, tracked, filters)
    && (row.positionId == "" || tracked.positionId == "" || row.positionId == tracked.positionId)
  }

  /** The held positions and the tracked pairs are in bijection and agree. */
  ghost predicate Reconciled(held: multiset<Row>, allowed: set<string>, tracked: map<string, Tracked>,
                             filters: FilterSource) {
    && OnePerPair(held, allowed)
    && (forall row :: row in held ==>
          Symbol(row.symbol) in tracked && Agrees(row, tracked[Symbol(row.symbol)], filters(Symbol(row.symbol))))
    && (forall symbol :: symbol in allowed && symbol in tracked ==>
        exists row :: row in held && Symbol(row.symbol) == symbol)
  }

  /** The live map holds the held rows. */
  ghost predicate Represents(live: map<string, Live>, held: multiset<Row>) {
    && (forall row :: row in held ==> Symbol(row.symbol) in live && live[Symbol(row.symbol)] == LiveOf(row))
    && (forall symbol :: symbol in live ==> exists row :: row in held && Symbol(row.symbol) == symbol)
  }

  /** Every entry of the live map is a held row, and every held row of a configured pair has
      an entry. */
  lemma {:induction false} LiveIsHeld(rows: seq<Row>, allowed: set<string>)
    ensures forall symbol :: symbol in ScanRows(rows, allowed).live ==>
      symbol in allowed && symbol != "" &&
      exists row :: row in Held(rows) && Symbol(row.symbol) == symbol
        && ScanRows(rows, allowed).live[symbol] == LiveOf(row)
    ensures forall row :: row in Held(rows) && Symbol(row.symbol) != "" && Symbol(row.symbol) in allowed ==>
      Symbol(row.symbol) in ScanRows(rows, allowed).live
    decreases |rows|
  {
    hide Symbol, Quantity, LiveOf;
    if rows != [] {
      PositiveQuantity(rows[|rows| - 1]);
      LiveIsHeld(rows[..|rows| - 1], allowed);
    }
  }

  /** The first pass finds nothing wrong exactly when there is at most one position per
      pair, and then it has collected them all. */
  lemma {:induction false} ScanMeans(rows: seq<Row>, allowed: set<string>)
    ensures ScanRows(rows, allowed).reasons == [] <==> OnePerPair(Held(rows), allowed)
    ensures ScanRows(rows, allowed).reasons == [] ==> Represents(ScanRows(rows, allowed).live, Held(rows))
    decreases |rows|
  {
    hide Symbol, Quantity, LiveOf, ScanRows, Held;
    if rows == [] {
      ScanNothing(allowed);
    } else {
      var earlier, row := rows[..|rows| - 1], rows[|rows| - 1];
      ScanMeans(earlier, allowed);
      LiveIsHeld(earlier, allowed);
      ScanStep(rows, allowed);
      OnePerPairStep(Held(earlier), row, allowed, ScanRows(earlier, allowed));
    }
  }

  lemma ScanNothing(allowed: set<string>)
    ensures ScanRows([], allowed) == Scan(map[], []) && Held([]) == multiset{}
  {
  }

  lemma ScanStep(rows: seq<Row>, allowed: set<string>)
    requires rows != []
    ensures ScanRows(rows, allowed) == ScanRow(ScanRows(rows[..|rows| - 1], allowed), rows[|rows| - 1], allowed)
    ensures Held(rows) == Held(rows[..|rows| - 1]) +
            if Quantity(rows[|rows| - 1]) > 0.0 then multiset{rows[|rows| - 1]} else multiset{}
  {
    PositiveQuantity(rows[|rows| - 1]);
  }

  lemma OnePerPairStep(held: multiset<Row>, row: Row, allowed: set<string>, scan: Scan)
    requires scan.reasons == [] <==> OnePerPair(held, allowed)
    requires scan.reasons == [] ==> Represents(scan.live, held)
    requires forall symbol :: symbol in scan.live ==> exists other :: other in held && Symbol(other.symbol) == symbol
    ensures var now := held + if Quantity(row) > 0.0 then multiset{row} else multiset{};
      && (ScanRow(scan, row, allowed).reasons == [] <==> OnePerPair(now, allowed))
      && (ScanRow(scan, row, allowed).reasons == [] ==> Represents(ScanRow(scan, row, allowed).live, now))
  {
    hide Symbol, Quantity, LiveOf, OnePerPair, Represents;
    if Quantity(row) > 0.0 {
      var now := held + multiset{row};
      if OnePerPair(now, allowed) {
        Smaller(held, row, allowed);
      }
      if OnePerPair(held, allowed) && Symbol(row.symbol) != "" && Symbol(row.symbol) in allowed
        && Symbol(row.symbol) !in scan.live {
        Larger(held, row, allowed, scan.live);
      }
    } else {
      assert held + multiset{} == held;
    }
  }

  lemma Larger(held: multiset<Row>, row: Row, allowed: set<string>, live: map<string, Live>)
    requires OnePerPair(held, allowed) && Represents(live, held)
    requires Symbol(row.symbol) != "" && Symbol(row.symbol) in allowed && Symbol(row.symbol) !in live
    ensures OnePerPair(held + multiset{row}, allowed)
    ensures Represents(live[Symbol(row.symbol) := LiveOf(row)], held + multiset{row})
  {
    hide Symbol, LiveOf, OnePerPair;
    forall other | other in held ensures Symbol(other.symbol) in live && Symbol(other.symbol) != Symbol(row.symbol) {
      assert Symbol(other.symbol) in live;
    }
    OneMoreRow(held, row, allowed);
    assert forall other :: other in held + multiset{row} <==> other == row || other in held;
  }

  lemma OneMoreRow(held: multiset<Row>, row: Row, allowed: set<string>)
    requires OnePerPair(held, allowed) && Symbol(row.symbol) != "" && Symbol(row.symbol) in allowed
    requires forall other :: other in held ==> Symbol(other.symbol) != Symbol(row.symbol)
    ensures OnePerPair(held + multiset{row}, allowed)
  {
    hide Symbol;
    var now := held + multiset{row};
    assert row !in held;
    forall other | other in now
      ensures now[other] == 1 && Symbol(other.symbol) != "" && Symbol(other.symbol) in allowed {
      assert other == row || other in held;
    }
  }

  lemma Smaller(held: multiset<Row>, row: Row, allowed: set<string>)
    requires OnePerPair(held + multiset{row}, allowed)
    ensures OnePerPair(held, allowed) && Symbol(row.symbol) != "" && Symbol(row.symbol) in allowed
    ensures forall other :: other in held ==> Symbol(other.symbol) != Symbol(row.symbol)
  {
    hide Symbol;
    var now := held + multiset{row};
    assert row in now;
    forall other | other in held
      ensures other in now && held[other] == 1 && Symbol(other.symbol) != Symbol(row.symbol) {
      assert other in now && now[other] == 1 && row in now && now[row] == 1;
    }
  }

  lemma {:induction false} CheckedAll(symbols: seq<string>, tracked: map<string, Tracked>, live: map<string, Live>,
                                      allow: bool, filters: FilterSource)
    ensures CheckSymbols(symbols, tracked, live, allow, filters) == [] <==>
      forall symbol :: symbol in symbols ==>
        CheckSymbol(symbol, Lookup(tracked, symbol), Lookup(live, symbol), allow, filters(symbol)) == []
    decreases |symbols|
  {
    hide CheckSymbol, Lookup;
    if symbols != [] {
      var n := |symbols| - 1;
      CheckedAll(symbols[..n], tracked, live, allow, filters);
      assert symbols == symbols[..n] + [symbols[n]];
    }
  }

  lemma {:induction false} DistinctSymbolsAre(pairs: seq<string>)
    ensures forall symbol :: symbol in DistinctSymbols(pairs) <==> symbol in Symbols(pairs)
    decreases |pairs|
  {
    hide Symbol;
    if pairs != [] {
      var n := |pairs| - 1;
      DistinctSymbolsAre(pairs[..n]);
      assert pairs == pairs[..n] + [pairs[n]];
      assert Symbols(pairs) == Symbols(pairs[..n]) + {Symbol(pairs[n])};
    }
  }

  lemma SortedSymbolsAre(pairs: seq<string>)
    ensures forall symbol :: symbol in SortedSymbols(pairs) <==> symbol in Symbols(pairs)
  {
    hide Sort, DistinctSymbols, Symbols;
    DistinctSymbolsAre(pairs);
    SortMultiset(Before, DistinctSymbols(pairs));
    MembersOfMultiset(SortedSymbols(pairs), DistinctSymbols(pairs));
  }

  lemma WithinTolerances(row: Row, tracked: Tracked, filters: Filters)
    ensures Abs(Quantity(row) - Abs(tracked.quantity)) <= QtyTolerance(filters) <==>
            QuantitiesAgree(row, tracked, filters)
    ensures Abs(row.entry - tracked.entry) <= PriceTolerance(filters, tracked.entry) <==>
            EntriesAgree(row, tracked, filters)
  {
  }

  lemma ComparesEqual(symbol: string, tracked: Tracked, row: Row, filters: Filters)
    ensures ComparePair(symbol, tracked, LiveOf(row), filters) == [] <==> Agrees(row, tracked, filters)
  {
    hide Symbol, Upper, Quantity, QtyTolerance, PriceTolerance, QuantitiesAgree, EntriesAgree;
    WithinTolerances(row, tracked, filters);
  }

  /** With tracked positions allowed, there is no reason against a restart exactly when the
      exchange's positions and the tracked pairs are in bijection and agree. */
  lemma NoReasonsMeansReconciled(rows: seq<Row>, pairs: seq<string>, tracked: map<string, Tracked>,
                                 filters: FilterSource)
    ensures Reasons(rows, pairs, tracked, true, filters) == [] <==>
            Reconciled(Held(rows), Symbols(pairs), tracked, filters)
  {
    hide Symbol, ScanRows, Held, SortedSymbols, CheckSymbols, CheckSymbol, Symbols, LiveOf, Agrees, Lookup;
    var allowed, scan := Symbols(pairs), ScanRows(rows, Symbols(pairs));
    ScanMeans(rows, allowed);
    SortedSymbolsAre(pairs);
    CheckedAll(SortedSymbols(pairs), tracked, scan.live, true, filters);
    if OnePerPair(Held(rows), allowed) {
      forall symbol | symbol in allowed
        ensures
          CheckSymbol(symbol, Lookup(tracked, symbol), Lookup(scan.live, symbol), true, filters(symbol)) == [] <==>
                SymbolReconciled(symbol, Held(rows), tracked, filters(symbol))
      {
        OneSymbol(symbol, Held(rows), allowed, scan.live, tracked, filters(symbol));
      }
      BySymbol(Held(rows), allowed, tracked, filters);
    }
  }

  /** The part of `Reconciled` that concerns one symbol. */
  ghost predicate SymbolReconciled(symbol: string, held: multiset<Row>, tracked: map<string, Tracked>,
                                   filters: Filters) {
    && (symbol in tracked ==> exists row :: row in held && Symbol(row.symbol) == symbol)
    && (forall row :: row in held && Symbol(row.symbol) == symbol ==>
        symbol in tracked && Agrees(row, tracked[symbol], filters))
  }

  lemma BySymbol(held: multiset<Row>, allowed: set<string>, tracked: map<string, Tracked>, filters: FilterSource)
    requires OnePerPair(held, allowed)
    ensures Reconciled(held, allowed, tracked, filters) <==>
            forall symbol :: symbol in allowed ==> SymbolReconciled(symbol, held, tracked, filters(symbol))
  {
    hide *;
    if forall symbol :: symbol in allowed ==> SymbolReconciled(symbol, held, tracked, filters(symbol)) {
      AllSymbolsReconciled(held, allowed, tracked, filters);
    }
    if Reconciled(held, allowed, tracked, filters) {
      EachSymbolReconciled(held, allowed, tracked, filters);
    }
  }

  lemma EachSymbolReconciled(held: multiset<Row>, allowed: set<string>, tracked: map<string, Tracked>,
                             filters: FilterSource)
    requires Reconciled(held, allowed, tracked, filters)
    ensures forall symbol :: symbol in allowed ==> SymbolReconciled(symbol, held, tracked, filters(symbol))
  {
    hide Symbol, Agrees, OnePerPair;
  }

  lemma AllSymbolsReconciled(held: multiset<Row>, allowed: set<string>, tracked: map<string, Tracked>,
                             filters: FilterSource)
    requires OnePerPair(held, allowed)
    requires forall symbol :: symbol in allowed ==> SymbolReconciled(symbol, held, tracked, filters(symbol))
    ensures Reconciled(held, allowed, tracked, filters)
  {
    hide Symbol, Agrees;
    forall row | row in held
      ensures Symbol(row.symbol) in tracked && Agrees(row, tracked[Symbol(row.symbol)], filters(Symbol(row.symbol)))
    {
      assert SymbolReconciled(Symbol(row.symbol), held, tracked, filters(Symbol(row.symbol)));
    }
    forall symbol | symbol in allowed && symbol in tracked
      ensures exists row :: row in held && Symbol(row.symbol) == symbol {
      assert SymbolReconciled(symbol, held, tracked, filters(symbol));
    }
  }

  lemma OneSymbol(symbol: string, held: multiset<Row>, allowed: set<string>, live: map<string, Live>,
                  tracked: map<string, Tracked>, filters: Filters)
    requires OnePerPair(held, allowed) && Represents(live, held)
    ensures CheckSymbol(symbol, Lookup(tracked, symbol), Lookup(live, symbol), true, filters) == [] <==>
            SymbolReconciled(symbol, held, tracked, filters)
  {
    hide Symbol, LiveOf, Agrees, ComparePair;
    if symbol in live {
      var row :| row in held && Symbol(row.symbol) == symbol;
      assert live[symbol] == LiveOf(row);
      if symbol in tracked {
        ComparesEqual(symbol, tracked[symbol], row, filters);
      }
    }
  }

  /** With tracked positions disallowed, only an account without any position passes. */
  lemma NoReasonsMeansFlat(rows: seq<Row>, pairs: seq<string>, tracked: map<string, Tracked>, filters: FilterSource)
    ensures Reasons(rows, pairs, tracked, false, filters) == [] <==> Held(rows) == multiset{}
  {
    hide Symbol, ScanRows, Held, SortedSymbols, CheckSymbols, Symbols, LiveOf;
    var allowed, scan := Symbols(pairs), ScanRows(rows, Symbols(pairs));
    ScanMeans(rows, allowed);
    LiveIsHeld(rows, allowed);
    SortedSymbolsAre(pairs);
    CheckedAll(SortedSymbols(pairs), tracked, scan.live, false, filters);
    if scan.reasons == [] && Held(rows) != multiset{} {
      var row :| row in Held(rows);
      var symbol := Symbol(row.symbol);
      assert symbol in scan.live && symbol in SortedSymbols(pairs);
      assert CheckSymbol(symbol, Lookup(tracked, symbol), Lookup(scan.live, symbol), false, filters(symbol)) ==
        [OpenPosition(symbol)];
    }
  }

  // ----- What each reason means

  /** Some held position has this symbol. */
  ghost predicate HoldsSymbol(held: multiset<Row>, symbol: string) {
    exists row :: row in held && Symbol(row.symbol) == symbol
  }

  /** Some tracked position is one of this symbol, however its key is spelled. */
  ghost predicate TrackedUnder(tracked: map<string, Tracked>, symbol: string) {
    exists key :: key in tracked && Symbol(key) == symbol
  }

  /** The reason is true of the exchange's positions and the tracked ones. */
  ghost predicate Justified(reason: Reason, held: multiset<Row>, allowed: set<string>, tracked: map<string, Tracked>,
                            allow: bool, filters: FilterSource) {
    match reason
    case CannotVerify => false
    case VerificationFailed => false
    case UntrackedPosition(s, quantity) =>
      && (s == "" || s !in allowed)
      && exists row ::
           row in held && Symbol(row.symbol) == s
           && quantity == Abs(if row.quantity != 0.0 then row.quantity else row.contracts)
    case MultiplePositions(s) =>
      exists a, b :: a in held && b in held && Symbol(a.symbol) == s && Symbol(b.symbol) == s
        && (a == b ==> held[a] > 1)
    case OpenPosition(s) => !allow && HoldsSymbol(held, s)
    case MissingOnExchange(s) => allow && s in allowed && TrackedUnder(tracked, s) && (s == "" || !HoldsSymbol(held, s))
    case NotTracked(s) => allow && s in allowed && !TrackedUnder(tracked, s) && HoldsSymbol(held, s)
    case _ =>
      allow && reason.symbol in allowed && reason.symbol in tracked &&
      exists row :: row in held && Symbol(row.symbol) == reason.symbol
        && Differs(reason, row, tracked[reason.symbol], filters(reason.symbol))
  }

  /** The two descriptions of the position differ in what the reason names. */
  predicate Differs(reason: Reason, row: Row, tracked: Tracked, filters: Filters) {
    match reason
    case SideMismatch(_) => Upper(tracked.side) !in {"LONG", "SHORT"} || Upper(row.side) != Upper(tracked.side)
    case QuantityMismatch(_) => !QuantitiesAgree(row, tracked, filters)
    case EntryUnavailable(_) => row.entry <= 0.0 || tracked.entry <= 0.0
    case EntryMismatch(_) => row.entry > 0.0 && tracked.entry > 0.0 && !EntriesAgree(row, tracked, filters)
    case PositionIdMismatch(_) => row.positionId != "" && tracked.positionId != ""
      && row.positionId != tracked.positionId
    case _ => false
  }

  lemma {:induction false} ScanReasonsJustified(
    rows: seq<Row>, allowed: set<string>, tracked: map<string, Tracked>, allow: bool, filters: FilterSource)
    ensures forall reason :: reason in ScanRows(rows, allowed).reasons ==>
      (reason.UntrackedPosition? || reason.MultiplePositions?)
        && Justified(reason, Held(rows), allowed, tracked, allow, filters)
    decreases |rows|
  {
    hide Symbol, Quantity, LiveOf, ScanRows, Held, Differs;
    if rows == [] {
      ScanNothing(allowed);
    } else {
      var earlier, row := rows[..|rows| - 1], rows[|rows| - 1];
      ScanReasonsJustified(earlier, allowed, tracked, allow, filters);
      LiveIsHeld(earlier, allowed);
      ScanStep(rows, allowed);
      forall reason | reason in ScanRows(earlier, allowed).reasons
        ensures Justified(reason, Held(rows), allowed, tracked, allow, filters) {
        StaysJustified(reason, Held(earlier), Held(rows), allowed, tracked, allow, filters);
      }
      if Quantity(row) > 0.0 {
        NewReasonJustified(row, ScanRows(earlier, allowed), Held(earlier), allowed, tracked, allow, filters);
      }
    }
  }

  lemma StaysJustified(reason: Reason, held: multiset<Row>, more: multiset<Row>, allowed: set<string>,
                       tracked: map<string, Tracked>, allow: bool, filters: FilterSource)
    requires held <= more && (reason.UntrackedPosition? || reason.MultiplePositions?)
    requires Justified(reason, held, allowed, tracked, allow, filters)
    ensures Justified(reason, more, allowed, tracked, allow, filters)
  {
    hide Symbol, Quantity;
    if reason.UntrackedPosition? {
      var row :| row in held && Symbol(row.symbol) == reason.symbol
        && reason.quantity == Abs(if row.quantity != 0.0 then row.quantity else row.contracts);
      assert row in more;
    } else {
      var s := reason.symbol;
      var a, b :| a in held && b in held && Symbol(a.symbol) == s && Symbol(b.symbol) == s && (a == b ==> held[a] > 1);
      assert a in more && b in more && more[a] >= held[a];
    }
  }

  lemma NewReasonJustified(row: Row, scan: Scan, held: multiset<Row>, allowed: set<string>,
                           tracked: map<string, Tracked>, allow: bool, filters: FilterSource)
    requires Quantity(row) > 0.0
    requires forall symbol :: symbol in scan.live ==> exists other :: other in held && Symbol(other.symbol) == symbol
    ensures forall reason :: reason in ScanRow(scan, row, allowed).reasons ==>
      reason in scan.reasons ||
      ((reason.UntrackedPosition? || reason.MultiplePositions?)
       && Justified(reason, held + multiset{row}, allowed, tracked, allow, filters))
  {
    hide Symbol, LiveOf;
    var now, symbol := held + multiset{row}, Symbol(row.symbol);
    assert row in now;
    if symbol in scan.live && symbol != "" && symbol in allowed {
      var other :| other in held && Symbol(other.symbol) == symbol;
      assert other in now && (other == row ==> now[other] > 1);
      assert Justified(MultiplePositions(symbol), now, allowed, tracked, allow, filters);
    }
  }

  predicate NamesDifference(reason: Reason) {
    reason.SideMismatch? || reason.QuantityMismatch? || reason.EntryUnavailable? || reason.EntryMismatch?
      || reason.PositionIdMismatch?
  }

  lemma CompareJustified(symbol: string, tracked: Tracked, row: Row, filters: Filters)
    ensures forall reason :: reason in ComparePair(symbol, tracked, LiveOf(row), filters) <==>
      NamesDifference(reason) && reason.symbol == symbol && Differs(reason, row, tracked, filters)
  {
    hide CompareSides, CompareQuantities, CompareEntries, CompareIds, Differs, LiveOf;
    PartsJustified(symbol, tracked, row, filters);
    EntriesJustified(symbol, tracked, row, filters);
  }

  lemma PartsJustified(symbol: string, tracked: Tracked, row: Row, filters: Filters)
    ensures forall reason :: reason in CompareSides(symbol, tracked, LiveOf(row)) <==>
      reason.SideMismatch? && reason.symbol == symbol && Differs(reason, row, tracked, filters)
    ensures forall reason :: reason in CompareQuantities(symbol, tracked, LiveOf(row), filters) <==>
      reason.QuantityMismatch? && reason.symbol == symbol && Differs(reason, row, tracked, filters)
    ensures forall reason :: reason in CompareIds(symbol, tracked, LiveOf(row)) <==>
      reason.PositionIdMismatch? && reason.symbol == symbol && Differs(reason, row, tracked, filters)
  {
    hide Symbol, Upper, Quantity, QtyTolerance, PriceTolerance, Abs, QuantitiesAgree, EntriesAgree;
    WithinTolerances(row, tracked, filters);
  }

  lemma EntriesJustified(symbol: string, tracked: Tracked, row: Row, filters: Filters)
    ensures forall reason :: reason in CompareEntries(symbol, tracked, LiveOf(row), filters) <==>
      (reason.EntryUnavailable? || reason.EntryMismatch?) && reason.symbol == symbol
      && Differs(reason, row, tracked, filters)
  {
    hide Symbol, Upper, Quantity, QtyTolerance, PriceTolerance, Abs, QuantitiesAgree, EntriesAgree;
    WithinTolerances(row, tracked, filters);
  }

  /** The reasons of the second pass, and the symbol each of them names. */
  predicate FromSecondPass(reason: Reason) {
    reason.OpenPosition? || reason.MissingOnExchange? || reason.NotTracked? || NamesDifference(reason)
  }

  lemma NamesItsSymbol(symbol: string, tracked: Option<Tracked>, live: Option<Live>, allow: bool, filters: Filters)
    ensures forall reason :: reason in CheckSymbol(symbol, tracked, live, allow, filters) ==>
      FromSecondPass(reason) && reason.symbol == symbol
  {
    hide ComparePair;
    if tracked.Some? && live.Some? {
      ComparedReasons(symbol, tracked.value, live.value, filters);
    }
  }

  lemma ComparedReasons(symbol: string, tracked: Tracked, live: Live, filters: Filters)
    ensures forall reason :: reason in ComparePair(symbol, tracked, live, filters) ==>
            NamesDifference(reason) && reason.symbol == symbol
  {
    hide QtyTolerance, PriceTolerance, Upper, Abs;
  }

  lemma {:induction false} CheckedMember(
    symbols: seq<string>, tracked: map<string, Tracked>, live: map<string, Live>, allow: bool, filters: FilterSource,
    reason: Reason)
    requires FromSecondPass(reason)
    ensures reason in CheckSymbols(symbols, tracked, live, allow, filters) <==>
      reason.symbol in symbols &&
      reason in CheckSymbol(reason.symbol, Lookup(tracked, reason.symbol), Lookup(live, reason.symbol), allow,
                            filters(reason.symbol))
    decreases |symbols|
  {
    hide CheckSymbol, Lookup;
    if symbols != [] {
      var n := |symbols| - 1;
      CheckedMember(symbols[..n], tracked, live, allow, filters, reason);
      NamesItsSymbol(symbols[n], Lookup(tracked, symbols[n]), Lookup(live, symbols[n]), allow, filters(symbols[n]));
      assert symbols == symbols[..n] + [symbols[n]];
    }
  }

  lemma {:induction false} CheckedKinds(
    symbols: seq<string>, tracked: map<string, Tracked>, live: map<string, Live>, allow: bool, filters: FilterSource)
    ensures forall reason :: reason in CheckSymbols(symbols, tracked, live, allow, filters) ==> FromSecondPass(reason)
    decreases |symbols|
  {
    hide CheckSymbol, Lookup, FromSecondPass;
    if symbols != [] {
      var n := |symbols| - 1;
      CheckedKinds(symbols[..n], tracked, live, allow, filters);
      NamesItsSymbol(symbols[n], Lookup(tracked, symbols[n]), Lookup(live, symbols[n]), allow, filters(symbols[n]));
    }
  }

  lemma {:induction false} ScanKinds(rows: seq<Row>, allowed: set<string>)
    ensures forall reason :: reason in ScanRows(rows, allowed).reasons ==> !FromSecondPass(reason)
    decreases |rows|
  {
    hide Symbol, Quantity, LiveOf;
    if rows != [] {
      ScanKinds(rows[..|rows| - 1], allowed);
    }
  }

  /** A reason of the second pass is given exactly when the check of its own symbol gives
      it. */
  lemma SecondPassReason(rows: seq<Row>, pairs: seq<string>, tracked: map<string, Tracked>, allow: bool,
                         filters: FilterSource, reason: Reason)
    requires FromSecondPass(reason)
    ensures var live := ScanRows(rows, Symbols(pairs)).live;
      reason in Reasons(rows, pairs, tracked, allow, filters) <==>
      reason.symbol in Symbols(pairs) &&
      reason in CheckSymbol(reason.symbol, Lookup(tracked, reason.symbol), Lookup(live, reason.symbol), allow,
                            filters(reason.symbol))
  {
    hide FromSecondPass, ScanRows, Symbols, SortedSymbols, CheckSymbols, CheckSymbol, Lookup;
    ScanKinds(rows, Symbols(pairs));
    SortedSymbolsAre(pairs);
    CheckedMember(SortedSymbols(pairs), tracked, ScanRows(rows, Symbols(pairs)).live, allow, filters, reason);
  }

  /** The live map has an entry for exactly the held symbols of configured pairs. */
  lemma LiveKeys(rows: seq<Row>, allowed: set<string>, symbol: string)
    requires symbol in allowed
    ensures symbol in ScanRows(rows, allowed).live <==> symbol != "" && HoldsSymbol(Held(rows), symbol)
  {
    hide Symbol, ScanRows, Held, LiveOf;
    LiveIsHeld(rows, allowed);
  }

  /** Exactly when a difference is reported: for a configured, tracked symbol that one position
      on the exchange has, when the two descriptions differ in just that. */
  lemma DifferenceMeans(rows: seq<Row>, pairs: seq<string>, tracked: map<string, Tracked>, filters: FilterSource,
                        row: Row, reason: Reason)
    requires NamesDifference(reason) && reason.symbol == Symbol(row.symbol) != ""
    requires row in Held(rows) && forall o :: o in Held(rows) && Symbol(o.symbol) == Symbol(row.symbol) ==> o == row
    ensures reason in Reasons(rows, pairs, tracked, true, filters) <==>
      && reason.symbol in Symbols(pairs) && reason.symbol in tracked
      && Differs(reason, row, tracked[reason.symbol], filters(reason.symbol))
  {
    hide Symbol, ScanRows, Held, Symbols, Reasons, ComparePair, Differs, LiveOf;
    var s, live := reason.symbol, ScanRows(rows, Symbols(pairs)).live;
    SecondPassReason(rows, pairs, tracked, true, filters, reason);
    LiveIsHeld(rows, Symbols(pairs));
    if s in Symbols(pairs) && s in tracked {
      assert live[s] == LiveOf(row);
      CompareJustified(s, tracked[s], row, filters(s));
    }
  }

  /** What is listed as live for a symbol: one of its held positions, as the exchange reports
      it. */
  lemma LiveMeans(rows: seq<Row>, allowed: set<string>, s: string)
    ensures var live := ScanRows(rows, allowed).live;
      && (s in live <==> s != "" && s in allowed && HeldOf(rows, s) > 0)
      && (s in live ==> live[s].symbol == s)
      && (s in live ==>
            exists row ::
              row in Held(rows) && Symbol(row.symbol) == s
              && live[s].side == Upper(row.side) && live[s].entry == row.entry && live[s].positionId == row.positionId
              && live[s].quantity == Abs(if row.quantity != 0.0 then row.quantity else row.contracts))
  {
    hide Symbol, Upper, ScanRows, Held;
    ScanCounts(rows, allowed, s);
    LiveIsHeld(rows, allowed);
  }

  /** Exactly when an open position is reported, with tracked positions disallowed. */
  lemma OpenMeans(rows: seq<Row>, pairs: seq<string>, tracked: map<string, Tracked>, filters: FilterSource, s: string)
    ensures OpenPosition(s) in Reasons(rows, pairs, tracked, false, filters) <==>
      s in Symbols(pairs) && s != "" && HoldsSymbol(Held(rows), s)
  {
    hide Symbols, ScanRows, Held, HoldsSymbol, Reasons;
    SecondPassReason(rows, pairs, tracked, false, filters, OpenPosition(s));
    if s in Symbols(pairs) {
      LiveKeys(rows, Symbols(pairs), s);
    }
  }

  lemma FirstPassReason(rows: seq<Row>, pairs: seq<string>, tracked: map<string, Tracked>, allow: bool,
                        filters: FilterSource, reason: Reason)
    requires !FromSecondPass(reason)
    ensures reason in Reasons(rows, pairs, tracked, allow, filters) <==>
            reason in ScanRows(rows, Symbols(pairs)).reasons
  {
    hide FromSecondPass, ScanRows, Symbols, SortedSymbols, CheckSymbols;
    CheckedKinds(SortedSymbols(pairs), tracked, ScanRows(rows, Symbols(pairs)).live, allow, filters);
  }

  lemma {:induction false} ScanFinds(rows: seq<Row>, allowed: set<string>, s: string, quantity: real)
    ensures UntrackedPosition(s, quantity) in ScanRows(rows, allowed).reasons <==>
      && (s == "" || s !in allowed)
      && exists row ::
           row in Held(rows) && Symbol(row.symbol) == s
           && quantity == Abs(if row.quantity != 0.0 then row.quantity else row.contracts)
    decreases |rows|
  {
    hide Symbol, LiveOf, Held, ScanRows;
    if rows == [] {
      ScanNothing(allowed);
    } else {
      ScanFinds(rows[..|rows| - 1], allowed, s, quantity);
      ScanStep(rows, allowed);
      var earlier, last := Held(rows[..|rows| - 1]), rows[|rows| - 1];
      assert forall row :: row in Held(rows) <==> row in earlier || (row == last && Quantity(last) > 0.0);
    }
  }

  /** Exactly when a position on no configured pair is reported, and with which quantity. */
  lemma UntrackedMeans(rows: seq<Row>, pairs: seq<string>, tracked: map<string, Tracked>, allow: bool,
                       filters: FilterSource, s: string, quantity: real)
    ensures UntrackedPosition(s, quantity) in Reasons(rows, pairs, tracked, allow, filters) <==>
      && (s == "" || s !in Symbols(pairs))
      && exists row ::
           row in Held(rows) && Symbol(row.symbol) == s
           && quantity == Abs(if row.quantity != 0.0 then row.quantity else row.contracts)
  {
    hide *;
    ScanFinds(rows, Symbols(pairs), s, quantity);
    NotSecond(UntrackedPosition(s, quantity));
    FirstPassReason(rows, pairs, tracked, allow, filters, UntrackedPosition(s, quantity));
  }

  lemma NotSecond(reason: Reason)
    ensures reason.UntrackedPosition? || reason.MultiplePositions? ==> !FromSecondPass(reason)
  {
  }

  /** How many held positions have the symbol. */
  function HeldOf(rows: seq<Row>, s: string): nat
    decreases |rows|
  {
    if rows == [] then 0
    else
      var row := rows[|rows| - 1];
      HeldOf(rows[..|rows| - 1], s) +
      if (row.quantity != 0.0 || row.contracts != 0.0) && Symbol(row.symbol) == s then 1 else 0
  }

  lemma {:induction false} ScanCounts(rows: seq<Row>, allowed: set<string>, s: string)
    ensures MultiplePositions(s) in ScanRows(rows, allowed).reasons <==> s != "" && s in allowed && HeldOf(rows, s) > 1
    ensures s in ScanRows(rows, allowed).live <==> s != "" && s in allowed && HeldOf(rows, s) > 0
    decreases |rows|
  {
    hide Symbol, LiveOf;
    if rows != [] {
      PositiveQuantity(rows[|rows| - 1]);
      ScanCounts(rows[..|rows| - 1], allowed, s);
    }
  }

  /** Exactly when a configured pair is reported to have several positions. */
  lemma MultipleMeans(rows: seq<Row>, pairs: seq<string>, tracked: map<string, Tracked>, allow: bool,
                      filters: FilterSource, s: string)
    ensures MultiplePositions(s) in Reasons(rows, pairs, tracked, allow, filters) <==>
      s != "" && s in Symbols(pairs) && HeldOf(rows, s) > 1
  {
    hide *;
    ScanCounts(rows, Symbols(pairs), s);
    NotSecond(MultiplePositions(s));
    FirstPassReason(rows, pairs, tracked, allow, filters, MultiplePositions(s));
  }

  /** Exactly when a position is reported missing on the exchange. */
  lemma MissingMeans(rows: seq<Row>, pairs: seq<string>, tracked: map<string, Tracked>, filters: FilterSource,
                     s: string)
    ensures MissingOnExchange(s) in Reasons(rows, pairs, tracked, true, filters) <==>
      s in Symbols(pairs) && s in tracked && (s == "" || !HoldsSymbol(Held(rows), s))
  {
    hide Symbols, ScanRows, Held, HoldsSymbol, Reasons, ComparePair;
    SecondPassReason(rows, pairs, tracked, true, filters, MissingOnExchange(s));
    if s in Symbols(pairs) {
      LiveKeys(rows, Symbols(pairs), s);
      if s in tracked && s in ScanRows(rows, Symbols(pairs)).live {
        ComparedReasons(s, tracked[s], ScanRows(rows, Symbols(pairs)).live[s], filters(s));
      }
    }
  }

  /** Exactly when a position is reported as not tracked. */
  lemma NotTrackedMeans(rows: seq<Row>, pairs: seq<string>, tracked: map<string, Tracked>, filters: FilterSource,
                        s: string)
    ensures NotTracked(s) in Reasons(rows, pairs, tracked, true, filters) <==>
      s in Symbols(pairs) && s !in tracked && s != "" && HoldsSymbol(Held(rows), s)
  {
    hide Symbols, ScanRows, Held, HoldsSymbol, Reasons, ComparePair;
    SecondPassReason(rows, pairs, tracked, true, filters, NotTracked(s));
    if s in Symbols(pairs) {
      LiveKeys(rows, Symbols(pairs), s);
      if s in tracked && s in ScanRows(rows, Symbols(pairs)).live {
        ComparedReasons(s, tracked[s], ScanRows(rows, Symbols(pairs)).live[s], filters(s));
      }
    }
  }

  /** A false alarm: the position is called untracked, and it is tracked under another
      spelling of its symbol. */
  ghost predicate FalseAlarm(reason: Reason, tracked: map<string, Tracked>) {
    reason.NotTracked? && TrackedUnder(tracked, reason.symbol)
  }

  lemma SymbolReasonJustified(
    rows: seq<Row>, allowed: set<string>, tracked: map<string, Tracked>, allow: bool, filters: FilterSource,
    reason: Reason)
    requires FromSecondPass(reason) && reason.symbol in allowed && Symbol(reason.symbol) == reason.symbol
    requires reason in CheckSymbol(reason.symbol, Lookup(tracked, reason.symbol),
                                   Lookup(ScanRows(rows, allowed).live, reason.symbol), allow, filters(reason.symbol))
    ensures Justified(reason, Held(rows), allowed, tracked, allow, filters) <==> !FalseAlarm(reason, tracked)
  {
    hide Symbol, LiveOf, ComparePair, Differs, ScanRows, Held;
    var symbol, live := reason.symbol, ScanRows(rows, allowed).live;
    LiveIsHeld(rows, allowed);
    assert symbol in tracked ==> TrackedUnder(tracked, symbol);
    if symbol in live {
      var row :| row in Held(rows) && Symbol(row.symbol) == symbol && live[symbol] == LiveOf(row);
      if symbol in tracked {
        CompareJustified(symbol, tracked[symbol], row, filters(symbol));
      }
    }
  }

  /** Every reason that is given is true, except the false alarms: a position called
      untracked that is tracked under another spelling. */
  lemma ReasonsAreTrue(rows: seq<Row>, pairs: seq<string>, tracked: map<string, Tracked>, allow: bool,
                       filters: FilterSource, reason: Reason)
    requires reason in Reasons(rows, pairs, tracked, allow, filters)
    ensures Justified(reason, Held(rows), Symbols(pairs), tracked, allow, filters) <==> !FalseAlarm(reason, tracked)
  {
    hide *;
    var allowed := Symbols(pairs);
    ScanReasonsJustified(rows, allowed, tracked, allow, filters);
    ReasonIsFromAPass(rows, pairs, tracked, allow, filters, reason);
    if FromSecondPass(reason) {
      HasSymbol(reason);
      SecondPassReason(rows, pairs, tracked, allow, filters, reason);
      NormalSymbols(pairs, reason.symbol);
      SymbolReasonJustified(rows, allowed, tracked, allow, filters, reason);
    } else {
      OnlyNotTrackedIsFalse(reason, tracked);
    }
  }

  lemma HasSymbol(reason: Reason)
    requires FromSecondPass(reason)
    ensures !reason.CannotVerify? && !reason.VerificationFailed?
  {
  }

  lemma OnlyNotTrackedIsFalse(reason: Reason, tracked: map<string, Tracked>)
    requires !FromSecondPass(reason)
    ensures !FalseAlarm(reason, tracked)
  {
  }

  lemma ReasonIsFromAPass(rows: seq<Row>, pairs: seq<string>, tracked: map<string, Tracked>, allow: bool,
                          filters: FilterSource, reason: Reason)
    requires reason in Reasons(rows, pairs, tracked, allow, filters)
    ensures FromSecondPass(reason) || reason in ScanRows(rows, Symbols(pairs)).reasons
  {
    hide ScanRows, Symbols, SortedSymbols, CheckSymbols, FromSecondPass;
    CheckedKinds(SortedSymbols(pairs), tracked, ScanRows(rows, Symbols(pairs)).live, allow, filters);
  }

  lemma NormalSymbols(pairs: seq<string>, symbol: string)
    ensures symbol in Symbols(pairs) ==> Symbol(symbol) == symbol
  {
    hide Symbol;
    if symbol in Symbols(pairs) {
      var p :| p in pairs && Symbol(p) == symbol;
      SymbolIdempotent(p);
    }
  }

  // ----- Order

  lemma {:induction false} HeldCounts(rows: seq<Row>, row: Row)
    ensures Held(rows)[row] == if row.quantity != 0.0 || row.contracts != 0.0 then multiset(rows)[row] else 0
    decreases |rows|
  {
    if rows != [] {
      var n := |rows| - 1;
      HeldCounts(rows[..n], row);
      assert rows == rows[..n] + [rows[n]];
    }
  }

  lemma HeldIsUnordered(a: seq<Row>, b: seq<Row>)
    requires multiset(a) == multiset(b)
    ensures Held(a) == Held(b)
  {
    hide Held, Quantity;
    forall row ensures Held(a)[row] == Held(b)[row] {
      HeldCounts(a, row);
      HeldCounts(b, row);
    }
  }

  /** The order in which the exchange lists its positions never changes the verdict. */
  lemma OrderIsIrrelevant(a: seq<Row>, b: seq<Row>, pairs: seq<string>, tracked: map<string, Tracked>, allow: bool,
                          filters: FilterSource)
    requires multiset(a) == multiset(b)
    ensures Reasons(a, pairs, tracked, allow, filters) == [] <==> Reasons(b, pairs, tracked, allow, filters) == []
  {
    hide *;
    HeldIsUnordered(a, b);
    if allow {
      NoReasonsMeansReconciled(a, pairs, tracked, filters);
      NoReasonsMeansReconciled(b, pairs, tracked, filters);
    } else {
      NoReasonsMeansFlat(a, pairs, tracked, filters);
      NoReasonsMeansFlat(b, pairs, tracked, filters);
    }
  }

  // ----- Keys

  lemma {:induction false} SymbolIsClean(s: string)
    ensures forall c :: c in DropSeparators(Upper(s)) ==> !Separator(c) && UpperChar(c) == c
    ensures (forall c :: c in s ==> c != ':') ==> forall c :: c in DropSeparators(Upper(s)) ==> c != ':'
    decreases |s|
  {
    if s != "" {
      SymbolIsClean(s[1..]);
      assert s[0] in s && Upper(s)[1..] == Upper(s[1..]) && Upper(s)[0] == UpperChar(s[0]);
      assert forall c :: c in s[1..] ==> c in s;
    }
  }

  lemma {:induction false} NoColonLeft(s: string)
    ensures forall c :: c in UpToColon(s) ==> c != ':'
    decreases |s|
  {
    if s != "" && s[0] != ':' {
      NoColonLeft(s[1..]);
    }
  }

  lemma {:induction false} CleanIsFixed(s: string)
    requires forall c :: c in s ==> !Separator(c) && c != ':' && UpperChar(c) == c
    ensures UpToColon(s) == s && Upper(s) == s && DropSeparators(s) == s
    decreases |s|
  {
    if s != "" {
      assert s[0] in s && forall c :: c in s[1..] ==> c in s;
      CleanIsFixed(s[1..]);
      assert s == [s[0]] + s[1..];
    }
  }

  /** What normalising keeps: everything in front of a colon, without slashes, underscores and
      dashes, in upper case. */
  lemma SymbolParts(b: string, c: char)
    ensures Symbol("") == "" && Symbol([':'] + b) == ""
    ensures var kept := if c == '/' || c == '_' || c == '-' then ""
                        else if 'a' <= c <= 'z' then [(c as int - 'a' as int + 'A' as int) as char]
                        else [c];
            c != ':' ==> Symbol([c] + b) == kept + Symbol(b)
  {
    assert ([':'] + b)[0] == ':' && ([c] + b)[1..] == b && UpToColon([':'] + b) == "";
    assert c != ':' ==> UpToColon([c] + b) == [c] + UpToColon(b);
    assert Upper([c] + UpToColon(b)) == [UpperChar(c)] + Upper(UpToColon(b)) by {
      assert ([c] + UpToColon(b))[1..] == UpToColon(b);
    }
    var u, rest := UpperChar(c), Upper(UpToColon(b));
    assert ([u] + rest)[1..] == rest;
    assert DropSeparators([u] + rest) == (if Separator(u) then "" else [u]) + DropSeparators(rest);
  }

  /** A normalised symbol is normalised again to itself. */
  lemma SymbolIdempotent(raw: string)
    ensures Symbol(Symbol(raw)) == Symbol(raw)
  {
    hide UpToColon, Upper, DropSeparators, UpperChar;
    NoColonLeft(raw);
    SymbolIsClean(UpToColon(raw));
    CleanIsFixed(Symbol(raw));
  }

  lemma {:induction false} SameLookups(symbols: seq<string>, a: map<string, Tracked>, b: map<string, Tracked>,
                                       live: map<string, Live>, allow: bool, filters: FilterSource)
    requires forall symbol :: symbol in symbols ==> Lookup(a, symbol) == Lookup(b, symbol)
    ensures CheckSymbols(symbols, a, live, allow, filters) == CheckSymbols(symbols, b, live, allow, filters)
    decreases |symbols|
  {
    if symbols != [] {
      SameLookups(symbols[..|symbols| - 1], a, b, live, allow, filters);
    }
  }

  /** Tracked positions are looked up by normalised symbol only: whatever is filed under
      another key, or under a symbol that is not configured, changes nothing. */
  lemma OtherKeysAreIgnored(rows: seq<Row>, pairs: seq<string>, tracked: map<string, Tracked>, allow: bool,
                            filters: FilterSource)
    ensures var seen := map symbol | symbol in tracked && symbol in Symbols(pairs) :: tracked[symbol];
      Reasons(rows, pairs, tracked, allow, filters) == Reasons(rows, pairs, seen, allow, filters)
  {
    hide CheckSymbols, Symbols, SortedSymbols, ScanRows;
    var seen := map symbol | symbol in tracked && symbol in Symbols(pairs) :: tracked[symbol];
    SortedSymbolsAre(pairs);
    SameLookups(SortedSymbols(pairs), tracked, seen, ScanRows(rows, Symbols(pairs)).live, allow, filters);
  }

  /** The reason is about this symbol. */
  predicate Names(reason: Reason, symbol: string) {
    !reason.CannotVerify? && !reason.VerificationFailed? && reason.symbol == symbol
  }

  /** So a tracked position of a configured pair that the exchange no longer holds is
      reported exactly when its normal form is a key of the tracked positions; otherwise no
      reason names that symbol at all. */
  lemma MissedPosition(rows: seq<Row>, pairs: seq<string>, tracked: map<string, Tracked>, filters: FilterSource,
                       pair: string)
    requires pair in pairs && pair in tracked
    requires Symbol(pair) == "" || !HoldsSymbol(Held(rows), Symbol(pair))
    ensures MissingOnExchange(Symbol(pair)) in Reasons(rows, pairs, tracked, true, filters) <==> Symbol(pair) in tracked
    ensures Symbol(pair) !in tracked && Symbol(pair) != "" ==>
      forall reason :: reason in Reasons(rows, pairs, tracked, true, filters) ==> !Names(reason, Symbol(pair))
  {
    hide Symbol, Held, ScanRows, HoldsSymbol, Reasons, Names;
    var s := Symbol(pair);
    MissingMeans(rows, pairs, tracked, filters, s);
    if s !in tracked && s != "" {
      forall reason | reason in Reasons(rows, pairs, tracked, true, filters) ensures !Names(reason, s) {
        NothingNamed(rows, pairs, tracked, filters, reason, s);
      }
    }
  }

  lemma NothingNamed(rows: seq<Row>, pairs: seq<string>, tracked: map<string, Tracked>, filters: FilterSource,
                     reason: Reason, s: string)
    requires s in Symbols(pairs) && s !in tracked && s != "" && !HoldsSymbol(Held(rows), s)
    requires reason in Reasons(rows, pairs, tracked, true, filters)
    ensures !Names(reason, s)
  {
    hide Symbol, Symbols, Held, ScanRows, Reasons, CheckSymbol, FromSecondPass;
    LiveKeys(rows, Symbols(pairs), s);
    NothingToCheck(s, filters(s));
    ScanReasonsJustified(rows, Symbols(pairs), tracked, true, filters);
    ReasonIsFromAPass(rows, pairs, tracked, true, filters, reason);
    if FromSecondPass(reason) {
      HasSymbol(reason);
      SecondPassReason(rows, pairs, tracked, true, filters, reason);
    }
  }

  lemma NothingToCheck(symbol: string, filters: Filters)
    ensures CheckSymbol(symbol, None, None, true, filters) == []
  {
  }

  /** And one that the exchange does hold is called untracked in that same case. */
  lemma TrackedButCalledUntracked(rows: seq<Row>, pairs: seq<string>, tracked: map<string, Tracked>,
                                  filters: FilterSource, pair: string)
    requires pair in pairs && pair in tracked
    requires Symbol(pair) != "" && HoldsSymbol(Held(rows), Symbol(pair))
    ensures var reason := NotTracked(Symbol(pair));
      && (reason in Reasons(rows, pairs, tracked, true, filters) <==> Symbol(pair) !in tracked)
      && FalseAlarm(reason, tracked)
  {
    hide Symbol, Held, HoldsSymbol, Reasons;
    NotTrackedMeans(rows, pairs, tracked, filters, Symbol(pair));
  }

  // ----- Which spellings are normal

  predicate NormalChar(c: char) { !Separator(c) && c != ':' && UpperChar(c) == c }

  /** A spelling is its own normal form exactly when it has no lower case, no separator and
      no colon. */
  lemma NormalSpelling(s: string)
    ensures Symbol(s) == s <==> forall c :: c in s ==> NormalChar(c)
  {
    hide UpToColon, Upper, DropSeparators, UpperChar, Separator;
    if Symbol(s) == s {
      NoColonLeft(s);
      SymbolIsClean(UpToColon(s));
    } else if forall c :: c in s ==> NormalChar(c) {
      CleanIsFixed(s);
    }
  }

  function DropUnderscores(s: string): string
    decreases |s|
  {
    if s == "" then "" else (if s[0] == '_' then "" else [s[0]]) + DropUnderscores(s[1..])
  }

  predicate IsBlank(c: char) { c == ' ' || '\t' <= c <= '\r' }

  function Strip(s: string): string
    decreases |s|
  {
    if s == "" then ""
    else if IsBlank(s[0]) then Strip(s[1..])
    else if IsBlank(s[|s| - 1]) then Strip(s[..|s| - 1])
    else s
  }

  /** The spelling under which the registry files a pair: upper case, without underscores,
      ending in the quote asset. */
  function RegistrySpelling(raw: string, quote: string): string {
    var s := Strip(DropUnderscores(Upper(raw)));
    if s == "" then "" else if |quote| <= |s| && s[|s| - |quote|..] == quote then s else s + quote
  }

  lemma {:induction false} DropUnderscoresClean(s: string)
    ensures forall c :: c in DropUnderscores(Upper(s)) ==> c != '_' && UpperChar(c) == c
    decreases |s|
  {
    if s != "" {
      DropUnderscoresClean(s[1..]);
      assert Upper(s)[1..] == Upper(s[1..]) && Upper(s)[0] == UpperChar(s[0]);
    }
  }

  lemma {:induction false} StripKeeps(s: string)
    ensures forall c :: c in Strip(s) ==> c in s
    decreases |s|
  {
    if s != "" {
      if IsBlank(s[0]) {
        StripKeeps(s[1..]);
      } else if IsBlank(s[|s| - 1]) {
        StripKeeps(s[..|s| - 1]);
      }
    }
  }

  /** Spaces, tabs and line ends. */
  predicate AllBlank(s: string) { forall c :: c in s ==> c == ' ' || 9 <= c as int <= 13 }

  /** Stripping takes away the white space at both ends and nothing else. */
  lemma {:induction false} StripMeans(s: string) returns (front: string, back: string)
    ensures s == front + Strip(s) + back && AllBlank(front) && AllBlank(back)
    ensures Strip(s) != "" ==> !IsBlank(Strip(s)[0]) && !IsBlank(Strip(s)[|Strip(s)| - 1])
    decreases |s|
  {
    hide AllBlank, IsBlank;
    front, back := "", "";
    NothingBlank();
    var n := |s| - 1;
    if s != "" && IsBlank(s[0]) {
      front, back := StripMeans(s[1..]);
      BlankMore(front, s[0]);
      Glue([s[0]], front, Strip(s[1..]), back, "");
      front := [s[0]] + front;
      assert s == [s[0]] + s[1..] + "" && back + "" == back;
    } else if s != "" && IsBlank(s[n]) {
      front, back := StripMeans(s[..n]);
      BlankMore(back, s[n]);
      Glue("", front, Strip(s[..n]), back, [s[n]]);
      back := back + [s[n]];
      assert s == "" + s[..n] + [s[n]] && "" + front == front;
    } else {
      assert s == "" + s + "";
    }
  }

  lemma NothingBlank()
    ensures AllBlank("")
  {
  }

  lemma BlankMore(s: string, c: char)
    requires AllBlank(s) && IsBlank(c)
    ensures AllBlank([c] + s) && AllBlank(s + [c])
  {
  }

  lemma Glue(first: string, front: string, middle: string, back: string, last: string)
    ensures first + (front + middle + back) + last == (first + front) + middle + (back + last)
  {
  }

  /** Of the spellings the registry uses, those with a slash, a dash or a colon are the
      ones under which a tracked position is not found. */
  lemma RegistrySpellingIsNormal(raw: string, quote: string)
    requires forall c :: c in quote ==> NormalChar(c)
    ensures var s := RegistrySpelling(raw, quote);
            Symbol(s) == s <==> forall c :: c in s ==> c != '/' && c != '-' && c != ':'
  {
    hide Symbol, Strip, DropUnderscores, Upper, UpperChar;
    var s := RegistrySpelling(raw, quote);
    DropUnderscoresClean(raw);
    StripKeeps(DropUnderscores(Upper(raw)));
    NormalSpelling(s);
    forall c | c in s ensures c != '_' && UpperChar(c) == c {
      assert c in Strip(DropUnderscores(Upper(raw))) || c in quote;
      assert c in quote ==> NormalChar(c);
    }
  }

  /** Such a pair: with a slash in its spelling the tracked position is missed when the
      exchange has none, and called untracked when the exchange has it. */
  lemma SlashedPair(position: Tracked, filters: FilterSource)
    ensures RegistrySpelling("btc/usdt", "USDT") == "BTC/USDT" && Symbol("BTC/USDT") == "BTCUSDT"
    ensures var pairs, tracked := ["BTC/USDT"], map["BTC/USDT" := position];
      var row := Row("BTC-USDT", 1.0, 0.0, "long", 1.0, "");
      && Reasons([], pairs, tracked, true, filters) == []
      && NotTracked("BTCUSDT") in Reasons([row], pairs, tracked, true, filters)
  {
    SlashedSpellings();
    hide Symbol, RegistrySpelling, Quantity;
    var pairs, tracked := ["BTC/USDT"], map["BTC/USDT" := position];
    var row := Row("BTC-USDT", 1.0, 0.0, "long", 1.0, "");
    var none: seq<Row> := [];
    assert Symbols(pairs) == {"BTCUSDT"};
    assert Held(none) == multiset{};
    assert "BTCUSDT" != "BTC/USDT" by { assert |"BTCUSDT"| == 7 && |"BTC/USDT"| == 8; }
    NoReasonsMeansReconciled(none, pairs, tracked, filters);
    HeldOne(row);
    assert HoldsSymbol(Held([row]), "BTCUSDT");
    NotTrackedMeans([row], pairs, tracked, filters, "BTCUSDT");
  }

  lemma HeldOne(row: Row)
    requires row.quantity > 0.0
    ensures Held([row]) == multiset{row}
  {
    assert [row][..0] == [];
  }

  lemma {:induction false} UpperAt(s: string)
    ensures |Upper(s)| == |s| && forall i :: 0 <= i < |s| ==> Upper(s)[i] == UpperChar(s[i])
    decreases |s|
  {
    if s != "" {
      UpperAt(s[1..]);
    }
  }

  lemma {:induction false} NothingToDrop(s: string)
    requires forall c :: c in s ==> c != '_'
    ensures DropUnderscores(s) == s
    decreases |s|
  {
    if s != "" {
      assert s[0] in s && forall c :: c in s[1..] ==> c in s;
      NothingToDrop(s[1..]);
      assert s == [s[0]] + s[1..];
    }
  }

  lemma {:induction false} WholeUpToColon(s: string)
    requires forall c :: c in s ==> c != ':'
    ensures UpToColon(s) == s
    decreases |s|
  {
    if s != "" {
      assert s[0] in s && forall c :: c in s[1..] ==> c in s;
      WholeUpToColon(s[1..]);
      assert s == [s[0]] + s[1..];
    }
  }

  /** A base and a quote asset joined by a separator. */
  lemma {:induction false} JoinedSymbol(base: string, c: char, quote: string)
    requires Separator(c) && forall d :: d in base + quote ==> NormalChar(d)
    ensures DropSeparators(base + [c] + quote) == base + quote
    decreases |base|
  {
    var whole := base + [c] + quote;
    if base == "" {
      assert base + quote == quote && whole[1..] == quote;
      CleanIsFixed(quote);
    } else {
      assert base[0] in base + quote && forall d :: d in base[1..] + quote ==> d in base + quote;
      JoinedSymbol(base[1..], c, quote);
      assert whole[0] == base[0] && whole[1..] == base[1..] + [c] + quote;
      assert base + quote == [base[0]] + (base[1..] + quote);
    }
  }

  lemma JoinedIsNotNormal(base: string, c: char, quote: string)
    requires Separator(c) && forall d :: d in base + quote ==> NormalChar(d)
    requires c == '/' || c == '-'
    ensures Symbol(base + [c] + quote) == base + quote
  {
    var whole := base + [c] + quote;
    forall d | d in whole ensures d != ':' && UpperChar(d) == d {
      assert d == c || d in base + quote;
    }
    WholeUpToColon(whole);
    UpperAt(whole);
    assert Upper(whole) == whole;
    JoinedSymbol(base, c, quote);
  }

  lemma AlreadyComplete(raw: string, s: string, quote: string)
    requires Upper(raw) == s && forall c :: c in s ==> c != '_'
    requires s != "" && !IsBlank(s[0]) && !IsBlank(s[|s| - 1])
    requires |quote| <= |s| && s[|s| - |quote|..] == quote
    ensures RegistrySpelling(raw, quote) == s
  {
    hide Upper, DropUnderscores, UpperChar, IsBlank;
    NothingToDrop(s);
  }

  lemma RegistryKeepsSlash()
    ensures RegistrySpelling("btc/usdt", "USDT") == "BTC/USDT"
  {
    hide *;
    var raw, s := "btc/usdt", "BTC/USDT";
    UpperAt(raw);
    Uppercased(raw, s);
    Blanks(s);
    assert s[4..] == "USDT";
    AlreadyComplete(raw, s, "USDT");
  }

  lemma Uppercased(raw: string, s: string)
    requires raw == "btc/usdt" && s == "BTC/USDT"
    ensures |raw| == |s| && forall i :: 0 <= i < |s| ==> UpperChar(raw[i]) == s[i]
  {
  }

  lemma Blanks(s: string)
    requires s == "BTC/USDT"
    ensures s != "" && !IsBlank(s[0]) && !IsBlank(s[|s| - 1])
  {
  }

  lemma SlashedSpellings()
    ensures RegistrySpelling("btc/usdt", "USDT") == "BTC/USDT"
    ensures Symbol("BTC/USDT") == "BTCUSDT" && Symbol("BTC-USDT") == "BTCUSDT"
  {
    hide Symbol, RegistrySpelling;
    RegistryKeepsSlash();
    var base, quote := "BTC", "USDT";
    assert base + quote == "BTCUSDT" && base + ['/'] + quote == "BTC/USDT" && base + ['-'] + quote == "BTC-USDT";
    JoinedIsNotNormal(base, '/', quote);
    JoinedIsNotNormal(base, '-', quote);
  }
}
