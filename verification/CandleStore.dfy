/** The candle tables the shadow worker reads, and the bounded snapshot of them that the
    control plane publishes for it. */
module CandleStore {
  import opened Json

  /** Candles opened after the last evaluated one that a single run may take. */
  const MAX_CATCH_UP_CANDLES: nat := 64

  /** What a column of a row holds. */
  datatype Cell = Missing | Whole(n: int) | Real(t: FloatText) | Text(s: string)

  datatype Candle = Candle(timestamp: int, open: Cell, high: Cell, low: Cell, close: Cell, volume: Cell)

  ghost predicate Ordered(rows: seq<Candle>) {
    forall i, j :: 0 <= i < j < |rows| ==> rows[i].timestamp < rows[j].timestamp
  }

  /** The rows of one symbol and timeframe; the primary key makes timestamps distinct,
      so the table is written in timestamp order. */
  type Table = rows: seq<Candle> | Ordered(rows) witness []

  /** How many rows open at or before `t`: since the table is ordered, a query
      `timestamp<=t` selects that prefix. */
  function Through(table: seq<Candle>, t: int): (n: nat)
    ensures n <= |table|
    ensures forall i :: 0 <= i < n ==> table[i].timestamp <= t
    ensures n < |table| ==> table[n].timestamp > t
  {
    ThroughFrom(table, t, 0)
  }

  function ThroughFrom(table: seq<Candle>, t: int, start: nat): (n: nat)
    requires start <= |table|
    ensures start <= n <= |table|
    ensures forall i :: start <= i < n ==> table[i].timestamp <= t
    ensures n < |table| ==> table[n].timestamp > t
    decreases |table| - start
  {
    if start < |table| && table[start].timestamp <= t then ThroughFrom(table, t, start + 1) else start
  }

  /** `ORDER BY timestamp DESC LIMIT limit`, put back in ascending order. */
  function Newest(rows: seq<Candle>, limit: nat): seq<Candle> {
    if |rows| <= limit then rows else rows[|rows| - limit..]
  }

  function History(table: Table, latestOpen: int, limit: nat): seq<Candle> {
    Newest(table[..Through(table, latestOpen)], limit)
  }

  function RegimeHistory(table: Table, regimeSeconds: int, decisionClose: int, limit: nat): seq<Candle> {
    History(table, decisionClose - regimeSeconds, limit)
  }

  predicate IsClosed(c: Candle, seconds: int, now: real) { (c.timestamp + seconds) as real <= now }

  function Times(rows: seq<Candle>): (ts: seq<int>)
    ensures |ts| == |rows|
    ensures forall i :: 0 <= i < |rows| ==> ts[i] == rows[i].timestamp
  {
    seq(|rows|, i requires 0 <= i < |rows| => rows[i].timestamp)
  }

  /** The opening times of the rows that have closed, in order. */
  function ClosedTimes(rows: seq<Candle>, seconds: int, now: real): seq<int> {
    if rows == [] then []
    else (if IsClosed(rows[0], seconds, now) then [rows[0].timestamp] else [])
         + ClosedTimes(rows[1..], seconds, now)
  }

  /** The newest closed row among `rows`, as a list of at most one opening time. */
  function LatestClosed(rows: seq<Candle>, seconds: int, now: real): seq<int> {
    if rows == [] then []
    else
      var row := rows[|rows| - 1];
      if IsClosed(row, seconds, now) then [row.timestamp] else LatestClosed(rows[..|rows| - 1], seconds, now)
  }

  function PendingTimestamps(table: Table, seconds: int, last: int, now: real): seq<int> {
    if last <= 0 then LatestClosed(Newest(table, 4), seconds, now)
    else
      var rows := table[Through(table, last)..];
      ClosedTimes(if |rows| <= MAX_CATCH_UP_CANDLES then rows else rows[..MAX_CATCH_UP_CANDLES], seconds, now)
  }

  // ----- Pending candles are a contiguous segment of the table

  lemma ThroughUnique(table: Table, t: int, n: nat)
    requires n <= |table|
    requires n > 0 ==> table[n - 1].timestamp <= t
    requires n < |table| ==> table[n].timestamp > t
    ensures Through(table, t) == n
  {
    assert forall i, j :: 0 <= i <= j < |table| ==> table[i].timestamp <= table[j].timestamp;
  }

  lemma {:induction false} ClosedTimesArePrefix(rows: seq<Candle>, seconds: int, now: real) returns (k: nat)
    requires Ordered(rows)
    ensures k <= |rows| && ClosedTimes(rows, seconds, now) == Times(rows[..k])
    ensures forall i :: 0 <= i < k ==> IsClosed(rows[i], seconds, now)
    ensures forall i :: k <= i < |rows| ==> !IsClosed(rows[i], seconds, now)
  {
    if rows == [] {
      k := 0;
    } else {
      var k' := ClosedTimesArePrefix(rows[1..], seconds, now);
      if IsClosed(rows[0], seconds, now) {
        k := k' + 1;
        assert rows[..k] == [rows[0]] + rows[1..][..k'];
      } else {
        k := 0;
        forall i | 0 <= i < |rows| ensures !IsClosed(rows[i], seconds, now) {
          assert rows[0].timestamp <= rows[i].timestamp;
        }
        assert k' == 0 by {
          if |rows| > 1 {
            assert !IsClosed(rows[1..][0], seconds, now);
          }
        }
      }
    }
  }

  lemma ClosedSegment(table: Table, n: nat, m: nat, seconds: int, now: real) returns (k: nat)
    requires n <= m <= |table|
    ensures n + k <= m && ClosedTimes(table[n..m], seconds, now) == Times(table[n..n + k])
    ensures forall i :: n <= i < n + k ==> IsClosed(table[i], seconds, now)
    ensures n + k < m ==> !IsClosed(table[n + k], seconds, now)
  {
    var rows := table[n..m];
    k := ClosedTimesArePrefix(rows, seconds, now);
    assert rows[..k] == table[n..n + k];
    forall i | n <= i < n + k ensures IsClosed(table[i], seconds, now) {
      assert table[i] == rows[i - n];
    }
  }

  /** After a candle has been evaluated, a run takes the next rows without a gap: a
      closed segment that stops only at the catch-up limit, at the end of the table or
      in front of a candle that has not closed. */
  lemma PendingIsNextSegment(table: Table, seconds: int, last: int, now: real) returns (k: nat)
    requires last > 0
    ensures var n := Through(table, last);
            && n + k <= |table| && k <= 64
            && PendingTimestamps(table, seconds, last, now) == Times(table[n..n + k])
            && (forall i :: n <= i < n + k ==> (table[i].timestamp + seconds) as real <= now)
            && (k < 64 && n + k < |table| ==> (table[n + k].timestamp + seconds) as real > now)
  {
    hide IsClosed, ClosedTimes, LatestClosed, Newest, Through;
    ClosedMeans(table, seconds, now);
    var n := Through(table, last);
    var m := if |table| - n <= MAX_CATCH_UP_CANDLES then |table| else n + MAX_CATCH_UP_CANDLES;
    assert table[n..m] ==
           if |table[n..]| <= MAX_CATCH_UP_CANDLES then table[n..] else table[n..][..MAX_CATCH_UP_CANDLES];
    k := ClosedSegment(table, n, m, seconds, now);
  }

  lemma {:induction false} LatestClosedIsARow(rows: seq<Candle>, seconds: int, now: real) returns (i: int)
    ensures var ts := LatestClosed(rows, seconds, now);
            && -1 <= i < |rows|
            && (forall j :: i < j < |rows| ==> !IsClosed(rows[j], seconds, now))
            && ts == (if i < 0 then [] else [rows[i].timestamp])
            && (i >= 0 ==> IsClosed(rows[i], seconds, now))
    decreases |rows|
  {
    i := |rows| - 1;
    if rows != [] && !IsClosed(rows[i], seconds, now) {
      i := LatestClosedIsARow(rows[..|rows| - 1], seconds, now);
    }
  }

  lemma NewestRows(table: seq<Candle>, limit: nat)
    ensures var rows := Newest(table, limit);
            && |rows| == (if |table| <= limit then |table| else limit)
            && forall j :: 0 <= j < |rows| ==> rows[j] == table[|table| - |rows| + j]
  {
  }

  lemma FirstPendingIs(table: Table, seconds: int, last: int, now: real)
    requires last <= 0
    ensures PendingTimestamps(table, seconds, last, now) == LatestClosed(Newest(table, 4), seconds, now)
  {
    hide LatestClosed, Newest, ClosedTimes;
  }

  /** From the newest rows back to the table. */
  lemma ShiftNewest(table: Table, rows: seq<Candle>, seconds: int, now: real, i: int) returns (k: int)
    requires |rows| <= |table| && forall j :: 0 <= j < |rows| ==> rows[j] == table[|table| - |rows| + j]
    requires -1 <= i < |rows| && forall j :: i < j < |rows| ==> !IsClosed(rows[j], seconds, now)
    requires i >= 0 ==> IsClosed(rows[i], seconds, now)
    ensures k == if i < 0 then -1 else |table| - |rows| + i
    ensures k >= 0 ==> table[k] == rows[i] && IsClosed(table[k], seconds, now)
    ensures forall j :: (if k < 0 then |table| - |rows| else k + 1) <= j < |table| ==> !IsClosed(table[j], seconds, now)
  {
    hide IsClosed;
    var dropped := |table| - |rows|;
    k := if i < 0 then -1 else dropped + i;
    forall j | (if k < 0 then dropped else k + 1) <= j < |table| ensures !IsClosed(table[j], seconds, now) {
      assert table[j] == rows[j - dropped];
    }
  }

  lemma ClosedMeans(rows: seq<Candle>, seconds: int, now: real)
    ensures forall i :: 0 <= i < |rows| ==>
            (IsClosed(rows[i], seconds, now) <==> (rows[i].timestamp + seconds) as real <= now)
  {
  }

  /** The first run starts at the newest closed candle of the table. It finds one exactly
      when one of the newest four candles has closed; it never looks further back. */
  lemma FirstPendingIsNewest(table: Table, seconds: int, last: int, now: real) returns (i: int)
    requires last <= 0
    ensures -1 <= i < |table|
    ensures PendingTimestamps(table, seconds, last, now) == if i < 0 then [] else [table[i].timestamp]
    ensures i >= 0 ==> (table[i].timestamp + seconds) as real <= now
    ensures i >= 0 ==> forall j :: i < j < |table| ==> (table[j].timestamp + seconds) as real > now
    ensures i < 0 <==>
            forall j :: 0 <= j < |table| && |table| - 4 <= j ==> (table[j].timestamp + seconds) as real > now
  {
    hide *;
    ClosedMeans(table, seconds, now);
    var rows := Newest(table, 4);
    FirstPendingIs(table, seconds, last, now);
    NewestRows(table, 4);
    var k := LatestClosedIsARow(rows, seconds, now);
    i := ShiftNewest(table, rows, seconds, now, k);
  }

  /** A history query gives the newest rows, at most `limit`, of those that open at or before
      the bound, in order. */
  lemma HistoryMeans(table: Table, latestOpen: int, limit: nat) returns (start: nat, n: nat)
    ensures start <= n <= |table| && History(table, latestOpen, limit) == table[start..n]
    ensures n - start == if n <= limit then n else limit
    ensures forall i :: 0 <= i < n ==> table[i].timestamp <= latestOpen
    ensures forall i :: n <= i < |table| ==> table[i].timestamp > latestOpen
  {
    n := Through(table, latestOpen);
    start := if n <= limit then 0 else n - limit;
    forall i | n <= i < |table| ensures table[i].timestamp > latestOpen {
      assert table[n].timestamp <= table[i].timestamp;
    }
  }

  // ----- Views of a growing table

  /** The view has the opening times of the table from row `start` on. The values may
      differ: a candle that is still forming is overwritten later. */
  ghost predicate WindowAt(view: Table, whole: Table, start: nat) {
    start + |view| <= |whole| && forall i :: 0 <= i < |view| ==> view[i].timestamp == whole[start + i].timestamp
  }

  lemma WindowTimes(view: Table, whole: Table, start: nat, a: nat, b: nat)
    requires WindowAt(view, whole, start) && a <= b <= |view|
    ensures Times(view[a..b]) == Times(whole[start + a..start + b])
  {
  }

  /** How many rows of the view open at or before the row in front of `next`. */
  lemma ThroughWindow(view: Table, whole: Table, start: nat, next: nat, last: int)
    requires WindowAt(view, whole, start) && 0 < next <= |whole| && whole[next - 1].timestamp == last
    ensures Through(view, last) == if next <= start then 0 else if next <= start + |view| then next - start else |view|
  {
    var n := if next <= start then 0 else if next <= start + |view| then next - start else |view|;
    assert n > 0 ==> view[n - 1].timestamp == whole[start + n - 1].timestamp <= last;
    assert n < |view| ==> view[n].timestamp == whole[start + n].timestamp > last;
    ThroughUnique(view, last, n);
  }

  /** After a candle has been evaluated, a run over a view takes the next rows that the
      view has, without a gap among them. */
  lemma PendingInWindow(view: Table, whole: Table, start: nat, seconds: int, next: nat, last: int, now: real)
    returns (begin: nat, k: nat)
    requires WindowAt(view, whole, start) && 0 < next <= |whole| && last > 0 && whole[next - 1].timestamp == last
    ensures begin == (if next <= start then start else next) && begin + k <= |whole|
    ensures k > 0 ==> begin + k <= start + |view|
    ensures PendingTimestamps(view, seconds, last, now) == Times(whole[begin..begin + k])
    ensures forall i :: begin <= i < begin + k ==> IsClosed(whole[i], seconds, now)
    ensures k == 0 <==> begin >= start + |view| || !IsClosed(whole[begin], seconds, now)
  {
    hide PendingTimestamps;
    begin := if next <= start then start else next;
    ThroughWindow(view, whole, start, next, last);
    k := PendingIsNextSegment(view, seconds, last, now);
    var n := Through(view, last);
    WindowTimes(view, whole, start, n, n + k);
    if begin < start + |view| {
      assert begin == start + n;
      forall i | begin <= i < begin + k ensures IsClosed(whole[i], seconds, now) {
        assert IsClosed(view[i - start], seconds, now);
      }
      assert view[n].timestamp == whole[begin].timestamp;
    } else {
      assert k == 0 && whole[begin..begin] == [] && view[n..n] == [];
    }
  }

  // ----- No look-ahead

  /** The two tables hold the same rows opening at or before `t`. */
  ghost predicate AgreeUpTo(a: seq<Candle>, b: seq<Candle>, t: int) {
    forall c: Candle :: c.timestamp <= t ==> (c in a <==> c in b)
  }

  lemma {:induction false} SameMembersEqual(a: Table, b: Table)
    requires forall c: Candle :: c in a <==> c in b
    ensures a == b
  {
    assert b != [] ==> b[0] in b;
    if a != [] {
      var last := a[|a| - 1];
      assert last in b;
      var last' := b[|b| - 1];
      assert last' in a;
      assert forall i :: 0 <= i < |a| ==> a[i].timestamp <= last.timestamp;
      assert forall i :: 0 <= i < |b| ==> b[i].timestamp <= last'.timestamp;
      assert last' == last;
      MembersButLast(a);
      MembersButLast(b);
      var a', b' := a[..|a| - 1], b[..|b| - 1];
      forall c: Candle ensures c in a' <==> c in b' {
        assert c in a' <==> c in a && c != last;
        assert c in b' <==> c in b && c != last;
      }
      SameMembersEqual(a', b');
      assert a == a' + [last] && b == b' + [last];
    }
  }

  lemma MembersButLast(a: Table)
    requires a != []
    ensures Ordered(a[..|a| - 1])
    ensures forall c: Candle :: c in a[..|a| - 1] <==> c in a && c != a[|a| - 1]
  {
    assert forall i :: 0 <= i < |a| - 1 ==> a[i].timestamp < a[|a| - 1].timestamp;
    assert a == a[..|a| - 1] + [a[|a| - 1]];
  }

  lemma MembersThrough(a: Table, t: int)
    ensures Ordered(a[..Through(a, t)])
    ensures forall c: Candle :: c in a[..Through(a, t)] <==> c in a && c.timestamp <= t
  {
    var n := Through(a, t);
    hide Through;
    forall i | 0 <= i < |a| ensures a[i].timestamp <= t <==> i < n {
      assert n <= i ==> a[n].timestamp <= a[i].timestamp;
    }
    forall c: Candle ensures c in a[..n] <==> c in a && c.timestamp <= t {
      if c in a[..n] {
        var i :| 0 <= i < n && a[..n][i] == c;
        assert a[i] == c;
      }
      if c in a && c.timestamp <= t {
        var i :| 0 <= i < |a| && a[i] == c;
        assert a[..n][i] == c;
      }
    }
  }

  /** A history query sees nothing of the rows that open after its bound. */
  lemma HistoryIgnoresLaterRows(a: Table, b: Table, t: int, limit: nat)
    requires AgreeUpTo(a, b, t)
    ensures History(a, t, limit) == History(b, t, limit)
  {
    MembersThrough(a, t);
    MembersThrough(b, t);
    SameMembersEqual(a[..Through(a, t)], b[..Through(b, t)]);
  }

  // ----- The published snapshot

  /** The bounded copy of one table: its newest `limit` rows. */
  function SourceRows(table: Table, limit: nat): (rows: Table) {
    Newest(table, limit)
  }

  lemma SnapshotThrough(table: Table, limit: nat, t: int)
    ensures var rows, c := SourceRows(table, limit), Through(table, t);
            var lost := |table| - |rows|;
            && |rows| == (if |table| <= limit then |table| else limit) && rows == table[lost..]
            && Through(rows, t) == (if c <= lost then 0 else c - lost)
  {
    var rows, c := SourceRows(table, limit), Through(table, t);
    var lost := |table| - |rows|;
    var n := if c <= lost then 0 else c - lost;
    assert n > 0 ==> rows[n - 1] == table[c - 1];
    assert n < |rows| ==> rows[n] == table[lost + n];
    assert lost < |table| && c <= lost ==> table[c].timestamp <= table[lost].timestamp;
    ThroughUnique(rows, t, n);
  }

  function Dropped(count: nat, limit: nat): nat { if count <= limit then 0 else count - limit }

  lemma HistoryRange(table: Table, t: int, limit: nat)
    ensures var c := Through(table, t);
            History(table, t, limit) == table[Dropped(c, limit)..c]
  {
  }

  lemma SnapshotHistoryRange(table: Table, t: int, limit: nat)
    ensures var c, lost := Through(table, t), Dropped(|table|, limit);
            History(SourceRows(table, limit), t, limit) == if c <= lost then [] else table[lost..c]
  {
    SnapshotThrough(table, limit, t);
    var c, lost := Through(table, t), Dropped(|table|, limit);
    if c > lost {
      assert table[lost..][..c - lost] == table[lost..c];
    }
  }

  /** A history read from the snapshot is the live history without some of its oldest
      rows: never more of them than there are candles newer than `t`, and none exactly
      when the snapshot holds the whole table or `t` is at its end. */
  lemma SnapshotHistory(table: Table, t: int, limit: nat)
    requires limit > 0
    ensures var live := History(table, t, limit);
            var copy := History(SourceRows(table, limit), t, limit);
            var newer := |table| - Through(table, t);
            && |copy| <= |live| && copy == live[|live| - |copy|..]
            && |live| - |copy| <= newer
            && (copy == live <==> live == [] || |table| <= limit || newer == 0)
  {
    hide *;
    HistoryRange(table, t, limit);
    SnapshotHistoryRange(table, t, limit);
    SuffixOfHistory(table, Through(table, t), limit);
  }

  /** The arithmetic of the two ranges. */
  lemma SuffixOfHistory(table: Table, c: nat, limit: nat)
    requires limit > 0 && c <= |table|
    ensures var live, lost := table[Dropped(c, limit)..c], Dropped(|table|, limit);
            var copy := if c <= lost then [] else table[lost..c];
            && |copy| <= |live| && copy == live[|live| - |copy|..]
            && |live| - |copy| <= |table| - c
            && (copy == live <==> live == [] || |table| <= limit || |table| == c)
  {
  }

  /** Reading pending candles from the snapshot instead of the live table changes
      nothing exactly when at most `limit` candles follow the last evaluated one, or the
      oldest of them has not closed. The limit is at least 100, so the catch-up batch of
      64 always fits. */
  lemma SnapshotPending(table: Table, seconds: int, last: int, now: real, limit: nat)
    requires limit >= 100
    ensures var following := |table| - Through(table, last);
            PendingTimestamps(SourceRows(table, limit), seconds, last, now) ==
              PendingTimestamps(table, seconds, last, now)
            <==> last <= 0 || following <= limit || !IsClosed(table[Through(table, last)], seconds, now)
  {
    var rows := SourceRows(table, limit);
    var lost := |table| - |rows|;
    assert rows == table[lost..];
    if last <= 0 {
      assert Newest(rows, 4) == Newest(table, 4);
    } else {
      SnapshotPendingAfter(table, seconds, last, now, limit);
    }
  }

  lemma SnapshotPendingAfter(table: Table, seconds: int, last: int, now: real, limit: nat)
    requires limit >= 100 && last > 0
    ensures var following := |table| - Through(table, last);
            PendingTimestamps(SourceRows(table, limit), seconds, last, now) ==
              PendingTimestamps(table, seconds, last, now)
            <==> following <= limit || !IsClosed(table[Through(table, last)], seconds, now)
  {
    hide *;
    SnapshotThrough(table, limit, last);
    if |table| - Through(table, last) <= limit {
      SameRest(table, SourceRows(table, limit), seconds, last, now, limit);
    } else {
      LostRest(table, SourceRows(table, limit), seconds, last, now, limit);
    }
  }

  lemma SameRest(table: Table, rows: Table, seconds: int, last: int, now: real, limit: nat)
    requires last > 0 && |table| - Through(table, last) <= limit
    requires |rows| == (if |table| <= limit then |table| else limit) && rows == table[|table| - |rows|..]
    requires Through(rows, last) == if Through(table, last) <= |table| - |rows| then 0
                                    else Through(table, last) - (|table| - |rows|)
    ensures PendingTimestamps(rows, seconds, last, now) == PendingTimestamps(table, seconds, last, now)
  {
    hide ClosedTimes, LatestClosed, Through;
    assert rows[Through(rows, last)..] == table[Through(table, last)..];
  }

  lemma LostRest(table: Table, rows: Table, seconds: int, last: int, now: real, limit: nat)
    requires last > 0 && |table| - Through(table, last) > limit > 0
    requires |rows| == (if |table| <= limit then |table| else limit) && rows == table[|table| - |rows|..]
    requires Through(rows, last) == 0
    ensures PendingTimestamps(rows, seconds, last, now) == PendingTimestamps(table, seconds, last, now) <==>
            !IsClosed(table[Through(table, last)], seconds, now)
  {
    hide ClosedTimes, LatestClosed, Through, PendingTimestamps, Newest;
    var n := Through(table, last);
    var k := PendingIsNextSegment(table, seconds, last, now);
    var k' := PendingIsNextSegment(rows, seconds, last, now);
    assert rows[0] == table[|table| - |rows|] && table[n].timestamp < rows[0].timestamp;
    FirstPending(table, seconds, last, now, k);
    FirstPending(rows, seconds, last, now, k');
  }

  lemma FirstPending(table: Table, seconds: int, last: int, now: real, k: nat)
    requires last > 0
    requires var n := Through(table, last);
             && n < |table| && n + k <= |table|
             && PendingTimestamps(table, seconds, last, now) == Times(table[n..n + k])
             && (k > 0 ==> IsClosed(table[n], seconds, now))
             && (k == 0 ==> !IsClosed(table[n], seconds, now))
    ensures var n, pending := Through(table, last), PendingTimestamps(table, seconds, last, now);
            if IsClosed(table[n], seconds, now) then pending != [] && pending[0] == table[n].timestamp
            else pending == []
  {
  }
}
