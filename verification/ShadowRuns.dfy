/** The theorems about whole schedules of runs, crashes and catch-up batches. */
module ShadowRuns {
  import opened Wrappers
  import opened Json
  import opened Dictionaries
  import opened CandleStore
  import opened EventLog
  import opened EventLogProofs
  import opened ShadowEvaluator
  import opened ShadowTheorems

  function Finisher(rt: Runtime, spec: Spec): Cursor -> Result<State, LoadError> {
    cursor => Finish(spec.identity, NewState(rt, spec), cursor)
  }

  /** Evaluating one candle at a moment. */
  function StepOf(rt: Runtime, spec: Spec): Step {
    (state: State, t: int, moment: Moment) => Evaluate(rt, spec, Observe(spec, moment.source, t), state, moment.clock)
  }

  // ----- The worker's parts are coherent

  lemma {:induction false} InitialKeys(rt: Runtime, ids: seq<string>)
    ensures Keys(InitialCandidates(rt, ids)) == set id | id in ids
    decreases |ids|
  {
    hide Keys, Put, InitialEntry;
    if ids == [] {
      NoKeys();
      assert (set id | id in ids) == {};
    } else {
      InitialKeys(rt, ids[1..]);
      PutKeys(InitialCandidates(rt, ids[1..]), ids[0], Obj(InitialEntry(rt, ids[0])));
      assert (set id | id in ids) == {ids[0]} + (set id | id in ids[1..]) by {
        assert ids == [ids[0]] + ids[1..];
      }
    }
  }

  lemma NoKeys()
    ensures Keys(NoMembers) == {}
  {
  }

  lemma {:induction false} AdvanceKeys(rt: Runtime, ids: seq<string>, snapshot: Snapshot, done: Dict)
    requires forall id :: id in ids ==> id in Keys(done)
    ensures Keys(Advance(rt, ids, snapshot, done)) == Keys(done)
    decreases |ids|
  {
    if ids != [] {
      hide Put, NextCandidate;
      var next := Put(done, ids[0], Obj(NextCandidate(rt, ids[0], snapshot, done)));
      PutKeys(done, ids[0], Obj(NextCandidate(rt, ids[0], snapshot, done)));
      assert Keys(next) == Keys(done);
      AdvanceKeys(rt, ids[1..], snapshot, next);
    }
  }

  lemma LoadedKeys(rt: Runtime, spec: Spec, cursor: Cursor)
    requires spec.Valid() && Finisher(rt, spec)(cursor).Success?
    ensures Keys(Finisher(rt, spec)(cursor).value.candidates) == spec.identity.candidateIds
  {
    hide InitialCandidates, Finish, Keys;
    InitialKeys(rt, spec.candidates);
    FinishKeys(spec.identity, NewState(rt, spec), cursor);
  }

  /** The event is accepted exactly behind the hash `prev`, and loads as its state. */
  ghost predicate Carried(rt: Runtime, spec: Spec, e: Evaluated, cursor: Cursor, prev: string) {
    var checked := Checker(rt.digest, spec.identity)(cursor, Obj(e.event));
    && (cursor.previous != prev ==> checked == Failure(BrokenChain))
    && (cursor.previous == prev ==>
          checked.Success? && checked.value.previous == e.state.lastHash
            && Finisher(rt, spec)(checked.value) == Success(e.state))
  }

  lemma NotCarried(rt: Runtime, spec: Spec, e: Evaluated, cursor: Cursor, prev: string)
    requires Carried(rt, spec, e, cursor, prev) && cursor.previous != prev
    ensures Checker(rt.digest, spec.identity)(cursor, Obj(e.event)) == Failure(BrokenChain)
  {
    hide Checker;
  }

  lemma EvaluatedEvent(rt: Runtime, spec: Spec, s: Snapshot, state: State, clock: FloatText, cursor: Cursor)
    requires spec.Valid() && Keys(state.candidates) == spec.identity.candidateIds
    ensures Carried(rt, spec, Evaluate(rt, spec, s, state, clock), cursor, state.lastHash)
  {
    hide Unsigned, BodyOf, CheckEvent, Finish, Advance, EventHash, Signed, NewState, Keys;
    AdvanceKeys(rt, spec.candidates, s, state.candidates);
    var next := NextState(rt, spec, s, state);
    var unsigned := Unsigned(spec.identity, BodyOf(rt, spec, s, state, clock), state.lastHash, next);
    WrittenEvent(rt.digest, spec.identity, NewState(rt, spec), BodyOf(rt, spec, s, state, clock), cursor,
                 state.lastHash, next, unsigned);
  }

  lemma StepCarried(rt: Runtime, spec: Spec, state: State, t: int, moment: Moment, cursor: Cursor)
    requires spec.Valid() && Finisher(rt, spec)(cursor) == Success(state)
    ensures Carried(rt, spec, StepOf(rt, spec)(state, t, moment), cursor, state.lastHash)
  {
    hide Finisher, Keys, Evaluate, Observe, Carried;
    LoadedKeys(rt, spec, cursor);
    EvaluatedEvent(rt, spec, Observe(spec, moment.source, t), state, moment.clock, cursor);
  }

  lemma WorkerCoherent(rt: Runtime, spec: Spec)
    requires spec.Valid()
    ensures Coherent(Checker(rt.digest, spec.identity), Finisher(rt, spec), StepOf(rt, spec))
  {
    hide Checker, Finisher, StepOf;
    var check, finish, step := Checker(rt.digest, spec.identity), Finisher(rt, spec), StepOf(rt, spec);
    forall state: State, cursor: Cursor, t: int, moment: Moment
      | finish(cursor) == Success(state) && cursor.previous == state.lastHash
      ensures var e := step(state, t, moment);
              && check(cursor, Obj(e.event)).Success?
              && check(cursor, Obj(e.event)).value.previous == e.state.lastHash
              && finish(check(cursor, Obj(e.event)).value) == Success(e.state)
    {
      StepCarried(rt, spec, state, t, moment, cursor);
    }
  }

  /** A run's market evaluates as the reference does at the run's moments. */
  lemma MarketAgrees(rt: Runtime, spec: Spec, source: Source, now: real)
    ensures Agrees(MarketOf(rt, spec, source), StepOf(rt, spec), source, now)
  {
    hide Evaluate, Observe;
  }

  function Reference(rt: Runtime, spec: Spec, times: seq<int>, moments: seq<Moment>): Log
    requires |times| == |moments|
  {
    ReferenceLog(StepOf(rt, spec), NewState(rt, spec), times, moments)
  }

  lemma ReferenceIs(rt: Runtime, spec: Spec, times: seq<int>, moments: seq<Moment>)
    requires |times| == |moments|
    ensures Reference(rt, spec, times, moments) == ReferenceLog(StepOf(rt, spec), NewState(rt, spec), times, moments)
  {
    hide StepOf, NewState, ReferenceLog;
  }

  lemma WorkerAccepted(rt: Runtime, spec: Spec, times: seq<int>, moments: seq<Moment>)
    requires spec.Valid() && |times| == |moments|
    ensures Accepted(Checker(rt.digest, spec.identity), Finisher(rt, spec), Reference(rt, spec, times, moments))
  {
    WorkerCoherent(rt, spec);
    ReferenceAccepted(Checker(rt.digest, spec.identity), Finisher(rt, spec), StepOf(rt, spec), NewState(rt, spec),
                      times, moments);
  }

  // ----- What the durable state says

  lemma {:induction false} ReferenceFields(rt: Runtime, spec: Spec, times: seq<int>, moments: seq<Moment>)
    requires |times| == |moments|
    ensures var state := Reference(rt, spec, times, moments).state;
            && state.snapshotCount == |times|
            && state.lastTimestamp == (if times == [] then 0 else times[|times| - 1])
    decreases |times|
  {
    hide StepOf, InitialCandidates;
    var n := |times|;
    if n > 0 {
      ReferenceFields(rt, spec, times[..n - 1], moments[..n - 1]);
      StepMoves(rt, spec, Reference(rt, spec, times[..n - 1], moments[..n - 1]).state, times[n - 1], moments[n - 1]);
    }
  }

  lemma StepMoves(rt: Runtime, spec: Spec, state: State, t: int, moment: Moment)
    ensures var next := StepOf(rt, spec)(state, t, moment).state;
            next.snapshotCount == state.snapshotCount + 1 && next.lastTimestamp == t
  {
    hide Advance, BodyOf, Unsigned, Signed, EventHash;
  }

  lemma StepFirst(rt: Runtime, spec: Spec, state: State, t: int, moment: Moment)
    ensures StepOf(rt, spec)(state, t, moment).state.firstTimestamp ==
            if state.firstTimestamp == 0 then t else state.firstTimestamp
  {
    hide Advance, BodyOf, Unsigned, Signed, EventHash;
  }

  lemma {:induction false} ReferenceFirst(rt: Runtime, spec: Spec, times: seq<int>, moments: seq<Moment>)
    requires |times| == |moments| && forall i :: 0 <= i < |times| ==> times[i] != 0
    ensures Reference(rt, spec, times, moments).state.firstTimestamp == if times == [] then 0 else times[0]
    decreases |times|
  {
    hide StepOf;
    var n := |times|;
    if n > 0 {
      ReferenceFirst(rt, spec, times[..n - 1], moments[..n - 1]);
      StepFirst(rt, spec, Reference(rt, spec, times[..n - 1], moments[..n - 1]).state, times[n - 1], moments[n - 1]);
    }
  }

  // ----- What a candle is judged on

  /** A candle is judged on the newest primary rows up to it, and on the newest regime rows that
      have closed when it closes, at most `maxBars` of each. */
  lemma ObservedRows(spec: Spec, source: Source, t: int) returns (a: nat, n: nat, b: nat, m: nat)
    ensures var s := Observe(spec, source, t);
            && a <= n <= |source.primary| && s.primary == source.primary[a..n]
            && n - a == (if n <= spec.maxBars then n else spec.maxBars)
            && b <= m <= |source.regime| && m - b == (if m <= spec.maxBars then m else spec.maxBars)
            && s.regime == (if spec.regimeTimeframe == "" then [] else source.regime[b..m])
            && s.timestamp == t && s.decisionClose == t + spec.seconds
    ensures forall i :: 0 <= i < |source.primary| ==> (i < n <==> source.primary[i].timestamp <= t)
    ensures forall i :: 0 <= i < |source.regime| ==>
            (i < m <==> source.regime[i].timestamp + spec.regimeSeconds <= t + spec.seconds)
  {
    hide History;
    a, n := HistoryMeans(source.primary, t, spec.maxBars);
    b, m := HistoryMeans(source.regime, t + spec.seconds - spec.regimeSeconds, spec.maxBars);
  }

  /** A candle is refused exactly when the store has no row for it, or the close of that row is
      not allowed. */
  lemma ObjectionMeans(rt: Runtime, spec: Spec, source: Source, t: int)
    requires spec.maxBars > 0
    ensures var objection := MarketOf(rt, spec, source).objection(t);
            && (objection == Some(IncompleteSnapshot) <==> !HasRow(source, t))
            && (objection == Some(BadClose) <==>
                  exists c :: c in source.primary && c.timestamp == t && !rt.closeAllowed(c.close))
            && (objection == None <==> exists c :: c in source.primary && c.timestamp == t && rt.closeAllowed(c.close))
  {
    hide *;
    var a, n, b, m := ObservedRows(spec, source, t);
    var s := Observe(spec, source, t);
    MarketObjects(rt, spec, source, t);
    ObjectionIs(rt, s);
    LastShown(source.primary, a, n, s.primary);
    RowAt(source, t, n);
  }

  lemma LastShown(table: Table, a: nat, n: nat, shown: seq<Candle>)
    requires a <= n <= |table| && shown == table[a..n] && (n > 0 ==> a < n)
    ensures if n > 0 then shown != [] && shown[|shown| - 1] == table[n - 1] else shown == []
  {
  }

  lemma ObjectionIs(rt: Runtime, s: Snapshot)
    ensures Objection(rt, s) ==
            if s.primary == [] || s.primary[|s.primary| - 1].timestamp != s.timestamp then Some(IncompleteSnapshot)
            else if rt.closeAllowed(s.primary[|s.primary| - 1].close) then None else Some(BadClose)
  {
  }

  lemma MarketObjects(rt: Runtime, spec: Spec, source: Source, t: int)
    ensures MarketOf(rt, spec, source).objection(t) == Objection(rt, Observe(spec, source, t))
  {
    hide Observe, Objection;
  }

  /** The row at `t` is the last of the `n` rows up to `t`, if there is one. */
  lemma RowAt(source: Source, t: int, n: nat)
    requires n <= |source.primary|
    requires forall i :: 0 <= i < |source.primary| ==> (i < n <==> source.primary[i].timestamp <= t)
    ensures HasRow(source, t) <==> n > 0 && source.primary[n - 1].timestamp == t
    ensures forall c :: c in source.primary && c.timestamp == t <==>
            n > 0 && c == source.primary[n - 1] && c.timestamp == t
  {
    var table := source.primary;
    forall c | c in table && c.timestamp == t ensures n > 0 && c == table[n - 1] {
      var i :| 0 <= i < |table| && table[i] == c;
      assert i < n && table[i].timestamp <= table[n - 1].timestamp <= t;
    }
    if n > 0 {
      assert table[n - 1] in table;
    }
  }

  // ----- No look-ahead

  /** The two stores agree on every primary row opening at or before `t` and on every
      regime row that has closed when the primary candle `t` closes. */
  ghost predicate AgreeAt(spec: Spec, a: Source, b: Source, t: int) {
    && AgreeUpTo(a.primary, b.primary, t)
    && (spec.regimeTimeframe != "" ==>
          forall c: Candle :: c.timestamp + spec.regimeSeconds <= t + spec.seconds ==>
            (c in a.regime <==> c in b.regime))
  }

  lemma ObserveIgnoresLaterRows(spec: Spec, a: Source, b: Source, t: int)
    requires AgreeAt(spec, a, b, t)
    ensures Observe(spec, a, t) == Observe(spec, b, t)
  {
    hide History;
    HistoryIgnoresLaterRows(a.primary, b.primary, t, spec.maxBars);
    if spec.regimeTimeframe != "" {
      var open := t + spec.seconds - spec.regimeSeconds;
      forall c: Candle | c.timestamp <= open ensures c in a.regime <==> c in b.regime {
        assert c.timestamp + spec.regimeSeconds <= t + spec.seconds;
      }
      HistoryIgnoresLaterRows(a.regime, b.regime, open, spec.maxBars);
    }
  }

  /** No look-ahead: whatever later rows two stores hold, a candle is refused in both or
      evaluated to the same event and the same state in both. */
  lemma NoLookAhead(rt: Runtime, spec: Spec, a: Source, b: Source, t: int, state: State, clock: FloatText)
    requires AgreeAt(spec, a, b, t)
    ensures MarketOf(rt, spec, a).objection(t) == MarketOf(rt, spec, b).objection(t)
    ensures MarketOf(rt, spec, a).step(state, t, clock) == MarketOf(rt, spec, b).step(state, t, clock)
  {
    ObserveIgnoresLaterRows(spec, a, b, t);
  }

  // ----- Runs over a growing store

  datatype RunPlan = RunPlan(source: Source, now: real, envs: seq<Env>)

  type Runner = (RunPlan, string) -> RunResult

  function RunnerOf(rt: Runtime, spec: Spec): Runner {
    (plan: RunPlan, disk: string) => RunOnce(rt, spec, plan.source, plan.now, disk, plan.envs)
  }

  /** The opening times of the primary rows a run sees are a stretch of those of the whole
      history. Rows are only ever added behind the others, a forming candle may be
      overwritten, and a bounded snapshot lacks the oldest rows. */
  ghost predicate Window(view: Source, whole: Source) {
    exists start :: WindowAt(view.primary, whole.primary, start)
  }

  /** No candle of the history lies between the last evaluated one and the oldest one the
      run sees, or the run sees no closed candle at all. */
  ghost predicate InReach(spec: Spec, view: Source, whole: Source, last: int, now: real) {
    || last <= 0
    || view.primary == []
    || !IsClosed(view.primary[0], spec.seconds, now)
    || forall c :: c in whole.primary && last < c.timestamp ==> view.primary[0].timestamp <= c.timestamp
  }

  /** The store has a row that opens at `t`. */
  ghost predicate HasRow(source: Source, t: int) { exists c :: c in source.primary && c.timestamp == t }

  ghost predicate PositiveTimes(whole: Source) {
    forall i :: 0 <= i < |whole.primary| ==> whole.primary[i].timestamp > 0
  }

  /** The segment of the history that starts at row `first`. */
  function Segment(whole: Source, first: nat, n: nat): (times: seq<int>)
    requires first + n <= |whole.primary|
    ensures |times| == n
  {
    Times(whole.primary[first..first + n])
  }

  /** The moment is one of a run that had row `i` in its store, after it had closed. */
  ghost predicate SawRow(spec: Spec, whole: Source, i: nat, moment: Moment)
    requires i < |whole.primary|
  {
    HasRow(moment.source, whole.primary[i].timestamp) && IsClosed(whole.primary[i], spec.seconds, moment.now)
  }

  ghost predicate Seen(spec: Spec, whole: Source, first: nat, moments: seq<Moment>) {
    && first + |moments| <= |whole.primary|
    && forall k :: 0 <= k < |moments| ==> SawRow(spec, whole, first + k, moments[k])
  }

  /** The disk holds the reference log of a gap-free segment of the history, each candle
      evaluated from a store that had it, and perhaps a torn tail. */
  ghost predicate Progress(rt: Runtime, spec: Spec, whole: Source, disk: string, first: nat, moments: seq<Moment>,
                           tail: string) {
    && Seen(spec, whole, first, moments)
    && Holds(disk, StepOf(rt, spec), NewState(rt, spec), Segment(whole, first, |moments|), moments, tail)
  }

  /** The same, but the last event has no line end. */
  ghost predicate Unended(rt: Runtime, spec: Spec, whole: Source, disk: string, first: nat, moments: seq<Moment>) {
    && Seen(spec, whole, first, moments)
    && HoldsUnended(disk, StepOf(rt, spec), NewState(rt, spec), Segment(whole, first, |moments|), moments)
  }

  /** The state after evaluating the segment. */
  function FoldOf(rt: Runtime, spec: Spec, whole: Source, first: nat, moments: seq<Moment>): State
    requires first + |moments| <= |whole.primary|
  {
    Reference(rt, spec, Segment(whole, first, |moments|), moments).state
  }

  lemma FoldIs(rt: Runtime, spec: Spec, whole: Source, first: nat, moments: seq<Moment>)
    requires first + |moments| <= |whole.primary|
    ensures FoldOf(rt, spec, whole, first, moments) ==
            Reference(rt, spec, Segment(whole, first, |moments|), moments).state
  {
  }

  lemma ScannedLog(rt: Runtime, spec: Spec, disk: string, log: Log)
    requires Accepted(Checker(rt.digest, spec.identity), Finisher(rt, spec), log)
    requires Scan(Checker(rt.digest, spec.identity), disk) == Replay(Checker(rt.digest, spec.identity), log.events)
    ensures LoadDisk(rt, spec, disk) == Success(log.state)
  {
    var cursor := Scan(Checker(rt.digest, spec.identity), disk).value;
    assert Finisher(rt, spec)(cursor) == Finish(spec.identity, NewState(rt, spec), cursor);
  }

  /** Loading gives the fold over the segment, whether or not the last event has its line
      end. */
  lemma ProgressLoads(rt: Runtime, spec: Spec, whole: Source, disk: string, first: nat, moments: seq<Moment>,
                      tail: string)
    requires spec.Valid() && Seen(spec, whole, first, moments)
    requires Progress(rt, spec, whole, disk, first, moments, tail) || Unended(rt, spec, whole, disk, first, moments)
    ensures LoadDisk(rt, spec, disk) == Success(FoldOf(rt, spec, whole, first, moments))
  {
    hide Holds, HoldsUnended, ReferenceLog, StepOf, Accepted, LoadDisk;
    var times := Segment(whole, first, |moments|);
    var check := Checker(rt.digest, spec.identity);
    if Progress(rt, spec, whole, disk, first, moments, tail) {
      LoadHolds(check, disk, StepOf(rt, spec), NewState(rt, spec), times, moments, tail);
    } else {
      LoadUnended(check, disk, StepOf(rt, spec), NewState(rt, spec), times, moments);
    }
    WorkerAccepted(rt, spec, times, moments);
    ScannedLog(rt, spec, disk, Reference(rt, spec, times, moments));
  }

  /** The row of the history that a row of the view is. */
  lemma InWindow(view: Source, whole: Source, start: nat, i: nat)
    requires WindowAt(view.primary, whole.primary, start) && i < |view.primary|
    ensures start + i < |whole.primary| && whole.primary[start + i].timestamp == view.primary[i].timestamp
    ensures HasRow(view, whole.primary[start + i].timestamp)
  {
    assert view.primary[i] in view.primary;
  }

  lemma BeforeWindow(view: Source, whole: Source, start: nat, next: nat, last: int)
    requires WindowAt(view.primary, whole.primary, start) && view.primary != []
    requires 0 < next <= |whole.primary| && whole.primary[next - 1].timestamp == last
    ensures (forall c :: c in whole.primary && last < c.timestamp ==> view.primary[0].timestamp <= c.timestamp) <==>
            start <= next
  {
    hide WindowAt;
    var table := whole.primary;
    InWindow(view, whole, start, 0);
    if start <= next {
      forall c | c in table && last < c.timestamp ensures view.primary[0].timestamp <= c.timestamp {
        var j :| 0 <= j < |table| && table[j] == c;
        assert next <= j;
      }
    } else {
      assert table[next] in table && last < table[next].timestamp < table[start].timestamp;
    }
  }

  /** The candles a run takes up continue behind the last evaluated one without a gap
      exactly when the oldest row it sees reaches back far enough. */
  lemma ReachIff(spec: Spec, view: Source, whole: Source, now: real, next: nat, last: int)
    requires Window(view, whole) && 0 < next <= |whole.primary| && last == whole.primary[next - 1].timestamp > 0
    ensures InReach(spec, view, whole, last, now) <==>
            exists k :: 0 <= k <= |whole.primary| - next &&
                        PendingTimestamps(view.primary, spec.seconds, last, now) == Segment(whole, next, k)
  {
    var start :| WindowAt(view.primary, whole.primary, start);
    var begin, k := PendingInWindow(view.primary, whole.primary, start, spec.seconds, next, last, now);
    hide WindowAt, PendingTimestamps, IsClosed;
    ReachInWindow(spec, view, whole, now, start, next, last);
    var pending := PendingTimestamps(view.primary, spec.seconds, last, now);
    if begin == next || k == 0 {
      assert k == 0 ==> pending == Segment(whole, next, 0);
      assert pending == Segment(whole, next, k);
    } else {
      forall m | 0 <= m <= |whole.primary| - next ensures pending != Segment(whole, next, m) {
        LaterSegment(whole, begin, k, next, m);
      }
    }
  }

  lemma LaterSegment(whole: Source, begin: nat, k: nat, next: nat, m: nat)
    requires next < begin && k > 0 && begin + k <= |whole.primary| && next + m <= |whole.primary|
    ensures Segment(whole, begin, k) != Segment(whole, next, m)
  {
    if m > 0 {
      assert Segment(whole, begin, k)[0] > Segment(whole, next, m)[0];
    }
  }

  lemma ReachInWindow(spec: Spec, view: Source, whole: Source, now: real, start: nat, next: nat, last: int)
    requires WindowAt(view.primary, whole.primary, start)
    requires 0 < next <= |whole.primary| && last == whole.primary[next - 1].timestamp > 0
    ensures InReach(spec, view, whole, last, now) <==>
            start <= next || view.primary == [] || !IsClosed(whole.primary[start], spec.seconds, now)
  {
    hide HasRow;
    if view.primary != [] {
      InWindow(view, whole, start, 0);
      BeforeWindow(view, whole, start, next, last);
    }
  }

  /** The candles a run takes up continue the segment without a gap. */
  lemma PendingContinues(spec: Spec, view: Source, whole: Source, now: real, first: nat, n: nat, last: int)
    returns (start: nat, k: nat)
    requires Window(view, whole) && PositiveTimes(whole) && InReach(spec, view, whole, last, now)
    requires first + n <= |whole.primary|
    requires last == if n == 0 then 0 else whole.primary[first + n - 1].timestamp
    ensures n > 0 ==> start == first
    ensures start + n + k <= |whole.primary|
    ensures PendingTimestamps(view.primary, spec.seconds, last, now) == Segment(whole, start + n, k)
    ensures forall i :: start + n <= i < start + n + k ==>
      IsClosed(whole.primary[i], spec.seconds, now) && HasRow(view, whole.primary[i].timestamp)
  {
    hide PendingTimestamps, IsClosed, HasRow, InReach, WindowAt, Segment;
    var from :| WindowAt(view.primary, whole.primary, from);
    if n == 0 {
      start, k := FirstCandle(spec, view, whole, now, from);
    } else {
      start := first;
      k := NextCandles(spec, view, whole, now, from, first + n, last);
    }
  }

  lemma NextCandles(spec: Spec, view: Source, whole: Source, now: real, start: nat, next: nat, last: int)
    returns (k: nat)
    requires WindowAt(view.primary, whole.primary, start) && InReach(spec, view, whole, last, now)
    requires 0 < next <= |whole.primary| && last == whole.primary[next - 1].timestamp > 0
    ensures next + k <= |whole.primary|
    ensures PendingTimestamps(view.primary, spec.seconds, last, now) == Segment(whole, next, k)
    ensures forall i :: next <= i < next + k ==>
      IsClosed(whole.primary[i], spec.seconds, now) && HasRow(view, whole.primary[i].timestamp)
  {
    hide PendingTimestamps, IsClosed, HasRow, InReach, WindowAt;
    var begin;
    begin, k := PendingInWindow(view.primary, whole.primary, start, spec.seconds, next, last, now);
    ReachInWindow(spec, view, whole, now, start, next, last);
    forall i | next <= i < next + k
      ensures IsClosed(whole.primary[i], spec.seconds, now) && HasRow(view, whole.primary[i].timestamp) {
      assert begin == next;
      InWindow(view, whole, start, i - start);
    }
    assert k == 0 ==> whole.primary[begin..begin] == whole.primary[next..next];
  }

  lemma FirstCandle(spec: Spec, view: Source, whole: Source, now: real, from: nat) returns (start: nat, k: nat)
    requires WindowAt(view.primary, whole.primary, from)
    ensures start + k <= |whole.primary| && k <= 1
    ensures PendingTimestamps(view.primary, spec.seconds, 0, now) == Segment(whole, start, k)
    ensures k == 1 ==> IsClosed(whole.primary[start], spec.seconds, now) && HasRow(view, whole.primary[start].timestamp)
  {
    hide PendingTimestamps, HasRow;
    var i := FirstPendingIsNewest(view.primary, spec.seconds, 0, now);
    start, k := 0, 0;
    if i >= 0 {
      InWindow(view, whole, from, i);
      start, k := from + i, 1;
      assert Segment(whole, start, 1) == [whole.primary[start].timestamp];
    }
  }

  lemma SegmentAppend(whole: Source, first: nat, n: nat, k: nat, all: nat)
    requires k <= all && first + n + all <= |whole.primary|
    ensures Segment(whole, first, n) + Segment(whole, first + n, all)[..k] == Segment(whole, first, n + k)
  {
  }

  lemma SegmentFront(whole: Source, first: nat, n: nat)
    requires n > 0 && first + n <= |whole.primary|
    ensures Segment(whole, first, n)[..n - 1] == Segment(whole, first, n - 1)
  {
  }

  lemma SegmentShape(whole: Source, first: nat, n: nat)
    requires first + n <= |whole.primary|
    ensures |Segment(whole, first, n)| == n
    ensures n > 0 ==> Segment(whole, first, n)[0] == whole.primary[first].timestamp
    ensures n > 0 ==> Segment(whole, first, n)[n - 1] == whole.primary[first + n - 1].timestamp
  {
  }

  lemma LoadedRun(rt: Runtime, spec: Spec, plan: RunPlan, disk: string, state: State)
    requires LoadDisk(rt, spec, disk) == Success(state)
    ensures RunnerOf(rt, spec)(plan, disk) ==
            RunPending(MarketOf(rt, spec, plan.source), disk, state,
                       PendingOf(spec, plan, state), plan.envs)
  {
  }

  lemma FoldLast(rt: Runtime, spec: Spec, whole: Source, first: nat, moments: seq<Moment>)
    requires first + |moments| <= |whole.primary|
    ensures FoldOf(rt, spec, whole, first, moments).lastTimestamp ==
            if moments == [] then 0 else whole.primary[first + |moments| - 1].timestamp
    ensures FoldOf(rt, spec, whole, first, moments).snapshotCount == |moments|
  {
    hide *;
    FoldIs(rt, spec, whole, first, moments);
    SegmentShape(whole, first, |moments|);
    ReferenceFields(rt, spec, Segment(whole, first, |moments|), moments);
  }

  /** The candles that wait for a run that loads `state`. */
  function PendingOf(spec: Spec, plan: RunPlan, state: State): seq<int> {
    PendingTimestamps(plan.source.primary, spec.seconds, state.lastTimestamp, plan.now)
  }

  lemma PendingIs(spec: Spec, plan: RunPlan, state: State)
    ensures PendingOf(spec, plan, state) ==
            PendingTimestamps(plan.source.primary, spec.seconds, state.lastTimestamp, plan.now)
  {
  }

  /** A run that loads the fold over a segment works on the next candles of the history. */
  lemma RunIsNextSegment(rt: Runtime, spec: Spec, whole: Source, disk: string, first: nat, moments: seq<Moment>,
                         plan: RunPlan)
    returns (first': nat, k: nat)
    requires Window(plan.source, whole) && PositiveTimes(whole) && Seen(spec, whole, first, moments)
    requires InReach(spec, plan.source, whole, FoldOf(rt, spec, whole, first, moments).lastTimestamp, plan.now)
    requires LoadDisk(rt, spec, disk) == Success(FoldOf(rt, spec, whole, first, moments))
    ensures moments != [] ==> first' == first
    ensures first' + |moments| + k <= |whole.primary|
    ensures RunnerOf(rt, spec)(plan, disk) ==
            RunPending(MarketOf(rt, spec, plan.source), disk, FoldOf(rt, spec, whole, first, moments),
                       Segment(whole, first' + |moments|, k), plan.envs)
    ensures k == |PendingOf(spec, plan, FoldOf(rt, spec, whole, first, moments))|
    ensures forall i :: first' + |moments| <= i < first' + |moments| + k ==>
      IsClosed(whole.primary[i], spec.seconds, plan.now) && HasRow(plan.source, whole.primary[i].timestamp)
  {
    hide *;
    SeenBound(spec, whole, first, moments);
    var state := FoldOf(rt, spec, whole, first, moments);
    FoldLast(rt, spec, whole, first, moments);
    first', k := PendingContinues(spec, plan.source, whole, plan.now, first, |moments|, state.lastTimestamp);
    LoadedRun(rt, spec, plan, disk, state);
    PendingIs(spec, plan, state);
    SegmentShape(whole, first' + |moments|, k);
  }

  lemma SeenBound(spec: Spec, whole: Source, first: nat, moments: seq<Moment>)
    requires Seen(spec, whole, first, moments)
    ensures first + |moments| <= |whole.primary|
  {
  }

  lemma SeenGoesOn(spec: Spec, whole: Source, first: nat, first': nat, moments: seq<Moment>, moments': seq<Moment>,
                   plan: RunPlan)
    requires Seen(spec, whole, first, moments) && (moments != [] ==> first' == first)
    requires GoesOn(moments, moments', plan.source, plan.now)
    requires first' + |moments'| <= |whole.primary|
    requires forall i :: first' + |moments| <= i < first' + |moments'| ==>
      IsClosed(whole.primary[i], spec.seconds, plan.now) && HasRow(plan.source, whole.primary[i].timestamp)
    ensures Seen(spec, whole, first', moments')
  {
    hide HasRow, IsClosed;
    forall k | 0 <= k < |moments'| ensures SawRow(spec, whole, first' + k, moments'[k]) {
      if k < |moments| {
        assert moments'[k] == moments[k];
        assert SawRow(spec, whole, first + k, moments[k]);
      } else {
        var i := first' + k;
        assert IsClosed(whole.primary[i], spec.seconds, plan.now) && HasRow(plan.source, whole.primary[i].timestamp);
        assert moments'[k].source == plan.source && moments'[k].now == plan.now;
      }
    }
  }

  lemma SeenFront(spec: Spec, whole: Source, first: nat, moments: seq<Moment>)
    requires Seen(spec, whole, first, moments) && moments != []
    ensures Seen(spec, whole, first, moments[..|moments| - 1])
    ensures first + |moments| <= |whole.primary| && SawRow(spec, whole, first + |moments| - 1, moments[|moments| - 1])
  {
    hide SawRow;
  }

  lemma ProgressParts(rt: Runtime, spec: Spec, whole: Source, disk: string, first: nat, first': nat,
                      moments: seq<Moment>, tail: string)
    requires Progress(rt, spec, whole, disk, first, moments, tail) && (moments != [] ==> first' == first)
    requires first' + |moments| <= |whole.primary|
    ensures Seen(spec, whole, first, moments)
    ensures Holds(disk, StepOf(rt, spec), NewState(rt, spec), Segment(whole, first', |moments|), moments, tail)
    ensures FoldOf(rt, spec, whole, first, moments) ==
            ReferenceLog(StepOf(rt, spec), NewState(rt, spec), Segment(whole, first', |moments|), moments).state
  {
    hide Holds, ReferenceLog, StepOf;
    assert moments == [] ==> Segment(whole, first', |moments|) == Segment(whole, first, |moments|);
  }

  lemma ProgressFrom(rt: Runtime, spec: Spec, whole: Source, disk: string, first: nat, moments: seq<Moment>,
                     tail: string, times: seq<int>)
    requires Seen(spec, whole, first, moments) && times == Segment(whole, first, |moments|)
    ensures Holds(disk, StepOf(rt, spec), NewState(rt, spec), times, moments, tail) ==>
            Progress(rt, spec, whole, disk, first, moments, tail)
    ensures HoldsUnended(disk, StepOf(rt, spec), NewState(rt, spec), times, moments) ==>
            Unended(rt, spec, whole, disk, first, moments)
  {
  }

  /** The run sees the candles that follow the last one in the log, if the log loads. */
  ghost predicate Reaches(rt: Runtime, spec: Spec, whole: Source, disk: string, plan: RunPlan) {
    LoadDisk(rt, spec, disk).Success? ==>
      InReach(spec, plan.source, whole, LoadDisk(rt, spec, disk).value.lastTimestamp, plan.now)
  }

  lemma ReachesMeans(rt: Runtime, spec: Spec, whole: Source, disk: string, plan: RunPlan)
    requires Reaches(rt, spec, whole, disk, plan) && LoadDisk(rt, spec, disk).Success?
    ensures InReach(spec, plan.source, whole, LoadDisk(rt, spec, disk).value.lastTimestamp, plan.now)
  {
  }

  /** One run, crashed or not, extends the segment; a run that finishes has evaluated
      every candle that was pending when it started. */
  lemma RunProgress(rt: Runtime, spec: Spec, whole: Source, disk: string, first: nat, moments: seq<Moment>,
                    tail: string, plan: RunPlan)
    returns (first': nat, moments': seq<Moment>, tail': string)
    requires spec.Valid() && Progress(rt, spec, whole, disk, first, moments, tail)
    requires Window(plan.source, whole) && PositiveTimes(whole)
    requires Reaches(rt, spec, whole, disk, plan)
    ensures var r := RunnerOf(rt, spec)(plan, disk);
            if r.stop == Cut(1) then Unended(rt, spec, whole, r.disk, first', moments')
            else Progress(rt, spec, whole, r.disk, first', moments', tail')
    ensures GoesOn(moments, moments', plan.source, plan.now) && (moments != [] ==> first' == first)
    ensures LoadDisk(rt, spec, disk).Success?
    ensures RunnerOf(rt, spec)(plan, disk).stop == Finished ==>
              |moments'| == |moments| + |PendingOf(spec, plan, LoadDisk(rt, spec, disk).value)|
  {
    hide *;
    ProgressIsSeen(rt, spec, whole, disk, first, moments, tail);
    ProgressLoads(rt, spec, whole, disk, first, moments, tail);
    ReachesMeans(rt, spec, whole, disk, plan);
    var k, done: nat;
    first', k := RunIsNextSegment(rt, spec, whole, disk, first, moments, plan);
    ProgressParts(rt, spec, whole, disk, first, first', moments, tail);
    MarketAgrees(rt, spec, plan.source, plan.now);
    done, moments', tail' := RunHolds(MarketOf(rt, spec, plan.source), disk, StepOf(rt, spec), NewState(rt, spec),
                                      Segment(whole, first', |moments|), moments, tail,
                                      Segment(whole, first' + |moments|, k), plan.envs, plan.source, plan.now);
    SegmentShape(whole, first' + |moments|, k);
    SegmentAppend(whole, first', |moments|, done, k);
    SeenGoesOn(spec, whole, first, first', moments, moments', plan);
    ProgressFrom(rt, spec, whole, RunnerOf(rt, spec)(plan, disk).disk, first', moments', tail',
                 Segment(whole, first', |moments|) + Segment(whole, first' + |moments|, k)[..done]);
  }

  lemma ProgressIsSeen(rt: Runtime, spec: Spec, whole: Source, disk: string, first: nat, moments: seq<Moment>,
                       tail: string)
    requires Progress(rt, spec, whole, disk, first, moments, tail)
    ensures Seen(spec, whole, first, moments) && first + |moments| <= |whole.primary|
  {
  }

  /** The empty disk is where every schedule starts. */
  lemma EmptyDisk(rt: Runtime, spec: Spec, whole: Source)
    ensures Progress(rt, spec, whole, "", 0, [], "")
  {
    hide StepOf, NewState, SawRow;
    assert Segment(whole, 0, 0) == [];
  }
}
