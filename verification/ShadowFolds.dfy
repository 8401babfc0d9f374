/** When the log of a schedule is one fold over the whole history: exactly when every candle
    was judged on the rows that the whole history shows for it. */
module ShadowFolds {
  import opened Wrappers
  import opened Json
  import opened Dictionaries
  import opened CandleStore
  import opened EventLog
  import opened EventLogProofs
  import opened ShadowEvaluator
  import opened ShadowTheorems
  import opened ShadowRuns
  import opened ShadowSchedules
  import opened ShadowHistories

  /** The same moments, had every run seen the whole history. */
  function Hindsight(whole: Source, moments: seq<Moment>): (seen: seq<Moment>)
    ensures |seen| == |moments|
    ensures forall k :: 0 <= k < |moments| ==> seen[k] == Moment(whole, moments[k].now, moments[k].clock)
  {
    seq(|moments|, k requires 0 <= k < |moments| => Moment(whole, moments[k].now, moments[k].clock))
  }

  /** The rows a candle at `t` is judged on are the same in both stores. */
  predicate SameWindows(spec: Spec, a: Source, b: Source, t: int) {
    && History(a.primary, t, spec.maxBars) == History(b.primary, t, spec.maxBars)
    && (spec.regimeTimeframe != "" ==>
          RegimeHistory(a.regime, spec.regimeSeconds, t + spec.seconds, spec.maxBars) ==
          RegimeHistory(b.regime, spec.regimeSeconds, t + spec.seconds, spec.maxBars))
  }

  /** Row `i`, evaluated at the moment, would have been judged on the same rows. */
  predicate SameWindowsAt(spec: Spec, whole: Source, i: nat, moment: Moment)
    requires i < |whole.primary|
  {
    SameWindows(spec, moment.source, whole, whole.primary[i].timestamp)
  }

  /** No candle of the segment would have been judged on other rows in hindsight. */
  ghost predicate SameInHindsight(spec: Spec, whole: Source, first: nat, moments: seq<Moment>)
    requires first + |moments| <= |whole.primary|
  {
    forall k :: 0 <= k < |moments| ==> SameWindowsAt(spec, whole, first + k, moments[k])
  }

  /** What a candle is judged on is the same in hindsight exactly when its rows are. */
  lemma SameObservation(spec: Spec, whole: Source, i: nat, moment: Moment)
    requires i < |whole.primary|
    ensures var t := whole.primary[i].timestamp;
            Observe(spec, moment.source, t) == Observe(spec, whole, t) <==> SameWindowsAt(spec, whole, i, moment)
  {
    hide History, RegimeHistory;
  }

  lemma SeenPrefix(spec: Spec, whole: Source, first: nat, moments: seq<Moment>)
    requires Seen(spec, whole, first, moments) && moments != []
    ensures var n := |moments| - 1;
            && first + n < |whole.primary|
            && Seen(spec, whole, first, moments[..n]) && SawRow(spec, whole, first + n, moments[n])
            && Hindsight(whole, moments)[..n] == Hindsight(whole, moments[..n])
            && (SameInHindsight(spec, whole, first, moments) <==>
                  SameInHindsight(spec, whole, first, moments[..n])
                    && SameWindowsAt(spec, whole, first + n, moments[n]))
  {
    hide *;
    SeenFront(spec, whole, first, moments);
    HindsightFront(whole, moments);
    NoLateFront(spec, whole, first, moments);
  }

  lemma HindsightFront(whole: Source, moments: seq<Moment>)
    requires moments != []
    ensures |Hindsight(whole, moments)| == |moments|
    ensures Hindsight(whole, moments)[..|moments| - 1] == Hindsight(whole, moments[..|moments| - 1])
  {
  }

  lemma NoLateFront(spec: Spec, whole: Source, first: nat, moments: seq<Moment>)
    requires moments != [] && first + |moments| <= |whole.primary|
    ensures var n := |moments| - 1;
            SameInHindsight(spec, whole, first, moments) <==>
            SameInHindsight(spec, whole, first, moments[..n]) && SameWindowsAt(spec, whole, first + n, moments[n])
  {
    hide SameWindowsAt;
    var n := |moments| - 1;
    if SameInHindsight(spec, whole, first, moments[..n]) && SameWindowsAt(spec, whole, first + n, moments[n]) {
      forall k | 0 <= k < |moments| ensures SameWindowsAt(spec, whole, first + k, moments[k]) {
        assert k < n ==> moments[..n][k] == moments[k];
      }
    }
  }

  lemma LogStep(step: Step, initial: State, times: seq<int>, moments: seq<Moment>)
    requires |times| == |moments| > 0
    ensures var n := |times| - 1;
            var before := ReferenceLog(step, initial, times[..n], moments[..n]);
            var e := step(before.state, times[n], moments[n]);
            ReferenceLog(step, initial, times, moments) == Log(e.state, before.events + [e.event])
  {
  }

  lemma ReferenceStep(rt: Runtime, spec: Spec, whole: Source, first: nat, moments: seq<Moment>)
    requires moments != [] && first + |moments| <= |whole.primary|
    ensures var n := |moments| - 1;
            var before := Reference(rt, spec, Segment(whole, first, n), moments[..n]);
            var e := StepOf(rt, spec)(before.state, whole.primary[first + n].timestamp, moments[n]);
            Reference(rt, spec, Segment(whole, first, n + 1), moments) == Log(e.state, before.events + [e.event])
  {
    hide *;
    var times, n := Segment(whole, first, |moments|), |moments| - 1;
    SegmentFront(whole, first, |moments|);
    SegmentShape(whole, first, |moments|);
    ReferenceIs(rt, spec, times, moments);
    ReferenceIs(rt, spec, times[..n], moments[..n]);
    LogStep(StepOf(rt, spec), NewState(rt, spec), times, moments);
  }

  /** The log in hindsight: one fold over the whole history. */
  function HindsightLog(rt: Runtime, spec: Spec, whole: Source, first: nat, moments: seq<Moment>): Log
    requires first + |moments| <= |whole.primary|
  {
    Reference(rt, spec, Segment(whole, first, |moments|), Hindsight(whole, moments))
  }

  lemma StepInHindsight(rt: Runtime, spec: Spec, state: State, t: int, moment: Moment, other: Moment)
    requires moment.clock == other.clock
    ensures Observe(spec, moment.source, t) == Observe(spec, other.source, t) ==>
            StepOf(rt, spec)(state, t, moment) == StepOf(rt, spec)(state, t, other)
    ensures StepOf(rt, spec)(state, t, moment).event == StepOf(rt, spec)(state, t, other).event ==>
            Observe(spec, moment.source, t) == Observe(spec, other.source, t)
  {
    hide Evaluate, Observe;
    var s, s' := Observe(spec, moment.source, t), Observe(spec, other.source, t);
    ObservedAt(spec, moment.source, t);
    ObservedAt(spec, other.source, t);
    EventShowsSnapshot(rt, spec, s, state, moment.clock);
    EventShowsSnapshot(rt, spec, s', state, other.clock);
    if SnapshotJson(spec, s) == SnapshotJson(spec, s') {
      SnapshotJsonInjective(spec, s, s');
    }
  }

  lemma ObservedAt(spec: Spec, source: Source, t: int)
    ensures Observe(spec, source, t).timestamp == t && Observe(spec, source, t).decisionClose == t + spec.seconds
  {
  }

  lemma EventShowsSnapshot(rt: Runtime, spec: Spec, s: Snapshot, state: State, clock: FloatText)
    ensures Get(Evaluate(rt, spec, s, state, clock).event, "market_snapshot") == Some(SnapshotJson(spec, s))
  {
    hide SnapshotJson, EventHash, Put, Records, Advance;
    var next := NextState(rt, spec, s, state);
    var unsigned := Unsigned(spec.identity, BodyOf(rt, spec, s, state, clock), state.lastHash, next);
    SignedFields(rt.digest, unsigned, "market_snapshot");
    UnsignedFields(spec.identity, BodyOf(rt, spec, s, state, clock), state.lastHash, next);
  }

  lemma {:induction false} RowsJsonInjective(a: seq<Candle>, b: seq<Candle>)
    requires RowsJson(a) == RowsJson(b)
    ensures a == b
    decreases |a|
  {
    hide RowJson;
    if a != [] && b != [] {
      RowJsonInjective(a[0], b[0]);
      RowsJsonInjective(a[1..], b[1..]);
      assert a == [a[0]] + a[1..] && b == [b[0]] + b[1..];
    }
  }

  lemma RowGet(c: Candle, key: string)
    requires key == "timestamp" || key == "open" || key == "high" || key == "low" || key == "close" || key == "volume"
    ensures Get(RowJson(c).members, key) ==
            Some(if key == "timestamp" then Int(c.timestamp)
                 else if key == "open" then CellJson(c.open)
                 else if key == "high" then CellJson(c.high)
                 else if key == "low" then CellJson(c.low)
                 else if key == "close" then CellJson(c.close)
                 else CellJson(c.volume))
  {
    hide Put, Get, CellJson;
    RowKeyShapes();
    var d0: Dict := NoMembers;
    var d1 := Put(d0, "timestamp", Int(c.timestamp));
    var d2 := Put(d1, "open", CellJson(c.open));
    var d3 := Put(d2, "high", CellJson(c.high));
    var d4 := Put(d3, "low", CellJson(c.low));
    var d5 := Put(d4, "close", CellJson(c.close));
    PutGet(d0, "timestamp", Int(c.timestamp), key);
    PutGet(d1, "open", CellJson(c.open), key);
    PutGet(d2, "high", CellJson(c.high), key);
    PutGet(d3, "low", CellJson(c.low), key);
    PutGet(d4, "close", CellJson(c.close), key);
    PutGet(d5, "volume", CellJson(c.volume), key);
  }

  lemma RowKeyShapes()
    ensures |"timestamp"| == 9 && |"open"| == 4 && |"high"| == 4 && |"low"| == 3 && |"close"| == 5 && |"volume"| == 6
    ensures "open"[0] == 'o' && "high"[0] == 'h'
  {
  }

  /** A column is written as the number or text it holds, and as null when it is empty. */
  lemma CellsInjective()
    ensures CellJson(Missing) == Null
    ensures forall n :: CellJson(Whole(n)) == Int(n)
    ensures forall t :: CellJson(Real(t)) == Float(t)
    ensures forall s :: CellJson(Text(s)) == Str(s)
    ensures forall a: Cell, b: Cell :: CellJson(a) == CellJson(b) ==> a == b
  {
  }

  lemma RowJsonInjective(a: Candle, b: Candle)
    ensures RowJson(a) == RowJson(b) ==> a == b
  {
    hide RowJson, Get, CellJson;
    RowKeyShapes();
    if RowJson(a) == RowJson(b) {
      RowFields(a);
      RowFields(b);
      CellsInjective();
    }
  }

  lemma RowFields(c: Candle)
    ensures Get(RowJson(c).members, "timestamp") == Some(Int(c.timestamp))
            && Get(RowJson(c).members, "open") == Some(CellJson(c.open))
    ensures Get(RowJson(c).members, "high") == Some(CellJson(c.high))
            && Get(RowJson(c).members, "low") == Some(CellJson(c.low))
    ensures Get(RowJson(c).members, "close") == Some(CellJson(c.close))
            && Get(RowJson(c).members, "volume") == Some(CellJson(c.volume))
  {
    hide RowJson, Get;
    RowKeyShapes();
    RowGet(c, "timestamp");
    RowGet(c, "open");
    RowGet(c, "high");
    RowGet(c, "low");
    RowGet(c, "close");
    RowGet(c, "volume");
  }

  lemma SnapshotGet(spec: Spec, s: Snapshot, key: string)
    ensures var d := SnapshotJson(spec, s).members;
            && (key == "decision_open_timestamp" ==> Get(d, key) == Some(Int(s.timestamp)))
            && (key == "decision_close_timestamp" ==> Get(d, key) == Some(Int(s.decisionClose)))
            && (key == "primary" ==> Get(d, key) == Some(Arr(RowsJson(s.primary))))
            && (key == "regime" ==> Get(d, key) == Some(Arr(RowsJson(s.regime))))
  {
    hide Put, Get, RowsJson;
    SnapshotKeyShapes();
    var d0: Dict := NoMembers;
    var d1 := Put(d0, "symbol", Str(spec.symbol));
    var d2 := Put(d1, "timeframe", Str(spec.timeframe));
    var d3 := Put(d2, "regime_timeframe", Str(spec.regimeTimeframe));
    var d4 := Put(d3, "decision_open_timestamp", Int(s.timestamp));
    var d5 := Put(d4, "decision_close_timestamp", Int(s.decisionClose));
    var d6 := Put(d5, "primary", Arr(RowsJson(s.primary)));
    PutGet(d3, "decision_open_timestamp", Int(s.timestamp), key);
    PutGet(d4, "decision_close_timestamp", Int(s.decisionClose), key);
    PutGet(d5, "primary", Arr(RowsJson(s.primary)), key);
    PutGet(d6, "regime", Arr(RowsJson(s.regime)), key);
  }

  lemma SnapshotKeyShapes()
    ensures |"decision_open_timestamp"| == 23 && |"decision_close_timestamp"| == 24 && |"primary"| == 7
            && |"regime"| == 6
  {
  }

  lemma SnapshotJsonInjective(spec: Spec, a: Snapshot, b: Snapshot)
    requires SnapshotJson(spec, a) == SnapshotJson(spec, b)
    ensures a.primary == b.primary && a.regime == b.regime
    ensures a.timestamp == b.timestamp && a.decisionClose == b.decisionClose
  {
    SnapshotFields(spec, a);
    SnapshotFields(spec, b);
    hide RowsJson, SnapshotJson, Get;
    RowsJsonInjective(a.primary, b.primary);
    RowsJsonInjective(a.regime, b.regime);
  }

  lemma SnapshotFields(spec: Spec, s: Snapshot)
    ensures var d := SnapshotJson(spec, s).members;
            && Get(d, "decision_open_timestamp") == Some(Int(s.timestamp))
            && Get(d, "decision_close_timestamp") == Some(Int(s.decisionClose))
            && Get(d, "primary") == Some(Arr(RowsJson(s.primary))) && Get(d, "regime") == Some(Arr(RowsJson(s.regime)))
  {
    hide RowsJson, SnapshotJson, Get;
    SnapshotGet(spec, s, "decision_open_timestamp");
    SnapshotGet(spec, s, "decision_close_timestamp");
    SnapshotGet(spec, s, "primary");
    SnapshotGet(spec, s, "regime");
  }

  /** If every candle was judged on the rows of the whole history, the log is the one fold
      over that history. */
  lemma {:induction false} OneFold(rt: Runtime, spec: Spec, whole: Source, first: nat, moments: seq<Moment>)
    requires Seen(spec, whole, first, moments) && SameInHindsight(spec, whole, first, moments)
    ensures Reference(rt, spec, Segment(whole, first, |moments|), moments) ==
            HindsightLog(rt, spec, whole, first, moments)
    decreases |moments|
  {
    hide *;
    SeenBound(spec, whole, first, moments);
    if moments == [] {
      NothingInHindsight(rt, spec, whole, first, moments);
    } else {
      var n := |moments| - 1;
      SeenPrefix(spec, whole, first, moments);
      OneFold(rt, spec, whole, first, moments[..n]);
      LastInHindsight(rt, spec, whole, first, moments);
    }
  }

  /** If one was not, it is not, not even in its events. */
  lemma {:induction false} OneFoldOnlyIf(rt: Runtime, spec: Spec, whole: Source, first: nat, moments: seq<Moment>)
    requires Seen(spec, whole, first, moments)
    requires Reference(rt, spec, Segment(whole, first, |moments|), moments).events ==
             HindsightLog(rt, spec, whole, first, moments).events
    ensures SameInHindsight(spec, whole, first, moments)
    decreases |moments|
  {
    hide *;
    SeenBound(spec, whole, first, moments);
    if moments == [] {
      NothingLate(spec, whole, first, moments);
    } else {
      var n := |moments| - 1;
      SeenPrefix(spec, whole, first, moments);
      LastInHindsight(rt, spec, whole, first, moments);
      OneFoldOnlyIf(rt, spec, whole, first, moments[..n]);
      OneFold(rt, spec, whole, first, moments[..n]);
    }
  }

  /** The last event of the log and of the log in hindsight. */
  lemma LastInHindsight(rt: Runtime, spec: Spec, whole: Source, first: nat, moments: seq<Moment>)
    requires moments != [] && Seen(spec, whole, first, moments)
    requires first + |moments| <= |whole.primary|
    ensures var n := |moments| - 1;
            var a, b := Reference(rt, spec, Segment(whole, first, n), moments[..n]),
              HindsightLog(rt, spec, whole, first, moments[..n]);
            var a', b' := Reference(rt, spec, Segment(whole, first, n + 1), moments),
              HindsightLog(rt, spec, whole, first, moments);
            var same := SameWindowsAt(spec, whole, first + n, moments[n]);
            && (a == b && same ==> a' == b')
            && (a'.events == b'.events ==> a.events == b.events && (a == b ==> same))
  {
    hide *;
    var n := |moments| - 1;
    var t := whole.primary[first + n].timestamp;
    SeenPrefix(spec, whole, first, moments);
    HindsightFront(whole, moments);
    HindsightLogIs(rt, spec, whole, first, moments);
    HindsightLogIs(rt, spec, whole, first, moments[..n]);
    ReferenceStep(rt, spec, whole, first, moments);
    ReferenceStep(rt, spec, whole, first, Hindsight(whole, moments));
    var a, b := Reference(rt, spec, Segment(whole, first, n), moments[..n]),
      HindsightLog(rt, spec, whole, first, moments[..n]);
    var seen := Hindsight(whole, moments)[n];
    HindsightAt(whole, moments, n);
    SameObservation(spec, whole, first + n, moments[n]);
    StepInHindsight(rt, spec, a.state, t, moments[n], seen);
    AppendedEqual(a, b, StepOf(rt, spec)(a.state, t, moments[n]), StepOf(rt, spec)(b.state, t, seen));
  }

  lemma HindsightLogIs(rt: Runtime, spec: Spec, whole: Source, first: nat, moments: seq<Moment>)
    requires first + |moments| <= |whole.primary|
    ensures HindsightLog(rt, spec, whole, first, moments) ==
            Reference(rt, spec, Segment(whole, first, |moments|), Hindsight(whole, moments))
  {
    hide Reference, Segment, Hindsight;
  }

  /** The log is the one fold over the whole history exactly when no candle was judged on
      rows that look different in hindsight. */
  lemma OneFoldIff(rt: Runtime, spec: Spec, whole: Source, first: nat, moments: seq<Moment>)
    requires Seen(spec, whole, first, moments)
    ensures Reference(rt, spec, Segment(whole, first, |moments|), moments) ==
            HindsightLog(rt, spec, whole, first, moments) <==>
            SameInHindsight(spec, whole, first, moments)
  {
    hide *;
    SeenBound(spec, whole, first, moments);
    if SameInHindsight(spec, whole, first, moments) {
      OneFold(rt, spec, whole, first, moments);
    } else if Reference(rt, spec, Segment(whole, first, |moments|), moments) ==
              HindsightLog(rt, spec, whole, first, moments) {
      OneFoldOnlyIf(rt, spec, whole, first, moments);
    }
  }

  lemma NothingLate(spec: Spec, whole: Source, first: nat, moments: seq<Moment>)
    requires moments == [] && first <= |whole.primary|
    ensures SameInHindsight(spec, whole, first, moments)
  {
  }

  lemma NothingInHindsight(rt: Runtime, spec: Spec, whole: Source, first: nat, moments: seq<Moment>)
    requires moments == [] && first <= |whole.primary|
    ensures Reference(rt, spec, Segment(whole, first, |moments|), moments) ==
            HindsightLog(rt, spec, whole, first, moments)
  {
    assert Hindsight(whole, moments) == moments;
  }

  lemma HindsightAt(whole: Source, moments: seq<Moment>, k: nat)
    requires k < |moments|
    ensures Hindsight(whole, moments)[k] == Moment(whole, moments[k].now, moments[k].clock)
  {
  }

  lemma AppendedEqual(a: Log, b: Log, e: Evaluated, f: Evaluated)
    ensures a.events + [e.event] == b.events + [f.event] ==> a.events == b.events && e.event == f.event
  {
    var s, t := a.events + [e.event], b.events + [f.event];
    if s == t {
      assert |s| == |a.events| + 1 && |t| == |b.events| + 1;
      assert s[..|a.events|] == a.events && t[..|b.events|] == b.events;
      assert s[|a.events|] == e.event && t[|b.events|] == f.event;
    }
  }

  // ----- Stores that hold every closed row as it stays

  /** Every row that has closed when the run starts is in its store as it is in the history,
      and no other closed row is. A candle that is still forming may differ. */
  ghost predicate Current(spec: Spec, view: Source, whole: Source, now: real) {
    && (forall c: Candle :: IsClosed(c, spec.seconds, now) ==> (c in view.primary <==> c in whole.primary))
    && (spec.regimeTimeframe != "" ==>
          forall c: Candle :: IsClosed(c, spec.regimeSeconds, now) ==> (c in view.regime <==> c in whole.regime))
  }

  ghost predicate CurrentViews(spec: Spec, plans: seq<RunPlan>, whole: Source) {
    forall i :: 0 <= i < |plans| ==> Current(spec, plans[i].source, whole, plans[i].now)
  }

  lemma CurrentIsSame(spec: Spec, whole: Source, i: nat, moment: Moment)
    requires i < |whole.primary| && SawRow(spec, whole, i, moment)
    requires Current(spec, moment.source, whole, moment.now)
    ensures SameWindowsAt(spec, whole, i, moment)
  {
    hide History, HasRow, Current;
    CurrentHistory(spec, moment.source, whole, moment.now, whole.primary[i].timestamp);
  }

  ghost function PlanOf(m: Moment, plans: seq<RunPlan>): (p: RunPlan)
    requires PlannedBy(m, plans)
    ensures p in plans && m.source == p.source && m.now == p.now
  {
    var p :| p in plans && m.source == p.source && m.now == p.now; p
  }

  lemma NotLate(spec: Spec, whole: Source, first: nat, moments: seq<Moment>, plans: seq<RunPlan>, k: nat)
    requires Seen(spec, whole, first, moments) && Planned(moments, [], plans) && CurrentViews(spec, plans, whole)
             && k < |moments|
    ensures SameWindowsAt(spec, whole, first + k, moments[k])
  {
    hide SawRow, Current, SameWindowsAt, PlannedBy;
    var m := moments[k];
    assert m in moments && m !in [];
    var p := PlanOf(m, plans);
    assert Current(spec, p.source, whole, p.now);
    CurrentIsSame(spec, whole, first + k, m);
  }

  lemma NoneLate(spec: Spec, whole: Source, first: nat, moments: seq<Moment>, plans: seq<RunPlan>)
    requires Seen(spec, whole, first, moments) && Planned(moments, [], plans) && CurrentViews(spec, plans, whole)
    ensures SameInHindsight(spec, whole, first, moments)
  {
    hide Seen, Planned, CurrentViews, SameWindowsAt;
    SeenBound(spec, whole, first, moments);
    forall k | 0 <= k < |moments| ensures SameWindowsAt(spec, whole, first + k, moments[k]) {
      NotLate(spec, whole, first, moments, plans, k);
    }
  }

  /** Over a store in which every row is there, and final, by the time it has closed, a
      surviving schedule leaves the state of one fold over a segment of the history. */
  lemma ExactlyOnceFold(rt: Runtime, spec: Spec, whole: Source, plans: seq<RunPlan>)
    returns (first: nat, moments: seq<Moment>)
    requires spec.Valid() && PositiveTimes(whole)
    requires Reaching(rt, spec, whole, "", plans) && CurrentViews(spec, plans, whole)
    requires Survives(rt, spec, "", false, plans)
    ensures first + |moments| <= |whole.primary|
    ensures LoadDisk(rt, spec, Execute(RunnerOf(rt, spec), "", plans)) ==
            Success(HindsightLog(rt, spec, whole, first, moments).state)
  {
    hide *;
    var tail, unended;
    EmptyStage(rt, spec, whole);
    first, moments, tail, unended := ExactlyOnce(rt, spec, whole, "", 0, [], "", false, plans);
    StageLoads(rt, spec, whole, Execute(RunnerOf(rt, spec), "", plans), first, moments, tail, unended);
    NoneLate(spec, whole, first, moments, plans);
    OneFold(rt, spec, whole, first, moments);
    FoldIs(rt, spec, whole, first, moments);
  }

  // ----- The durable state does not depend on the clock or on the batches

  /** The state without the link to the log, which covers the wall clock readings. */
  function Settled(state: State): State { state.(lastHash := "") }

  lemma StepIgnoresClock(rt: Runtime, spec: Spec, a: State, b: State, t: int, moment: Moment, other: Moment)
    requires Settled(a) == Settled(b) && moment.source == other.source
    ensures Settled(StepOf(rt, spec)(a, t, moment).state) == Settled(StepOf(rt, spec)(b, t, other).state)
  {
    hide Unsigned, BodyOf, EventHash, Signed, Observe, Advance;
  }

  lemma {:induction false} FoldIgnoresClocks(rt: Runtime, spec: Spec, times: seq<int>, moments: seq<Moment>,
                                             others: seq<Moment>)
    requires |times| == |moments| == |others| && forall k :: 0 <= k < |times| ==> moments[k].source == others[k].source
    ensures Settled(Reference(rt, spec, times, moments).state) == Settled(Reference(rt, spec, times, others).state)
    decreases |times|
  {
    hide Evaluate, Observe, StepOf;
    var n := |times|;
    if n > 0 {
      FoldIgnoresClocks(rt, spec, times[..n - 1], moments[..n - 1], others[..n - 1]);
      var a := Reference(rt, spec, times[..n - 1], moments[..n - 1]);
      var b := Reference(rt, spec, times[..n - 1], others[..n - 1]);
      StepIgnoresClock(rt, spec, a.state, b.state, times[n - 1], moments[n - 1], others[n - 1]);
    }
  }

  lemma NonzeroTimes(whole: Source, first: nat, n: nat)
    requires PositiveTimes(whole) && first + n <= |whole.primary|
    ensures forall i :: 0 <= i < n ==> Segment(whole, first, n)[i] != 0
    ensures forall i :: first <= i < first + n ==> whole.primary[i].timestamp > 0
  {
  }

  lemma HindsightIs(rt: Runtime, spec: Spec, whole: Source, first: nat, moments: seq<Moment>)
    requires first + |moments| <= |whole.primary|
    ensures |Segment(whole, first, |moments|)| == |moments| == |Hindsight(whole, moments)|
    ensures HindsightLog(rt, spec, whole, first, moments) ==
            Reference(rt, spec, Segment(whole, first, |moments|), Hindsight(whole, moments))
  {
  }

  lemma SegmentEnds(rt: Runtime, spec: Spec, whole: Source, first: nat, moments: seq<Moment>)
    requires PositiveTimes(whole) && first + |moments| <= |whole.primary|
    ensures var state := HindsightLog(rt, spec, whole, first, moments).state;
            if moments == [] then state.firstTimestamp == 0
            else && state.firstTimestamp == whole.primary[first].timestamp > 0
                 && state.lastTimestamp == whole.primary[first + |moments| - 1].timestamp
  {
    hide *;
    var times := Segment(whole, first, |moments|);
    HindsightIs(rt, spec, whole, first, moments);
    SegmentShape(whole, first, |moments|);
    NonzeroTimes(whole, first, |moments|);
    ReferenceFirst(rt, spec, times, Hindsight(whole, moments));
    ReferenceFields(rt, spec, times, Hindsight(whole, moments));
  }

  lemma RowsByTime(table: Table, i: nat, j: nat)
    requires i < |table| && j < |table|
    ensures table[i].timestamp == table[j].timestamp <==> i == j
  {
  }

  lemma SameEndsSameState(rt: Runtime, spec: Spec, whole: Source, first: nat, moments: seq<Moment>, first': nat,
                          moments': seq<Moment>)
    requires PositiveTimes(whole) && first + |moments| <= |whole.primary| && first' + |moments'| <= |whole.primary|
    ensures var a, b := HindsightLog(rt, spec, whole, first, moments).state,
            HindsightLog(rt, spec, whole, first', moments').state;
            a.firstTimestamp == b.firstTimestamp && a.lastTimestamp == b.lastTimestamp ==> Settled(a) == Settled(b)
  {
    hide *;
    var a, b := HindsightLog(rt, spec, whole, first, moments).state,
      HindsightLog(rt, spec, whole, first', moments').state;
    SegmentEnds(rt, spec, whole, first, moments);
    SegmentEnds(rt, spec, whole, first', moments');
    if a.firstTimestamp == b.firstTimestamp && a.lastTimestamp == b.lastTimestamp {
      if moments == [] {
        EmptySegment(whole, first, first');
      } else {
        RowsByTime(whole.primary, first, first');
        RowsByTime(whole.primary, first + |moments| - 1, first' + |moments'| - 1);
      }
      SameSegmentSameState(rt, spec, whole, first, moments, first', moments');
    }
  }

  lemma SameSegmentSameState(rt: Runtime, spec: Spec, whole: Source, first: nat, moments: seq<Moment>, first': nat,
                             moments': seq<Moment>)
    requires first + |moments| <= |whole.primary| && first' + |moments'| <= |whole.primary|
    requires |moments| == |moments'| && Segment(whole, first, |moments|) == Segment(whole, first', |moments'|)
    ensures Settled(HindsightLog(rt, spec, whole, first, moments).state) ==
            Settled(HindsightLog(rt, spec, whole, first', moments').state)
  {
    hide Reference, Segment, Hindsight, Settled;
    FoldIgnoresClocks(rt, spec, Segment(whole, first, |moments|), Hindsight(whole, moments),
                      Hindsight(whole, moments'));
  }

  lemma EmptySegment(whole: Source, first: nat, first': nat)
    requires first <= |whole.primary| && first' <= |whole.primary|
    ensures Segment(whole, first, 0) == Segment(whole, first', 0)
  {
  }

  /** Batch independence: two surviving schedules of runs over such stores of the same
      history, each with its own crashes, batches and clocks, that started at the
      same candle and got as far as the same candle have the same durable state. */
  lemma BatchIndependence(rt: Runtime, spec: Spec, whole: Source, plans: seq<RunPlan>, plans': seq<RunPlan>)
    requires spec.Valid() && PositiveTimes(whole)
    requires Reaching(rt, spec, whole, "", plans) && CurrentViews(spec, plans, whole)
             && Survives(rt, spec, "", false, plans)
    requires Reaching(rt, spec, whole, "", plans') && CurrentViews(spec, plans', whole)
             && Survives(rt, spec, "", false, plans')
    ensures var a, b := LoadDisk(rt, spec, Execute(RunnerOf(rt, spec), "", plans)),
            LoadDisk(rt, spec, Execute(RunnerOf(rt, spec), "", plans'));
            && a.Success? && b.Success?
            && (a.value.firstTimestamp == b.value.firstTimestamp && a.value.lastTimestamp == b.value.lastTimestamp ==>
                  Settled(a.value) == Settled(b.value))
  {
    hide *;
    var first, moments := ExactlyOnceFold(rt, spec, whole, plans);
    var first', moments' := ExactlyOnceFold(rt, spec, whole, plans');
    SameEndsSameState(rt, spec, whole, first, moments, first', moments');
  }

  // ----- Runs over the bounded snapshot

  /** The snapshot of a store: the newest `maxBars` rows of each table. */
  function SnapshotOf(spec: Spec, live: Source): Source {
    Source(SourceRows(live.primary, spec.maxBars), SourceRows(live.regime, spec.maxBars))
  }

  lemma SnapshotRows(live: Table, limit: nat)
    ensures var rows := SourceRows(live, limit);
            && |rows| == (if |live| <= limit then |live| else limit)
            && forall j :: 0 <= j < |rows| ==> rows[j] == live[|live| - |rows| + j]
  {
    hide Newest;
    NewestRows(live, limit);
  }

  lemma WindowOfWindow(live: Table, whole: Table, rows: Table, d: nat)
    requires WindowAt(live, whole, 0)
    requires d + |rows| == |live| && forall j :: 0 <= j < |rows| ==> rows[j] == live[d + j]
    ensures WindowAt(rows, whole, d)
  {
    forall i | 0 <= i < |rows| ensures rows[i].timestamp == whole[d + i].timestamp {
      assert rows[i] == live[d + i];
    }
  }

  lemma SnapshotWindow(live: Table, whole: Table, limit: nat)
    requires WindowAt(live, whole, 0)
    ensures var rows := SourceRows(live, limit); |rows| <= |live| && WindowAt(rows, whole, |live| - |rows|)
    ensures |SourceRows(live, limit)| == if |live| <= limit then |live| else limit
  {
    hide SourceRows, WindowAt;
    var rows := SourceRows(live, limit);
    SnapshotRows(live, limit);
    WindowOfWindow(live, whole, rows, |live| - |rows|);
  }

  /** A snapshot reaches back to the last evaluated candle exactly when at most `maxBars`
      candles have followed it, unless the snapshot holds no closed candle. With `ReachIff`
      that is exactly when the run takes up the candles without a gap. */
  lemma SnapshotInReach(spec: Spec, live: Source, whole: Source, now: real, next: nat, last: int)
    requires WindowAt(live.primary, whole.primary, 0)
    requires 0 < next <= |whole.primary| && last == whole.primary[next - 1].timestamp > 0
    ensures var rows := SourceRows(live.primary, spec.maxBars);
            && Window(SnapshotOf(spec, live), whole)
            && (InReach(spec, SnapshotOf(spec, live), whole, last, now) <==>
                  || |live.primary| - Through(live.primary, last) <= spec.maxBars
                  || rows == [] || !IsClosed(rows[0], spec.seconds, now))
  {
    hide Through, SourceRows, IsClosed, InReach;
    var rows := SourceRows(live.primary, spec.maxBars);
    SnapshotWindow(live.primary, whole.primary, spec.maxBars);
    ThroughWindow(live.primary, whole.primary, 0, next, last);
    ReachInWindow(spec, SnapshotOf(spec, live), whole, now, |live.primary| - |rows|, next, last);
    if rows != [] {
      SameClosing(rows[0], whole.primary[|live.primary| - |rows|], spec.seconds, now);
    }
  }

  lemma SameClosing(a: Candle, b: Candle, seconds: int, now: real)
    ensures a.timestamp == b.timestamp ==> (IsClosed(a, seconds, now) <==> IsClosed(b, seconds, now))
  {
  }

  /** A candle evaluated over a snapshot of a current store is judged on the rows of the
      whole history exactly when each of its two windows was not cut: the table has at most
      `maxBars` rows, or no row is newer than the window, or the window is empty. */
  lemma SnapshotSameWindows(spec: Spec, live: Source, whole: Source, now: real, t: int)
    requires Current(spec, live, whole, now) && (t + spec.seconds) as real <= now && spec.maxBars > 0
    ensures SameWindows(spec, SnapshotOf(spec, live), whole, t) <==>
            && Uncut(live.primary, t, spec.maxBars)
            && (spec.regimeTimeframe != "" ==> Uncut(live.regime, t + spec.seconds - spec.regimeSeconds, spec.maxBars))
  {
    hide History, Current, Uncut;
    CurrentHistory(spec, live, whole, now, t);
    UncutMeans(live.primary, t, spec.maxBars);
    UncutMeans(live.regime, t + spec.seconds - spec.regimeSeconds, spec.maxBars);
  }

  /** Nothing of the window that ends at `t` is missing in the snapshot of the table. */
  predicate Uncut(table: Table, t: int, limit: nat) {
    Through(table, t) == 0 || |table| <= limit || Through(table, t) == |table|
  }

  lemma UncutMeans(table: Table, t: int, limit: nat)
    requires limit > 0
    ensures History(SourceRows(table, limit), t, limit) == History(table, t, limit) <==> Uncut(table, t, limit)
  {
    SnapshotHistory(table, t, limit);
    HistoryRange(table, t, limit);
  }

  lemma CurrentHistory(spec: Spec, live: Source, whole: Source, now: real, t: int)
    requires Current(spec, live, whole, now) && (t + spec.seconds) as real <= now
    ensures History(live.primary, t, spec.maxBars) == History(whole.primary, t, spec.maxBars)
    ensures var open := t + spec.seconds - spec.regimeSeconds;
            spec.regimeTimeframe != "" ==>
              History(live.regime, open, spec.maxBars) == History(whole.regime, open, spec.maxBars)
  {
    hide History;
    forall c: Candle | c.timestamp <= t ensures c in live.primary <==> c in whole.primary {
      assert IsClosed(c, spec.seconds, now);
    }
    HistoryIgnoresLaterRows(live.primary, whole.primary, t, spec.maxBars);
    if spec.regimeTimeframe != "" {
      var open := t + spec.seconds - spec.regimeSeconds;
      forall c: Candle | c.timestamp <= open ensures c in live.regime <==> c in whole.regime {
        assert IsClosed(c, spec.regimeSeconds, now);
      }
      HistoryIgnoresLaterRows(live.regime, whole.regime, open, spec.maxBars);
    }
  }
}
