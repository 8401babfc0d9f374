/** Schedules over one history that evaluate the same candle and end in different states,
    because their runs saw different rows. */
module ShadowDivergence {
  import opened Wrappers
  import opened Json
  import opened Dictionaries
  import opened CandleStore
  import opened EventLog
  import opened ShadowEvaluator
  import opened ShadowTheorems
  import opened ShadowRuns
  import opened ShadowSchedules
  import opened ShadowHistories
  import opened ShadowFolds

  // ----- One undisturbed first run

  /** A first run that evaluates the one candle `t`. */
  function OneRun(rt: Runtime, spec: Spec, source: Source, t: int, now: real): RunPlan {
    var e := Evaluate(rt, spec, Observe(spec, source, t), NewState(rt, spec), ZERO);
    RunPlan(source, now, [Env(ZERO, [|Line(e.event)|])])
  }

  /** The candle `t` is the one a first run takes up, and nothing is wrong with it. */
  predicate TakesUp(rt: Runtime, spec: Spec, source: Source, t: int, now: real) {
    && PendingTimestamps(source.primary, spec.seconds, 0, now) == [t]
    && Objection(rt, Observe(spec, source, t)) == None
  }

  lemma OneRunParts(rt: Runtime, spec: Spec, source: Source, t: int, now: real)
    ensures var plan := OneRun(rt, spec, source, t, now);
            var e := Evaluate(rt, spec, Observe(spec, source, t), NewState(rt, spec), ZERO);
            plan.source == source && plan.now == now && plan.envs == [Env(ZERO, [|Line(e.event)|])]
  {
    hide Evaluate, Observe, Line;
  }

  lemma EmptyLoads(rt: Runtime, spec: Spec)
    ensures LoadDisk(rt, spec, "") == Success(NewState(rt, spec)) && NewState(rt, spec).lastTimestamp == 0
  {
    assert SplitLines("") == [];
  }

  lemma WholeAppend(market: Market, state: State, t: int)
    requires market.objection(t) == None
    ensures var e := market.step(state, t, ZERO);
            RunPending(market, "", state, [t], [Env(ZERO, [|Line(e.event)|])]).stop == Finished
  {
    hide Repair, Line;
    var n := |Line(market.step(state, t, ZERO).event)|;
    var pending, envs := [t], [Env(ZERO, [n])];
    assert pending[1..] == [] && envs[1..] == [];
    assert Landed(n, [n]) == n;
  }

  lemma MarketIs(rt: Runtime, spec: Spec, source: Source, state: State, t: int)
    ensures MarketOf(rt, spec, source).step(state, t, ZERO) == Evaluate(rt, spec, Observe(spec, source, t), state, ZERO)
  {
    hide Objection, Observe, Evaluate;
  }

  lemma OneRunIs(rt: Runtime, spec: Spec, source: Source, t: int, now: real)
    requires TakesUp(rt, spec, source, t, now)
    ensures var plan := OneRun(rt, spec, source, t, now);
            && RunnerOf(rt, spec)(plan, "") ==
               RunPending(MarketOf(rt, spec, source), "", NewState(rt, spec), [t], plan.envs)
            && RunnerOf(rt, spec)(plan, "").stop == Finished
  {
    hide *;
    var plan := OneRun(rt, spec, source, t, now);
    OneRunParts(rt, spec, source, t, now);
    EmptyLoads(rt, spec);
    TakesUpMeans(rt, spec, source, t, now);
    LoadedRun(rt, spec, plan, "", NewState(rt, spec));
    PendingIs(spec, plan, NewState(rt, spec));
    MarketIs(rt, spec, source, NewState(rt, spec), t);
    MarketObjects(rt, spec, source, t);
    WholeAppend(MarketOf(rt, spec, source), NewState(rt, spec), t);
  }

  lemma TakesUpMeans(rt: Runtime, spec: Spec, source: Source, t: int, now: real)
    requires TakesUp(rt, spec, source, t, now)
    ensures PendingTimestamps(source.primary, spec.seconds, 0, now) == [t]
    ensures Objection(rt, Observe(spec, source, t)) == None
  {
  }

  lemma OneReference(rt: Runtime, spec: Spec, t: int, moments: seq<Moment>)
    requires |moments| == 1
    ensures ReferenceLog(StepOf(rt, spec), NewState(rt, spec), [t], moments).state ==
            StepOf(rt, spec)(NewState(rt, spec), t, moments[0]).state
  {
    hide StepOf, NewState;
    assert [t][..0] == [] && moments[..0] == [];
  }

  lemma EmptyHolds(rt: Runtime, spec: Spec)
    ensures Holds("", StepOf(rt, spec), NewState(rt, spec), [], [], "")
    ensures ReferenceLog(StepOf(rt, spec), NewState(rt, spec), [], []).state == NewState(rt, spec)
  {
    hide StepOf, NewState;
  }

  lemma HeldLoads(rt: Runtime, spec: Spec, disk: string, t: int, moments: seq<Moment>, tail: string)
    requires spec.Valid() && |moments| == 1 && Holds(disk, StepOf(rt, spec), NewState(rt, spec), [t], moments, tail)
    ensures LoadDisk(rt, spec, disk) == Success(StepOf(rt, spec)(NewState(rt, spec), t, moments[0]).state)
  {
    hide StepOf, NewState, Holds, LoadDisk, ReferenceLog, Accepted;
    LoadHolds(Checker(rt.digest, spec.identity), disk, StepOf(rt, spec), NewState(rt, spec), [t], moments, tail);
    WorkerAccepted(rt, spec, [t], moments);
    ScannedLog(rt, spec, disk, Reference(rt, spec, [t], moments));
    OneReference(rt, spec, t, moments);
  }

  lemma OneSchedule(rt: Runtime, spec: Spec, whole: Source, plan: RunPlan)
    requires Window(plan.source, whole) && RunnerOf(rt, spec)(plan, "").stop == Finished
    ensures Execute(RunnerOf(rt, spec), "", [plan]) == RunnerOf(rt, spec)(plan, "").disk
    ensures Survives(rt, spec, "", false, [plan]) && Reaching(rt, spec, whole, "", [plan])
  {
    EmptyLoads(rt, spec);
    hide RunnerOf, LoadDisk, Window;
    assert [plan][1..] == [];
  }

  /** What the one run leaves: the state after the candle as that run saw it. */
  lemma OneRunLeaves(rt: Runtime, spec: Spec, source: Source, whole: Source, t: int, now: real) returns (moment: Moment)
    requires spec.Valid() && Window(source, whole) && TakesUp(rt, spec, source, t, now)
    ensures var plan := OneRun(rt, spec, source, t, now);
            && Survives(rt, spec, "", false, [plan]) && Reaching(rt, spec, whole, "", [plan])
            && moment.source == source
            && LoadDisk(rt, spec, Execute(RunnerOf(rt, spec), "", [plan])) ==
               Success(StepOf(rt, spec)(NewState(rt, spec), t, moment).state)
  {
    hide *;
    var plan := OneRun(rt, spec, source, t, now);
    OneRunParts(rt, spec, source, t, now);
    OneRunIs(rt, spec, source, t, now);
    EmptyHolds(rt, spec);
    MarketAgrees(rt, spec, source, now);
    var k, moments, tail := RunHolds(MarketOf(rt, spec, source), "", StepOf(rt, spec), NewState(rt, spec), [], [], "",
                                     [t], plan.envs, source, now);
    assert [] + [t][..1] == [t];
    HeldLoads(rt, spec, RunnerOf(rt, spec)(plan, "").disk, t, moments, tail);
    moment := moments[0];
    FirstGoesOn(moments, source, now);
    OneSchedule(rt, spec, whole, plan);
  }

  lemma FirstGoesOn(moments: seq<Moment>, source: Source, now: real)
    requires GoesOn([], moments, source, now) && moments != []
    ensures moments[0].source == source
  {
  }

  // ----- Strategies that notice

  function Listed(rows: seq<Candle>): Value {
    hide RowsJson;
    Arr(RowsJson(rows))
  }

  function Then(first: Value, others: Items): (r: Items)
    requires SortedItems(others)
    ensures SortedItems(r)
  {
    Items(first, others)
  }

  /** All rows a candle is judged on. */
  function Shown(s: Snapshot): Value {
    hide Listed, Then;
    Arr(Then(Listed(s.primary), Then(Listed(s.regime), NoItems)))
  }

  /** Strategies whose ledger is the rows they were shown last. */
  function ShowingRuntime(rt: Runtime): Runtime {
    rt.(evaluate := (id: string, s: Snapshot, ledger: Value, stats: Dict) =>
          Outcome(true, Shown(s), false, 0.0, 0.0, Null, Null))
  }

  lemma ShowingTakesUp(rt: Runtime, spec: Spec, source: Source, t: int, now: real)
    ensures TakesUp(ShowingRuntime(rt), spec, source, t, now) <==> TakesUp(rt, spec, source, t, now)
  {
    hide Observe, PendingTimestamps;
  }

  lemma ShownTellsWindows(spec: Spec, a: Source, b: Source, t: int)
    ensures Shown(Observe(spec, a, t)) == Shown(Observe(spec, b, t)) <==> SameWindows(spec, a, b, t)
  {
    hide History, RegimeHistory, RowsJson;
    var x, y := Observe(spec, a, t), Observe(spec, b, t);
    if Shown(x) == Shown(y) {
      RowsJsonInjective(x.primary, y.primary);
      RowsJsonInjective(x.regime, y.regime);
    }
  }

  lemma LastLedger(rt: Runtime, a: string, b: string, s: Snapshot, candidates: Dict)
    ensures LedgerOf(FieldsOf(Get(Advance(rt, [a, b], s, candidates), b))) ==
            OutcomeOf(rt, b, s, NextCandidates(rt, a, s, candidates)).ledger
  {
    hide Put, Get, NextStats;
    var one := Put(candidates, a, Obj(NextCandidate(rt, a, s, candidates)));
    var next := NextCandidate(rt, b, s, one);
    assert [a, b][1..] == [b] && [b][1..] == [];
    assert Advance(rt, [a, b], s, candidates) == Advance(rt, [b], s, one) == Put(one, b, Obj(next));
    PutGet(one, b, Obj(next), b);
    var current, o := FieldsOf(Get(one, b)), OutcomeOf(rt, b, s, one);
    var withLedger := Put(current, "ledger", o.ledger);
    var withStats := Put(withLedger, "stats", Obj(NextStats(rt, StatsOf(rt, current), o)));
    PutGet(withStats, "last_signal", o.signal, "ledger");
    PutGet(withLedger, "stats", Obj(NextStats(rt, StatsOf(rt, current), o)), "ledger");
    PutGet(current, "ledger", o.ledger, "ledger");
  }

  lemma StepLedger(rt: Runtime, spec: Spec, t: int, moment: Moment)
    requires spec.Valid()
    ensures var showing := ShowingRuntime(rt);
            var state := StepOf(showing, spec)(NewState(showing, spec), t, moment).state;
            && LedgerOf(FieldsOf(Get(state.candidates, spec.candidates[1]))) == Shown(Observe(spec, moment.source, t))
            && (t != 0 ==> state.firstTimestamp == t) && state.lastTimestamp == t
  {
    hide *;
    ValidParts(spec);
    var showing := ShowingRuntime(rt);
    var initial := InitialCandidates(showing, spec.candidates);
    StepIs(showing, spec, t, moment);
    LastLedger(showing, spec.candidates[0], spec.candidates[1], Observe(spec, moment.source, t), initial);
    ShownLedger(rt, spec, spec.candidates[1], moment.source, t,
                NextCandidates(showing, spec.candidates[0], Observe(spec, moment.source, t), initial));
  }

  /** Up to its hash, the state depends on the rows alone. */
  lemma StepShows(rt: Runtime, spec: Spec, t: int, state: State, a: Moment, b: Moment)
    requires SameWindows(spec, a.source, b.source, t)
    ensures Settled(StepOf(rt, spec)(state, t, a).state) == Settled(StepOf(rt, spec)(state, t, b).state)
  {
    hide History, RegimeHistory, EventHash, BodyOf, Unsigned, Signed, Advance;
    assert Observe(spec, a.source, t) == Observe(spec, b.source, t);
  }

  function NextCandidates(rt: Runtime, id: string, s: Snapshot, candidates: Dict): Dict {
    Put(candidates, id, Obj(NextCandidate(rt, id, s, candidates)))
  }

  lemma ShownLedger(rt: Runtime, spec: Spec, id: string, source: Source, t: int, candidates: Dict)
    ensures OutcomeOf(ShowingRuntime(rt), id, Observe(spec, source, t), candidates).ledger ==
            Shown(Observe(spec, source, t))
  {
    hide Observe, Get, FieldsOf, Shown;
  }

  lemma StepIs(rt: Runtime, spec: Spec, t: int, moment: Moment)
    requires spec.Valid()
    ensures |spec.candidates| == 2
    ensures var state := StepOf(rt, spec)(NewState(rt, spec), t, moment).state;
            && state.candidates == Advance(rt, [spec.candidates[0], spec.candidates[1]],
                                           Observe(spec, moment.source, t),
                                           InitialCandidates(rt, spec.candidates))
            && (t != 0 ==> state.firstTimestamp == t) && state.lastTimestamp == t
  {
    hide BodyOf, Unsigned, EventHash, Signed, Advance, InitialCandidates, History, RegimeHistory;
    assert spec.candidates == [spec.candidates[0], spec.candidates[1]];
  }

  lemma ValidParts(spec: Spec)
    requires spec.Valid()
    ensures |spec.candidates| == 2 && spec.maxBars >= 100
  {
  }

  /** Two first runs that take up the same candle leave different states exactly when they
      judge it on different rows. */
  lemma RunsDiffer(rt: Runtime, spec: Spec, whole: Source, a: Source, b: Source, t: int, now: real)
    requires spec.Valid() && Window(a, whole) && Window(b, whole) && t > 0
    requires TakesUp(rt, spec, a, t, now) && TakesUp(rt, spec, b, t, now)
    ensures Diverge(ShowingRuntime(rt), spec, whole, OneRun(ShowingRuntime(rt), spec, a, t, now),
                    OneRun(ShowingRuntime(rt), spec, b, t, now)) <==>
            !SameWindows(spec, a, b, t)
  {
    hide *;
    ValidParts(spec);
    var showing := ShowingRuntime(rt);
    ShowingTakesUp(rt, spec, a, t, now);
    ShowingTakesUp(rt, spec, b, t, now);
    var x := OneRunLeaves(showing, spec, a, whole, t, now);
    var y := OneRunLeaves(showing, spec, b, whole, t, now);
    StepLedger(rt, spec, t, x);
    StepLedger(rt, spec, t, y);
    ShownTellsWindows(spec, a, b, t);
    if SameWindows(spec, a, b, t) {
      StepShows(showing, spec, t, NewState(showing, spec), x, y);
    }
    DivergeIff(showing, spec, whole, OneRun(showing, spec, a, t, now), OneRun(showing, spec, b, t, now),
               StepOf(showing, spec)(NewState(showing, spec), t, x).state,
               StepOf(showing, spec)(NewState(showing, spec), t, y).state,
               spec.candidates[1]);
  }

  /** Two schedules of one run each: both reach back far enough and survive, both evaluate
      the same candles, and the states they leave differ. */
  ghost predicate Diverge(rt: Runtime, spec: Spec, whole: Source, p: RunPlan, q: RunPlan) {
    var a := LoadDisk(rt, spec, Execute(RunnerOf(rt, spec), "", [p]));
    var b := LoadDisk(rt, spec, Execute(RunnerOf(rt, spec), "", [q]));
    && Reaching(rt, spec, whole, "", [p]) && Reaching(rt, spec, whole, "", [q])
    && Survives(rt, spec, "", false, [p]) && Survives(rt, spec, "", false, [q])
    && a.Success? && b.Success?
    && a.value.firstTimestamp == b.value.firstTimestamp && a.value.lastTimestamp == b.value.lastTimestamp
    && Settled(a.value) != Settled(b.value)
  }

  lemma DivergeIff(rt: Runtime, spec: Spec, whole: Source, p: RunPlan, q: RunPlan, a: State, b: State, id: string)
    requires Reaching(rt, spec, whole, "", [p]) && Reaching(rt, spec, whole, "", [q])
    requires Survives(rt, spec, "", false, [p]) && Survives(rt, spec, "", false, [q])
    requires LoadDisk(rt, spec, Execute(RunnerOf(rt, spec), "", [p])) == Success(a)
    requires LoadDisk(rt, spec, Execute(RunnerOf(rt, spec), "", [q])) == Success(b)
    requires a.firstTimestamp == b.firstTimestamp && a.lastTimestamp == b.lastTimestamp
    ensures Diverge(rt, spec, whole, p, q) <==> Settled(a) != Settled(b)
    ensures LedgerOf(FieldsOf(Get(a.candidates, id))) != LedgerOf(FieldsOf(Get(b.candidates, id))) ==>
            Settled(a) != Settled(b)
  {
    hide Reaching, Survives, LoadDisk, Execute, RunnerOf, Get, FieldsOf, LedgerOf;
  }

  // ----- A late regime row

  /** The store before regime row `k` arrives. */
  function Without(whole: Source, k: nat): Source
    requires k < |whole.regime|
  {
    Source(whole.primary, whole.regime[..k] + whole.regime[k + 1..])
  }

  lemma WithoutIs(whole: Source, k: nat)
    requires k < |whole.regime|
    ensures Without(whole, k).primary == whole.primary && whole.regime[k] !in Without(whole, k).regime
    ensures Without(whole, k).regime == whole.regime[..k] + whole.regime[k + 1..]
  {
  }

  lemma WithoutThrough(whole: Source, k: nat, open: int)
    requires k < |whole.regime|
    ensures var n := Through(whole.regime, open);
            Through(Without(whole, k).regime, open) == if k < n then n - 1 else n
  {
    var n := Through(whole.regime, open);
    ThroughUnique(Without(whole, k).regime, open, if k < n then n - 1 else n);
  }

  /** Leaving out a row changes a window exactly when the row is in it. */
  lemma WithoutWindow(whole: Source, k: nat, open: int, limit: nat)
    requires k < |whole.regime|
    ensures History(Without(whole, k).regime, open, limit) == History(whole.regime, open, limit) <==>
            whole.regime[k] !in History(whole.regime, open, limit)
  {
    hide *;
    var n, early := Through(whole.regime, open), Without(whole, k).regime;
    WithoutIs(whole, k);
    WithoutThrough(whole, k, open);
    HistoryRange(whole.regime, open, limit);
    HistoryRange(early, open, limit);
    WithoutRange(whole.regime, early, k, n, limit);
  }

  /** The newest rows of the first `n`, with and without row `k`. */
  lemma WithoutRange(rows: Table, early: Table, k: nat, n: nat, limit: nat)
    requires k < |rows| && n <= |rows| && early == rows[..k] + rows[k + 1..]
    ensures var m := if k < n then n - 1 else n;
            && m <= |early|
            && (early[Dropped(m, limit)..m] == rows[Dropped(n, limit)..n] <==> rows[k] !in rows[Dropped(n, limit)..n])
  {
    WithoutSlice(rows, early, k, Dropped(n, limit), n);
    if Dropped(n, limit) <= k < n {
      assert rows[k] !in early[Dropped(n - 1, limit)..n - 1];
    }
  }

  /** The rows `from .. n`, with and without row `k`. */
  lemma WithoutSlice(rows: seq<Candle>, early: seq<Candle>, k: nat, from: nat, n: nat)
    requires k < |rows| && from <= n <= |rows| && Ordered(rows) && early == rows[..k] + rows[k + 1..]
    ensures rows[k] in rows[from..n] <==> from <= k < n
    ensures k < from ==> early[from - 1..n - 1] == rows[from..n]
    ensures n <= k ==> early[from..n] == rows[from..n]
    ensures rows[k] !in early
  {
    if from <= k < n {
      assert rows[from..n][k - from] == rows[k];
    }
  }

  /** The clause about closed rows is needed. Of any history, let one regime row arrive after
      the candle `t` was evaluated: the schedule diverges from one that saw the row exactly
      when the row is one of those that the candle should have been judged on. */
  lemma LateRegimeRow(rt: Runtime, spec: Spec, whole: Source, k: nat, t: int, now: real)
    requires spec.Valid() && spec.regimeTimeframe != "" && k < |whole.regime|
    requires t > 0 && TakesUp(rt, spec, whole, t, now)
    ensures var showing, early := ShowingRuntime(rt), Without(whole, k);
            var p, q := OneRun(showing, spec, early, t, now), OneRun(showing, spec, whole, t, now);
            var judgedOn := RegimeHistory(whole.regime, spec.regimeSeconds, t + spec.seconds, spec.maxBars);
            && TakesUp(rt, spec, early, t, now)
            && CurrentViews(spec, [q], whole)
            && (IsClosed(whole.regime[k], spec.regimeSeconds, now) ==> !CurrentViews(spec, [p], whole))
            && (Diverge(showing, spec, whole, p, q) <==> whole.regime[k] in judgedOn)
  {
    hide *;
    var showing, early := ShowingRuntime(rt), Without(whole, k);
    WithoutIs(whole, k);
    SamePrimary(rt, spec, early, whole, t, now);
    LateWindows(spec, whole, k, t);
    RunsDiffer(rt, spec, whole, early, whole, t, now);
    OneRunParts(showing, spec, early, t, now);
    OneRunParts(showing, spec, whole, t, now);
    LateViews(spec, whole, k, OneRun(showing, spec, early, t, now), OneRun(showing, spec, whole, t, now));
  }

  lemma SamePrimary(rt: Runtime, spec: Spec, a: Source, b: Source, t: int, now: real)
    requires a.primary == b.primary
    ensures TakesUp(rt, spec, a, t, now) <==> TakesUp(rt, spec, b, t, now)
    ensures Window(a, b) && Window(b, b)
  {
    hide PendingTimestamps, History, RegimeHistory;
    assert WindowAt(a.primary, b.primary, 0) && WindowAt(b.primary, b.primary, 0);
  }

  lemma LateWindows(spec: Spec, whole: Source, k: nat, t: int)
    requires spec.regimeTimeframe != "" && k < |whole.regime|
    ensures SameWindows(spec, Without(whole, k), whole, t) <==>
            whole.regime[k] !in RegimeHistory(whole.regime, spec.regimeSeconds, t + spec.seconds, spec.maxBars)
  {
    hide History;
    WithoutIs(whole, k);
    WithoutWindow(whole, k, t + spec.seconds - spec.regimeSeconds, spec.maxBars);
  }

  lemma LateViews(spec: Spec, whole: Source, k: nat, early: RunPlan, late: RunPlan)
    requires spec.regimeTimeframe != "" && k < |whole.regime|
    requires early.source == Without(whole, k) && late.source == whole && early.now == late.now
    ensures CurrentViews(spec, [late], whole)
    ensures IsClosed(whole.regime[k], spec.regimeSeconds, early.now) ==> !CurrentViews(spec, [early], whole)
  {
    hide IsClosed, Without;
    WithoutIs(whole, k);
    assert whole.regime[k] in whole.regime;
    if IsClosed(whole.regime[k], spec.regimeSeconds, early.now) {
      assert !Current(spec, [early][0].source, whole, early.now);
    }
  }

  // ----- A shorter snapshot

  /** The store before and after the last row of the table arrives. */
  function Before(table: Table, regime: Table): Source
    requires table != []
  {
    Source(table[..|table| - 1], regime)
  }

  lemma NewestTaken(spec: Spec, live: Table, k: nat, now: real)
    requires spec.Valid() && k < |live| && |live| - 4 <= k
    requires IsClosed(live[k], spec.seconds, now)
             && forall j :: k < j < |live| ==> !IsClosed(live[j], spec.seconds, now)
    ensures PendingTimestamps(SourceRows(live, spec.maxBars), spec.seconds, 0, now) == [live[k].timestamp]
  {
    hide PendingTimestamps, IsClosed, SourceRows;
    var rows := SourceRows(live, spec.maxBars);
    ClosedMeans(live, spec.seconds, now);
    ClosedMeans(rows, spec.seconds, now);
    SnapshotRows(live, spec.maxBars);
    var d := |live| - |rows|;
    var i := FirstPendingIsNewest(rows, spec.seconds, 0, now);
    assert rows[k - d] == live[k];
    assert forall j :: 0 <= j < |rows| ==> rows[j] == live[d + j];
    if i >= 0 {
      assert rows[i] == live[d + i];
    }
  }

  lemma ThroughIndex(table: Table, k: nat)
    requires k < |table|
    ensures Through(table, table[k].timestamp) == k + 1
  {
    ThroughUnique(table, table[k].timestamp, k + 1);
  }

  /** The window of row `k` in the snapshot of a table longer than the limit. */
  lemma WindowLength(table: Table, limit: nat, k: nat)
    requires 0 < limit < |table| && |table| - limit <= k < |table|
    ensures var window := History(SourceRows(table, limit), table[k].timestamp, limit);
            |window| == k + 1 - (|table| - limit) && window[|window| - 1] == table[k]
  {
    ThroughIndex(table, k);
    SnapshotHistoryRange(table, table[k].timestamp, limit);
  }

  lemma ExactWindow(table: Table, limit: nat, k: nat)
    requires 0 < limit && |table| <= limit && k < |table|
    ensures var window := History(SourceRows(table, limit), table[k].timestamp, limit);
            |window| == k + 1 && window[|window| - 1] == table[k]
  {
    ThroughIndex(table, k);
    SnapshotHistoryRange(table, table[k].timestamp, limit);
  }

  /** Batch independence fails over bounded snapshots of a table longer than the bound,
      even of a store whose closed rows are all there and final: the candle before the last
      is shown `maxBars` rows in the snapshot published before the last row arrives, and one
      row fewer in the next. */
  lemma ShorterSnapshot(rt: Runtime, spec: Spec, table: Table, regime: Table)
    requires spec.Valid() && |table| > spec.maxBars && forall i :: 0 <= i < |table| ==> table[i].timestamp > 0
    requires rt.closeAllowed(table[|table| - 2].close)
    ensures var showing, whole := ShowingRuntime(rt), Source(table, regime);
            var c := table[|table| - 2];
            var now := (c.timestamp + spec.seconds) as real;
            && Current(spec, Before(table, regime), whole, now) && Current(spec, whole, whole, now)
            && Diverge(showing, spec, whole,
                       OneRun(showing, spec, SnapshotOf(spec, Before(table, regime)), c.timestamp, now),
                       OneRun(showing, spec, SnapshotOf(spec, whole), c.timestamp, now))
  {
    hide *;
    ValidParts(spec);
    var n, whole, before := |table|, Source(table, regime), Before(table, regime);
    var c := table[n - 2];
    var now := (c.timestamp + spec.seconds) as real;
    BeforeParts(spec, table, regime, now);
    FullWindows(whole, before, spec);
    SnapshotTakesUp(rt, spec, before, n - 2, now);
    SnapshotTakesUp(rt, spec, whole, n - 2, now);
    ShownLess(spec, table, regime);
    RunsDiffer(rt, spec, whole, SnapshotOf(spec, before), SnapshotOf(spec, whole), c.timestamp, now);
  }

  lemma BeforeParts(spec: Spec, table: Table, regime: Table, now: real)
    requires |table| >= 2 && now == (table[|table| - 2].timestamp + spec.seconds) as real
    ensures var before := Before(table, regime);
            && before.primary == table[..|table| - 1] && before.regime == regime
            && before.primary[|table| - 2] == table[|table| - 2]
            && IsClosed(table[|table| - 2], spec.seconds, now) && !IsClosed(table[|table| - 1], spec.seconds, now)
            && Current(spec, before, Source(table, regime), now)
    ensures Current(spec, Source(table, regime), Source(table, regime), now)
  {
    var before, last := Before(table, regime), table[|table| - 1];
    assert table == table[..|table| - 1] + [last];
    forall c: Candle | IsClosed(c, spec.seconds, now) ensures c in before.primary <==> c in table {
      assert c != last;
    }
  }

  lemma FullWindows(whole: Source, before: Source, spec: Spec)
    requires before.primary <= whole.primary
    ensures Window(SnapshotOf(spec, before), whole) && Window(SnapshotOf(spec, whole), whole)
  {
    hide SourceRows;
    SnapshotWindow(before.primary, whole.primary, spec.maxBars);
    SnapshotWindow(whole.primary, whole.primary, spec.maxBars);
  }

  lemma SnapshotShows(spec: Spec, live: Source, k: nat)
    requires spec.Valid() && |live.primary| >= spec.maxBars && k < |live.primary| && |live.primary| - 2 <= k
    ensures var shown := Observe(spec, SnapshotOf(spec, live), live.primary[k].timestamp).primary;
            |shown| == k + 1 - (|live.primary| - spec.maxBars) && shown != [] && shown[|shown| - 1] == live.primary[k]
  {
    hide SourceRows, History, RegimeHistory;
    if |live.primary| > spec.maxBars {
      WindowLength(live.primary, spec.maxBars, k);
    } else {
      ExactWindow(live.primary, spec.maxBars, k);
    }
  }

  lemma SnapshotTakesUp(rt: Runtime, spec: Spec, live: Source, k: nat, now: real)
    requires spec.Valid() && |live.primary| >= spec.maxBars && k < |live.primary| && |live.primary| - 2 <= k
    requires rt.closeAllowed(live.primary[k].close)
    requires IsClosed(live.primary[k], spec.seconds, now)
    requires forall j :: k < j < |live.primary| ==> !IsClosed(live.primary[j], spec.seconds, now)
    ensures TakesUp(rt, spec, SnapshotOf(spec, live), live.primary[k].timestamp, now)
  {
    hide IsClosed, SourceRows, PendingTimestamps, Observe;
    NewestTaken(spec, live.primary, k, now);
    SnapshotShows(spec, live, k);
    ObservedAt(spec, SnapshotOf(spec, live), live.primary[k].timestamp);
  }

  lemma ShownLess(spec: Spec, table: Table, regime: Table)
    requires spec.Valid() && |table| > spec.maxBars
    ensures !SameWindows(spec, SnapshotOf(spec, Before(table, regime)), SnapshotOf(spec, Source(table, regime)),
                         table[|table| - 2].timestamp)
  {
    hide SourceRows, History;
    var n, before := |table|, Before(table, regime).primary;
    assert before[n - 2] == table[n - 2];
    WindowLength(table, spec.maxBars, n - 2);
    if |before| > spec.maxBars {
      WindowLength(before, spec.maxBars, n - 2);
    } else {
      ExactWindow(before, spec.maxBars, n - 2);
    }
  }
}
