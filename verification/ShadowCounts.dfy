/** What the events and counters of a log say about the candles it covers. */
module ShadowCounts {
  import opened Wrappers
  import opened Reals
  import opened Drawdown
  import opened Json
  import opened Dictionaries
  import opened CandleStore
  import opened EventLog
  import opened EventLogProofs
  import opened ShadowEvaluator
  import opened ShadowTheorems
  import opened ShadowRuns

  // ----- Event timestamps

  /** The candle an event says it evaluated: the `last_timestamp` of its durable state. */
  function EventTime(event: Dict): int { IntOf(FieldsOf(Get(event, "state")), "last_timestamp") }

  lemma EvaluatedTime(rt: Runtime, spec: Spec, s: Snapshot, state: State, clock: FloatText)
    ensures EventTime(Evaluate(rt, spec, s, state, clock).event) == s.timestamp
  {
    hide History, RegimeHistory, EventHash, SnapshotJson, Put;
    var next := NextState(rt, spec, s, state);
    var unsigned := Unsigned(spec.identity, BodyOf(rt, spec, s, state, clock), state.lastHash, next);
    SignedFields(rt.digest, unsigned, "state");
    UnsignedFields(spec.identity, BodyOf(rt, spec, s, state, clock), state.lastHash, next);
    DurableFields(spec.identity, next);
  }

  lemma StepTime(rt: Runtime, spec: Spec, state: State, t: int, moment: Moment)
    ensures EventTime(StepOf(rt, spec)(state, t, moment).event) == t
  {
    hide Evaluate, EventTime;
    EvaluatedTime(rt, spec, Observe(spec, moment.source, t), state, moment.clock);
  }

  /** The events of a log carry the opening times of its candles, one each, in order. */
  lemma {:induction false} EventTimes(rt: Runtime, spec: Spec, times: seq<int>, moments: seq<Moment>)
    requires |times| == |moments|
    ensures HaveTimes(Reference(rt, spec, times, moments).events, times)
    decreases |times|
  {
    hide EventTime, StepOf, HaveTimes;
    var n := |times|;
    if n > 0 {
      EventTimes(rt, spec, times[..n - 1], moments[..n - 1]);
      var before := Reference(rt, spec, times[..n - 1], moments[..n - 1]);
      StepTime(rt, spec, before.state, times[n - 1], moments[n - 1]);
      HaveTimesExtends(before.events, StepOf(rt, spec)(before.state, times[n - 1], moments[n - 1]).event, times);
    } else {
      NoTimes(times);
    }
  }

  predicate HaveTimes(events: seq<Dict>, times: seq<int>) {
    |events| == |times| && forall i :: 0 <= i < |times| ==> EventTime(events[i]) == times[i]
  }

  lemma NoTimes(times: seq<int>)
    ensures times == [] ==> HaveTimes([], times)
  {
  }

  lemma HaveTimesExtends(events: seq<Dict>, event: Dict, times: seq<int>)
    requires times != [] && HaveTimes(events, times[..|times| - 1]) && EventTime(event) == times[|times| - 1]
    ensures HaveTimes(events + [event], times)
  {
    hide EventTime;
  }

  /** Exactly once, as a reader of the log sees it: the events' timestamps are strictly
      increasing and are exactly the rows of the history from the first to the last. */
  lemma LogIsGapFree(rt: Runtime, spec: Spec, whole: Source, first: nat, moments: seq<Moment>)
    requires first + |moments| <= |whole.primary|
    ensures var events := Reference(rt, spec, Segment(whole, first, |moments|), moments).events;
            && |events| == |moments|
            && (forall i :: 0 <= i < |events| ==> EventTime(events[i]) == whole.primary[first + i].timestamp)
            && (forall i, j :: 0 <= i < j < |events| ==> EventTime(events[i]) < EventTime(events[j]))
  {
    hide Reference, EventTime;
    EventTimes(rt, spec, Segment(whole, first, |moments|), moments);
  }

  // ----- Evaluation counters

  /** The stats a state holds for a candidate. */
  function CandidateStats(rt: Runtime, candidates: Dict, id: string): Dict {
    StatsOf(rt, FieldsOf(Get(candidates, id)))
  }

  function Evaluations(stats: Dict): int { CountOf(stats, Healthy) + CountOf(stats, Failed) }

  // ----- One evaluation, figure by figure

  lemma KeysDiffer(f: Figure, g: Figure)
    ensures KeyOf(f) == KeyOf(g) <==> f == g
  {
    KeyLength(f);
    KeyLength(g);
  }

  lemma KeyLength(f: Figure)
    ensures |KeyOf(f)| == match f case Trades => 6 case GrossProfit => 12 case GrossLoss => 10 case PeakEquity => 11
                                  case MaxDrawdownPct => 16 case Healthy => 19 case Failed => 18
  {
  }

  /** What a figure is stored as. */
  function Stored(stats: Dict, f: Figure): Option<Value> { Get(stats, KeyOf(f)) }

  lemma StoredAfter(stats: Dict, f: Figure, value: Value, g: Figure)
    ensures Stored(Put(stats, KeyOf(f), value), g) == if g == f then Some(value) else Stored(stats, g)
  {
    hide KeyOf, Put;
    KeysDiffer(f, g);
    PutGet(stats, KeyOf(f), value, KeyOf(g));
  }

  /** Reading a figure depends only on how it is stored. */
  lemma ReadsStored(rt: Runtime, a: Dict, b: Dict, f: Figure)
    requires Stored(a, f) == Stored(b, f)
    ensures RealOf(rt, a, f) == RealOf(rt, b, f) && CountOf(a, f) == CountOf(b, f)
    ensures f == PeakEquity ==> PeakOf(rt, a) == PeakOf(rt, b)
  {
    hide KeyOf;
  }

  /** What a closed trade does to the figures: it is counted once, and its gain or loss
      goes to the total it belongs to. */
  lemma TradedFigures(rt: Runtime, stats: Dict, o: Outcome, g: Figure)
    ensures Stored(Traded(rt, stats, o), g) ==
      if !o.leftPosition then Stored(stats, g)
      else if g == Trades then Some(Int(CountOf(stats, Trades) + 1))
      else if g == GrossProfit && o.realizedDelta >= 0.0
        then Some(Float(rt.text(RealOf(rt, stats, g) + o.realizedDelta)))
      else if g == GrossLoss && o.realizedDelta < 0.0 then Some(Float(rt.text(RealOf(rt, stats, g) - o.realizedDelta)))
      else Stored(stats, g)
  {
    hide *;
    AtomsAreValues();
    var counted := CountUp(stats, Trades);
    TradedIs(rt, stats, o);
    StoredAfter(stats, Trades, Int(CountOf(stats, Trades) + 1), g);
    StoredAfter(stats, Trades, Int(CountOf(stats, Trades) + 1), GrossProfit);
    StoredAfter(stats, Trades, Int(CountOf(stats, Trades) + 1), GrossLoss);
    ReadsStored(rt, counted, stats, GrossProfit);
    ReadsStored(rt, counted, stats, GrossLoss);
    StoredAfter(counted, GrossProfit, Float(rt.text(RealOf(rt, counted, GrossProfit) + o.realizedDelta)), g);
    StoredAfter(counted, GrossLoss, Float(rt.text(RealOf(rt, counted, GrossLoss) - o.realizedDelta)), g);
  }

  lemma TradedIs(rt: Runtime, stats: Dict, o: Outcome)
    ensures var counted := CountUp(stats, Trades);
            && counted == Put(stats, KeyOf(Trades), Int(CountOf(stats, Trades) + 1))
            && Traded(rt, stats, o) ==
               if !o.leftPosition then stats
               else if o.realizedDelta >= 0.0 then
                 Put(counted, KeyOf(GrossProfit), Float(rt.text(RealOf(rt, counted, GrossProfit) + o.realizedDelta)))
               else Put(counted, KeyOf(GrossLoss), Float(rt.text(RealOf(rt, counted, GrossLoss) - o.realizedDelta)))
  {
    hide Put, CountOf, RealOf, KeyOf, IsFloatText, IntOf, Get;
  }

  /** The figures after an evaluation, each told by the figures before it. */
  lemma NextFigures(rt: Runtime, stats: Dict, o: Outcome, g: Figure)
    ensures var traded := Traded(rt, stats, o);
            var peak := Max(PeakOf(rt, stats), o.equity);
            Stored(NextStats(rt, stats, o), g) ==
            match g
            case PeakEquity => Some(Float(rt.text(peak)))
            case MaxDrawdownPct => Some(Float(rt.text(Max(RealOf(rt, stats, g), LossPct(peak, o.equity)))))
            case Healthy => if o.healthy then Some(Int(CountOf(stats, g) + 1)) else Stored(stats, g)
            case Failed => if o.healthy then Stored(stats, g) else Some(Int(CountOf(stats, g) + 1))
            case _ => Stored(traded, g)
  {
    hide *;
    AtomsAreValues();
    var traded := Traded(rt, stats, o);
    TradedFigures(rt, stats, o, PeakEquity);
    TradedFigures(rt, stats, o, MaxDrawdownPct);
    TradedFigures(rt, stats, o, Healthy);
    TradedFigures(rt, stats, o, Failed);
    ReadsStored(rt, traded, stats, PeakEquity);
    var peak := Max(PeakOf(rt, stats), o.equity);
    var marked := Put(traded, KeyOf(PeakEquity), Float(rt.text(peak)));
    MarkedFigures(rt, stats, traded, PeakEquity, Float(rt.text(peak)));
    var worst := Max(RealOf(rt, stats, MaxDrawdownPct), LossPct(peak, o.equity));
    var drawn := Put(marked, KeyOf(MaxDrawdownPct), Float(rt.text(worst)));
    var health := if o.healthy then Healthy else Failed;
    NextIs(rt, stats, o);
    StoredAfter(traded, PeakEquity, Float(rt.text(peak)), g);
    StoredAfter(traded, PeakEquity, Float(rt.text(peak)), health);
    StoredAfter(marked, MaxDrawdownPct, Float(rt.text(worst)), g);
    StoredAfter(marked, MaxDrawdownPct, Float(rt.text(worst)), health);
    ReadsStored(rt, drawn, stats, health);
    StoredAfter(drawn, health, Int(CountOf(drawn, health) + 1), g);
  }

  lemma NextIs(rt: Runtime, stats: Dict, o: Outcome)
    ensures var traded := Traded(rt, stats, o);
            var peak := Max(PeakOf(rt, traded), o.equity);
            var marked := Put(traded, KeyOf(PeakEquity), Float(rt.text(peak)));
            var worst := Max(RealOf(rt, marked, MaxDrawdownPct), LossPct(peak, o.equity));
            var drawn := Put(marked, KeyOf(MaxDrawdownPct), Float(rt.text(worst)));
            var health := if o.healthy then Healthy else Failed;
            NextStats(rt, stats, o) == Put(drawn, KeyOf(health), Int(CountOf(drawn, health) + 1))
  {
    hide Put, CountOf, RealOf, KeyOf, Traded, PeakOf, LossPct, Max, IsFloatText, IntOf, Get;
  }

  lemma MarkedFigures(rt: Runtime, stats: Dict, traded: Dict, f: Figure, value: Value)
    requires Stored(traded, MaxDrawdownPct) == Stored(stats, MaxDrawdownPct) && f == PeakEquity
    ensures RealOf(rt, Put(traded, KeyOf(f), value), MaxDrawdownPct) == RealOf(rt, stats, MaxDrawdownPct)
  {
    hide KeyOf, Stored, RealOf, Put;
    StoredAfter(traded, f, value, MaxDrawdownPct);
    ReadsStored(rt, Put(traded, KeyOf(f), value), stats, MaxDrawdownPct);
  }

  lemma NextStatsCounts(rt: Runtime, stats: Dict, o: Outcome)
    ensures Evaluations(NextStats(rt, stats, o)) == Evaluations(stats) + 1
    ensures NextStats(rt, stats, o) != NoMembers
  {
    hide NextStats, Traded, KeyOf, RealOf, PeakOf;
    var next := NextStats(rt, stats, o);
    NextFigures(rt, stats, o, Healthy);
    NextFigures(rt, stats, o, Failed);
    NextFigures(rt, stats, o, PeakEquity);
  }

  /** The stats a candidate is left with. */
  lemma NextCandidateStats(rt: Runtime, id: string, s: Snapshot, candidates: Dict)
    ensures StatsOf(rt, NextCandidate(rt, id, s, candidates)) ==
            NextStats(rt, CandidateStats(rt, candidates, id), OutcomeOf(rt, id, s, candidates))
  {
    hide Put, NextStats, Evaluations, InitialStats;
    var current := FieldsOf(Get(candidates, id));
    var o := OutcomeOf(rt, id, s, candidates);
    var stats := NextStats(rt, StatsOf(rt, current), o);
    NextStatsCounts(rt, StatsOf(rt, current), o);
    var withLedger := Put(current, "ledger", o.ledger);
    var withStats := Put(withLedger, "stats", Obj(stats));
    PutGet(withLedger, "stats", Obj(stats), "stats");
    PutGet(withStats, "last_signal", o.signal, "stats");
  }

  /** One candle updates the stats of each of the two candidates by its own outcome, judged
      on the candidates as they were before the candle. */
  lemma AdvanceStats(rt: Runtime, ids: seq<string>, s: Snapshot, done: Dict, id: string)
    requires |ids| == 2 && ids[0] != ids[1] && id in ids
    ensures CandidateStats(rt, Advance(rt, ids, s, done), id) ==
            NextStats(rt, CandidateStats(rt, done, id), OutcomeOf(rt, id, s, done))
  {
    hide NextCandidate, NextStats, Put, StatsOf;
    var a, b := ids[0], ids[1];
    var one := Put(done, a, Obj(NextCandidate(rt, a, s, done)));
    var two := Put(one, b, Obj(NextCandidate(rt, b, s, one)));
    assert Advance(rt, ids, s, done) == Advance(rt, ids[1..], s, one);
    assert ids[1..][0] == b && ids[1..][1..] == [];
    assert Advance(rt, ids[1..], s, one) == Advance(rt, ids[1..][1..], s, two) == two;
    PutGet(done, a, Obj(NextCandidate(rt, a, s, done)), id);
    PutGet(one, b, Obj(NextCandidate(rt, b, s, one)), id);
    if id == a {
      NextCandidateStats(rt, a, s, done);
    } else {
      assert id == b;
      NextCandidateStats(rt, b, s, one);
    }
  }

  lemma EntryStats(rt: Runtime, id: string)
    ensures StatsOf(rt, InitialEntry(rt, id)) == InitialStats(rt)
  {
    hide Put, Get, InitialStats;
    var none: Dict := NoMembers;
    var entry := Put(none, "stats", Obj(InitialStats(rt)));
    assert |"stats"| == 5 && |"ledger"| == 6;
    PutGet(none, "stats", Obj(InitialStats(rt)), "stats");
    PutGet(entry, "ledger", rt.initialLedger(id), "stats");
  }

  lemma NoCandidate(rt: Runtime, id: string)
    ensures CandidateStats(rt, NoMembers, id) == InitialStats(rt)
  {
    hide InitialStats;
  }

  /** A new candidate has the initial stats; an unknown one would too. */
  lemma {:induction false} InitialCandidateStats(rt: Runtime, ids: seq<string>, id: string)
    ensures CandidateStats(rt, InitialCandidates(rt, ids), id) == InitialStats(rt)
    decreases |ids|
  {
    hide Put, InitialStats, InitialEntry, StatsOf, Get;
    if ids == [] {
      NoCandidate(rt, id);
    } else {
      EntryStats(rt, ids[0]);
      PutGet(InitialCandidates(rt, ids[1..]), ids[0], Obj(InitialEntry(rt, ids[0])), id);
      InitialCandidateStats(rt, ids[1..], id);
    }
  }

  /** How a new candidate's figures are stored. */
  lemma InitialStored(rt: Runtime, f: Figure)
    ensures Stored(InitialStats(rt), f) ==
      match f
      case Trades => Some(Int(0))
      case Healthy => Some(Int(0))
      case Failed => Some(Int(0))
      case PeakEquity => Some(Float(rt.initialCash))
      case _ => Some(Float(ZERO))
  {
    hide KeyOf, Stored, IsFloatText, Put;
    var s0: Dict := NoMembers;
    var s1 := Put(s0, KeyOf(Trades), Int(0));
    var s2 := Put(s1, KeyOf(PeakEquity), Float(rt.initialCash));
    var s3 := Put(s2, KeyOf(MaxDrawdownPct), Float(ZERO));
    var s4 := Put(s3, KeyOf(Healthy), Int(0));
    var s5 := Put(s4, KeyOf(GrossProfit), Float(ZERO));
    var s6 := Put(s5, KeyOf(GrossLoss), Float(ZERO));
    StoredAfter(s0, Trades, Int(0), f);
    StoredAfter(s1, PeakEquity, Float(rt.initialCash), f);
    StoredAfter(s2, MaxDrawdownPct, Float(ZERO), f);
    StoredAfter(s3, Healthy, Int(0), f);
    StoredAfter(s4, GrossProfit, Float(ZERO), f);
    StoredAfter(s5, GrossLoss, Float(ZERO), f);
    StoredAfter(s6, Failed, Int(0), f);
  }

  lemma InitialStatsCount(rt: Runtime)
    ensures Evaluations(InitialStats(rt)) == 0
  {
    hide KeyOf, InitialStats;
    InitialStored(rt, Healthy);
    InitialStored(rt, Failed);
  }

  lemma StepCandidates(rt: Runtime, spec: Spec, state: State, t: int, moment: Moment)
    ensures StepOf(rt, spec)(state, t, moment).state.candidates ==
            Advance(rt, spec.candidates, Observe(spec, moment.source, t), state.candidates)
  {
  }

  /** Counters agree: the snapshot count is the number of events, and for each candidate
      the healthy and failed evaluations add up to it. */
  lemma {:induction false} CountersAgree(rt: Runtime, spec: Spec, times: seq<int>, moments: seq<Moment>, id: string)
    requires spec.Valid() && id in spec.candidates && |times| == |moments|
    ensures var log := Reference(rt, spec, times, moments);
            && log.state.snapshotCount == |log.events| == |times|
            && Evaluations(CandidateStats(rt, log.state.candidates, id)) == |times|
    decreases |times|
  {
    hide StepOf, Evaluations, CandidateStats, Advance, Observe, InitialCandidates, InitialStats, NextStats, OutcomeOf;
    var n := |times|;
    ReferenceFields(rt, spec, times, moments);
    if n == 0 {
      InitialCandidateStats(rt, spec.candidates, id);
      InitialStatsCount(rt);
    } else {
      CountersAgree(rt, spec, times[..n - 1], moments[..n - 1], id);
      var before := Reference(rt, spec, times[..n - 1], moments[..n - 1]);
      StepCandidates(rt, spec, before.state, times[n - 1], moments[n - 1]);
      var s := Observe(spec, moments[n - 1].source, times[n - 1]);
      AdvanceStats(rt, spec.candidates, s, before.state.candidates, id);
      NextStatsCounts(rt, CandidateStats(rt, before.state.candidates, id),
                      OutcomeOf(rt, id, s, before.state.candidates));
    }
  }

  lemma KeyNames()
    ensures KeyOf(Trades) == "trades" && KeyOf(GrossProfit) == "gross_profit" && KeyOf(GrossLoss) == "gross_loss"
    ensures KeyOf(PeakEquity) == "peak_equity" && KeyOf(MaxDrawdownPct) == "max_drawdown_pct"
    ensures KeyOf(Healthy) == "healthy_evaluations" && KeyOf(Failed) == "failed_evaluations"
  {
  }

  /** The names the figures are stored under, and what a new candidate starts with. */
  lemma FigureNames(rt: Runtime, stats: Dict)
    ensures Stored(stats, Trades) == Get(stats, "trades") && Stored(stats, GrossProfit) == Get(stats, "gross_profit")
    ensures Stored(stats, GrossLoss) == Get(stats, "gross_loss")
    ensures Stored(stats, PeakEquity) == Get(stats, "peak_equity")
    ensures Stored(stats, MaxDrawdownPct) == Get(stats, "max_drawdown_pct")
    ensures Stored(stats, Healthy) == Get(stats, "healthy_evaluations")
    ensures Stored(stats, Failed) == Get(stats, "failed_evaluations")
    ensures Stored(stats, Trades) == None ==> CountOf(stats, Trades) == 0
    ensures Stored(stats, MaxDrawdownPct) == None ==> RealOf(rt, stats, MaxDrawdownPct) == 0.0
    ensures Get(InitialStats(rt), "trades") == Some(Int(0))
    ensures Get(InitialStats(rt), "peak_equity") == Some(Float(rt.initialCash))
    ensures Get(InitialStats(rt), "max_drawdown_pct") == Some(Float("0.0"))
  {
    hide Get, InitialStats, KeyOf;
    KeyNames();
    InitialStored(rt, Trades);
    InitialStored(rt, PeakEquity);
    InitialStored(rt, MaxDrawdownPct);
  }
}
