/** The shadow worker: one run loads the durable state, evaluates the pending closed
    candles in order and appends one event for each. */
module ShadowEvaluator {
  import opened Wrappers
  import opened Reals
  import opened Drawdown
  import opened Json
  import opened Dictionaries
  import opened CandleStore
  import opened EventLog

  /** A validated spec. `regimeTimeframe` is empty when no regime frame is configured. */
  datatype Spec = Spec(
    identity: Identity,
    candidates: seq<string>,
    symbol: string,
    timeframe: string,
    seconds: int,
    regimeTimeframe: string,
    regimeSeconds: int,
    maxBars: nat)
  {
    ghost predicate Valid() {
      && (forall id :: id in candidates <==> id in identity.candidateIds)
      && |candidates| == 2 && candidates[0] != candidates[1]
      && seconds > 0
      && (regimeTimeframe != "" ==> regimeSeconds > 0)
      && 100 <= maxBars <= 2000
    }
  }

  datatype Source = Source(primary: Table, regime: Table)

  /** What every candidate sees at one closed candle. */
  datatype Snapshot = Snapshot(timestamp: int, decisionClose: int, primary: seq<Candle>, regime: seq<Candle>)

  /** The result of running one strategy and its ledger: the ledger afterwards, whether the
      position it held was left, what that realized, and the marked equity. `fill` is what
      the event says of the fill and the ledger. */
  datatype Outcome = Outcome(
    healthy: bool,
    ledger: Value,
    leftPosition: bool,
    realizedDelta: real,
    equity: real,
    signal: Value,
    fill: Value)

  /** The parts the worker calls: the digest, the strategies with their ledgers, the
      candidate's part of the event (from the outcome, the new statistics and the first and
      current timestamps), the numeric check of a close, and the reading and writing of
      floats. All are functions of their arguments. */
  datatype Runtime = Runtime(
    digest: Digest,
    initialCash: FloatText,
    initialLedger: string -> Value,
    evaluate: (string, Snapshot, Value, Dict) -> Outcome,
    record: (Outcome, Dict, int, int) -> Value,
    closeAllowed: Cell -> bool,
    number: FloatText -> real,
    text: real -> FloatText)
  {
    /** What a number reads as after it has been written. */
    function Round(x: real): real { number(text(x)) }

    function Cash(): real { number(initialCash) }
  }

  // ----- State

  /** How zero is written. */
  const ZERO: FloatText := "0.0"

  function InitialStats(rt: Runtime): Dict {
    hide Put;
    Put(Put(Put(Put(Put(Put(Put(NoMembers,
      KeyOf(Trades), Int(0)),
      KeyOf(PeakEquity), Float(rt.initialCash)),
      KeyOf(MaxDrawdownPct), Float(ZERO)),
      KeyOf(Healthy), Int(0)),
      KeyOf(GrossProfit), Float(ZERO)),
      KeyOf(GrossLoss), Float(ZERO)),
      KeyOf(Failed), Int(0))
  }

  /** What a new candidate starts with. */
  function InitialEntry(rt: Runtime, id: string): Dict {
    hide Put;
    Put(Put(NoMembers, "stats", Obj(InitialStats(rt))), "ledger", rt.initialLedger(id))
  }

  function InitialCandidates(rt: Runtime, ids: seq<string>): Dict {
    if ids == [] then NoMembers else Put(InitialCandidates(rt, ids[1..]), ids[0], Obj(InitialEntry(rt, ids[0])))
  }

  function NewState(rt: Runtime, spec: Spec): State {
    State(0, 0, 0, InitialCandidates(rt, spec.candidates), "")
  }

  // ----- One closed candle

  function Observe(spec: Spec, source: Source, timestamp: int): Snapshot {
    var decisionClose := timestamp + spec.seconds;
    Snapshot(
      timestamp,
      decisionClose,
      History(source.primary, timestamp, spec.maxBars),
      if spec.regimeTimeframe != "" then RegimeHistory(source.regime, spec.regimeSeconds, decisionClose, spec.maxBars)
      else [])
  }

  datatype RunError = LoadFailed(reason: LoadError) | IncompleteSnapshot | BadClose

  /** The checks on a snapshot before any candidate sees it. */
  function Objection(rt: Runtime, snapshot: Snapshot): Option<RunError> {
    var n := |snapshot.primary|;
    if n == 0 || snapshot.primary[n - 1].timestamp != snapshot.timestamp then Some(IncompleteSnapshot)
    else if !rt.closeAllowed(snapshot.primary[n - 1].close) then Some(BadClose)
    else None
  }

  /** The running figures of a candidate, and the keys they are stored under. */
  datatype Figure = Trades | GrossProfit | GrossLoss | PeakEquity | MaxDrawdownPct | Healthy | Failed

  function KeyOf(figure: Figure): string {
    match figure
    case Trades => "trades"
    case GrossProfit => "gross_profit"
    case GrossLoss => "gross_loss"
    case PeakEquity => "peak_equity"
    case MaxDrawdownPct => "max_drawdown_pct"
    case Healthy => "healthy_evaluations"
    case Failed => "failed_evaluations"
  }

  function CountOf(stats: Dict, figure: Figure): int { IntOf(stats, KeyOf(figure)) }

  function CountUp(stats: Dict, figure: Figure): Dict { Put(stats, KeyOf(figure), Int(CountOf(stats, figure) + 1)) }

  /** `float(stats.get(key) or 0.0)` for a figure the worker itself wrote. */
  function RealOf(rt: Runtime, stats: Dict, figure: Figure): real {
    match Get(stats, KeyOf(figure))
    case Some(Float(t)) => rt.number(t)
    case Some(Int(n)) => n as real
    case _ => 0.0
  }

  function PutReal(rt: Runtime, stats: Dict, figure: Figure, x: real): Dict {
    Put(stats, KeyOf(figure), Float(rt.text(x)))
  }

  /** The stored peak; the initial cash stands in for none. */
  function PeakOf(rt: Runtime, stats: Dict): real {
    var peak := RealOf(rt, stats, PeakEquity);
    if peak == 0.0 then rt.Cash() else peak
  }

  function Traded(rt: Runtime, stats: Dict, o: Outcome): Dict {
    if !o.leftPosition then stats
    else
      var counted := CountUp(stats, Trades);
      if o.realizedDelta >= 0.0
        then PutReal(rt, counted, GrossProfit, RealOf(rt, counted, GrossProfit) + o.realizedDelta)
      else PutReal(rt, counted, GrossLoss, RealOf(rt, counted, GrossLoss) + Abs(o.realizedDelta))
  }

  function NextStats(rt: Runtime, stats: Dict, o: Outcome): Dict {
    var traded := Traded(rt, stats, o);
    var peak := Max(PeakOf(rt, traded), o.equity);
    var marked := PutReal(rt, traded, PeakEquity, peak);
    var drawn := PutReal(rt, marked, MaxDrawdownPct, Max(RealOf(rt, marked, MaxDrawdownPct), LossPct(peak, o.equity)));
    CountUp(drawn, if o.healthy then Healthy else Failed)
  }

  function StatsOf(rt: Runtime, candidate: Dict): Dict {
    match Get(candidate, "stats")
    case Some(Obj(stats)) => if stats == NoMembers then InitialStats(rt) else stats
    case _ => InitialStats(rt)
  }

  function LedgerOf(candidate: Dict): Value {
    match Get(candidate, "ledger")
    case Some(v) => v
    case None => Null
  }

  function OutcomeOf(rt: Runtime, id: string, snapshot: Snapshot, candidates: Dict): Outcome {
    var current := FieldsOf(Get(candidates, id));
    rt.evaluate(id, snapshot, LedgerOf(current), StatsOf(rt, current))
  }

  function NextCandidate(rt: Runtime, id: string, snapshot: Snapshot, candidates: Dict): Dict {
    var current := FieldsOf(Get(candidates, id));
    var o := OutcomeOf(rt, id, snapshot, candidates);
    Put(Put(Put(current, "ledger", o.ledger), "stats", Obj(NextStats(rt, StatsOf(rt, current), o))), "last_signal",
        o.signal)
  }

  /** Every candidate in turn; `done` is the dictionary being updated. */
  function Advance(rt: Runtime, ids: seq<string>, snapshot: Snapshot, done: Dict): Dict {
    if ids == [] then done
    else Advance(rt, ids[1..], snapshot, Put(done, ids[0], Obj(NextCandidate(rt, ids[0], snapshot, done))))
  }

  function FirstTimestamp(state: State, timestamp: int): int {
    if state.firstTimestamp == 0 then timestamp else state.firstTimestamp
  }

  function RecordOf(rt: Runtime, id: string, s: Snapshot, state: State): Value {
    var o := OutcomeOf(rt, id, s, state.candidates);
    var stats := NextStats(rt, StatsOf(rt, FieldsOf(Get(state.candidates, id))), o);
    rt.record(o, stats, FirstTimestamp(state, s.timestamp), s.timestamp)
  }

  function Records(rt: Runtime, ids: seq<string>, s: Snapshot, state: State): Dict {
    if ids == [] then NoMembers else Put(Records(rt, ids[1..], s, state), ids[0], RecordOf(rt, ids[0], s, state))
  }

  function CellJson(c: Cell): Value {
    match c
    case Missing => Null
    case Whole(n) => Int(n)
    case Real(t) => Float(t)
    case Text(s) => Str(s)
  }

  function RowJson(c: Candle): (r: Value)
    ensures r.Obj?
  {
    hide Put;
    hide CellJson;
    var t := Put(NoMembers, "timestamp", Int(c.timestamp));
    var oh := Put(Put(t, "open", CellJson(c.open)), "high", CellJson(c.high));
    var lc := Put(Put(oh, "low", CellJson(c.low)), "close", CellJson(c.close));
    Obj(Put(lc, "volume", CellJson(c.volume)))
  }

  function RowsJson(rows: seq<Candle>): (r: Items)
    ensures SortedItems(r)
  {
    if rows == [] then NoItems else Items(RowJson(rows[0]), RowsJson(rows[1..]))
  }

  function SnapshotJson(spec: Spec, s: Snapshot): (r: Value)
    ensures r.Obj?
  {
    hide Put;
    Obj(Put(Put(Put(Put(Put(Put(Put(NoMembers,
      "symbol", Str(spec.symbol)),
      "timeframe", Str(spec.timeframe)),
      "regime_timeframe", Str(spec.regimeTimeframe)),
      "decision_open_timestamp", Int(s.timestamp)),
      "decision_close_timestamp", Int(s.decisionClose)),
      "primary", Arr(RowsJson(s.primary))),
      "regime", Arr(RowsJson(s.regime))))
  }

  function BodyOf(rt: Runtime, spec: Spec, s: Snapshot, state: State, clock: FloatText): EventBody {
    EventBody(
      Obj(Records(rt, spec.candidates, s, state)),
      Float(clock),
      SnapshotJson(spec, s),
      spec.symbol + ":" + spec.timeframe + ":" + IntText(s.timestamp),
      rt.digest(Encode(SnapshotJson(spec, s))))
  }

  /** The state after evaluating a snapshot, before its event is hashed. */
  function NextState(rt: Runtime, spec: Spec, s: Snapshot, state: State): State {
    State(
      s.timestamp,
      FirstTimestamp(state, s.timestamp),
      state.snapshotCount + 1,
      Advance(rt, spec.candidates, s, state.candidates),
      state.lastHash)
  }

  /** An evaluation: the event that is appended and the state that goes with it. */
  datatype Evaluated = Evaluated(state: State, event: Dict)

  function Evaluate(rt: Runtime, spec: Spec, s: Snapshot, state: State, clock: FloatText): Evaluated {
    var next := NextState(rt, spec, s, state);
    var unsigned := Unsigned(spec.identity, BodyOf(rt, spec, s, state, clock), state.lastHash, next);
    Evaluated(next.(lastHash := EventHash(rt.digest, unsigned)), Signed(rt.digest, unsigned))
  }

  // ----- One run

  /** What the environment does while one event is written: the wall clock stamped into
      the event and the byte counts of the successive `os.write` calls. When the list
      ends early the process has died; a count that is not positive raises an error. */
  datatype Env = Env(clock: FloatText, writes: seq<int>)

  /** The bytes of an `n`-byte payload that reach the disk. */
  function Landed(n: nat, writes: seq<int>): (landed: nat)
    ensures landed <= n
    decreases |writes|
  {
    if n == 0 || writes == [] || writes[0] <= 0 then 0
    else if writes[0] >= n then n
    else writes[0] + Landed(n - writes[0], writes[1..])
  }

  /** One more `os.write` of `n` bytes behind the first `done`. */
  lemma SliceExtends(payload: string, done: nat, n: nat)
    requires done + n <= |payload|
    ensures payload[..done] + payload[done..][..n] == payload[..done + n]
  {
  }

  /** How a run ended: all pending candles done, killed between two candles, an append
      that missed its last `missing` bytes, or an error. */
  datatype Stop = Finished | Killed | Cut(missing: nat) | Refused(error: RunError)

  datatype RunResult = RunResult(disk: string, state: State, stop: Stop)

  /** What a run needs to know about its candle source. */
  datatype Market = Market(
    objection: int -> Option<RunError>,
    step: (State, int, FloatText) -> Evaluated)

  function MarketOf(rt: Runtime, spec: Spec, source: Source): Market {
    Market(
      t => Objection(rt, Observe(spec, source, t)),
      (state: State, t: int, clock: FloatText) => Evaluate(rt, spec, Observe(spec, source, t), state, clock))
  }

  /** The disk after repairing its tail and writing a signed event, and how many bytes of
      the event are missing on it. */
  function Append(disk: string, event: Dict, writes: seq<int>): (string, nat) {
    var payload := Line(event);
    var landed := Landed(|payload|, writes);
    (Repair(disk) + payload[..landed], |payload| - landed)
  }

  function RunPending(market: Market, disk: string, state: State, pending: seq<int>, envs: seq<Env>): RunResult
    decreases |pending|
  {
    if pending == [] then RunResult(disk, state, Finished)
    else if envs == [] then RunResult(disk, state, Killed)
    else match market.objection(pending[0])
      case Some(error) => RunResult(disk, state, Refused(error))
      case None =>
        var e := market.step(state, pending[0], envs[0].clock);
        var (disk', missing) := Append(disk, e.event, envs[0].writes);
        if missing > 0 then RunResult(disk', state, Cut(missing))
        else RunPending(market, disk', e.state, pending[1..], envs[1..])
  }

  function LoadDisk(rt: Runtime, spec: Spec, disk: string): Result<State, LoadError> {
    Load(rt.digest, spec.identity, NewState(rt, spec), disk)
  }

  function RunOnce(rt: Runtime, spec: Spec, source: Source, now: real, disk: string, envs: seq<Env>): RunResult {
    match LoadDisk(rt, spec, disk)
    case Failure(reason) => RunResult(disk, NewState(rt, spec), Refused(LoadFailed(reason)))
    case Success(state) =>
      RunPending(MarketOf(rt, spec, source), disk, state,
                 PendingTimestamps(source.primary, spec.seconds, state.lastTimestamp, now), envs)
  }

  // ----- The worker object

  /** `disk` is the content of events.jsonl; a missing file reads as an empty one. */
  class Worker {
    const rt: Runtime
    const spec: Spec
    var disk: string

    constructor (rt: Runtime, spec: Spec, disk: string)
      ensures this.rt == rt && this.spec == spec && this.disk == disk
    {
      this.rt := rt;
      this.spec := spec;
      this.disk := disk;
    }

    method LoadState() returns (r: Result<State, LoadError>)
      ensures r == LoadDisk(rt, spec, disk)
    {
      hide Loads, CheckEvent, Finish, SplitLines, NewState;
      var lines := SplitLines(disk);
      var complete := EndsWithNewline(disk);
      ghost var check := Checker(rt.digest, spec.identity);
      var cursor := FRESH;
      var i := 0;
      while i < |lines|
        invariant 0 <= i <= |lines|
        invariant LoadLines(check, FRESH, lines, complete) == LoadLines(check, cursor, lines[i..], complete)
      {
        ghost var rest := lines[i..];
        assert rest[0] == lines[i] && rest[1..] == lines[i + 1..];
        match Loads(lines[i])
        case None =>
          if i == |lines| - 1 && !complete {
            break;
          }
          return Failure(InvalidJson);
        case Some(v) =>
          match CheckEvent(rt.digest, spec.identity, cursor, v)
          case Failure(error) => return Failure(error);
          case Success(next) => cursor := next;
        i := i + 1;
      }
      r := Finish(spec.identity, NewState(rt, spec), cursor);
    }

    method RepairPartialTail()
      modifies this`disk
      ensures disk == Repair(old(disk))
    {
      var end := |disk|;
      assert disk[..end] == disk;
      while end > 0 && disk[end - 1] != '\n'
        invariant 0 <= end <= |disk|
        invariant Repair(disk[..end]) == Repair(disk)
      {
        assert disk[..end][..end - 1] == disk[..end - 1];
        end := end - 1;
      }
      disk := disk[..end];
    }

    /** The `os.write` loop: `missing` bytes did not reach the disk. */
    method WriteAll(payload: string, writes: seq<int>) returns (missing: nat)
      modifies this`disk
      ensures var landed := Landed(|payload|, writes);
              disk == old(disk) + payload[..landed] && missing == |payload| - landed
    {
      var view := payload;
      var i := 0;
      assert payload[..0] == "" && writes[0..] == writes;
      while view != ""
        invariant 0 <= i <= |writes| && |view| <= |payload|
        invariant var done := |payload| - |view|;
                  && view == payload[done..]
                  && disk == old(disk) + payload[..done]
                  && Landed(|payload|, writes) == done + Landed(|view|, writes[i..])
        decreases |writes| - i
      {
        if i == |writes| || writes[i] <= 0 {
          return |view|;
        }
        var written := if writes[i] >= |view| then |view| else writes[i];
        ghost var done := |payload| - |view|;
        SliceExtends(payload, done, written);
        assert writes[i..][1..] == writes[i + 1..];
        disk := disk + view[..written];
        view := view[written..];
        i := i + 1;
      }
      assert payload[..|payload|] == payload;
      missing := 0;
    }

    method WriteEvent(event: Dict, writes: seq<int>) returns (missing: nat)
      modifies this`disk
      ensures (disk, missing) == Append(old(disk), event, writes)
    {
      RepairPartialTail();
      missing := WriteAll(Line(event), writes);
    }

    /** Repair, sign and write. */
    method AppendEvent(event: Dict, writes: seq<int>) returns (hash: string, missing: nat)
      modifies this`disk
      ensures hash == EventHash(rt.digest, event)
      ensures (disk, missing) == Append(old(disk), Signed(rt.digest, event), writes)
    {
      hash := EventHash(rt.digest, event);
      missing := WriteEvent(Signed(rt.digest, event), writes);
    }

    method EvaluateCandidates(s: Snapshot, before: Dict) returns (candidates: Dict)
      ensures candidates == Advance(rt, spec.candidates, s, before)
    {
      hide Put, NextCandidate;
      candidates := before;
      var i := 0;
      assert spec.candidates[0..] == spec.candidates;
      while i < |spec.candidates|
        invariant 0 <= i <= |spec.candidates|
        invariant Advance(rt, spec.candidates, s, before) == Advance(rt, spec.candidates[i..], s, candidates)
      {
        ghost var rest := spec.candidates[i..];
        assert rest[0] == spec.candidates[i] && rest[1..] == spec.candidates[i + 1..];
        var id := spec.candidates[i];
        candidates := Put(candidates, id, Obj(NextCandidate(rt, id, s, candidates)));
        i := i + 1;
      }
    }

    /** One closed candle: the new state, and the bytes of its event that were lost. */
    method EvaluateTimestamp(source: Source, state: State, timestamp: int, env: Env)
      returns (r: Result<(State, nat), RunError>)
      modifies this`disk
      ensures var market := MarketOf(rt, spec, source);
              match market.objection(timestamp)
              case Some(error) => r == Failure(error) && disk == old(disk)
              case None =>
                var e := market.step(state, timestamp, env.clock);
                && disk == Append(old(disk), e.event, env.writes).0
                && r == Success((e.state, Append(old(disk), e.event, env.writes).1))
    {
      var s := Observe(spec, source, timestamp);
      match Objection(rt, s)
      case Some(error) =>
        r := Failure(error);
      case None =>
        var next, missing := EvaluateSnapshot(s, state, env);
        r := Success((next, missing));
    }

    method EvaluateSnapshot(s: Snapshot, state: State, env: Env) returns (next: State, missing: nat)
      modifies this`disk
      ensures var e := Evaluate(rt, spec, s, state, env.clock);
              next == e.state && (disk, missing) == Append(old(disk), e.event, env.writes)
    {
      hide Put, Advance, BodyOf, Unsigned, Signed, EventHash, Append;
      var candidates := EvaluateCandidates(s, state.candidates);
      var first := FirstTimestamp(state, s.timestamp);
      next := State(s.timestamp, first, state.snapshotCount + 1, candidates, state.lastHash);
      assert next == NextState(rt, spec, s, state);
      var body := BodyOf(rt, spec, s, state, env.clock);
      var hash: string;
      hash, missing := AppendEvent(Unsigned(spec.identity, body, state.lastHash, next), env.writes);
      next := next.(lastHash := hash);
    }

    method RunFrom(source: Source, loaded: State, pending: seq<int>, envs: seq<Env>) returns (state: State, stop: Stop)
      modifies this`disk
      ensures RunResult(disk, state, stop) == RunPending(MarketOf(rt, spec, source), old(disk), loaded, pending, envs)
    {
      ghost var market := MarketOf(rt, spec, source);
      state := loaded;
      var i := 0;
      while i < |pending|
        invariant 0 <= i <= |pending| && i <= |envs|
        invariant RunPending(market, old(disk), loaded, pending, envs)
               == RunPending(market, disk, state, pending[i..], envs[i..])
      {
        ghost var rest, env := pending[i..], envs[i..];
        assert rest[0] == pending[i] && rest[1..] == pending[i + 1..];
        if i == |envs| {
          return state, Killed;
        }
        assert env[0] == envs[i] && env[1..] == envs[i + 1..];
        var r := EvaluateTimestamp(source, state, pending[i], envs[i]);
        match r {
          case Failure(error) => return state, Refused(error);
          case Success((next, missing)) =>
            if missing > 0 {
              return state, Cut(missing);
            }
            state := next;
        }
        i := i + 1;
      }
      stop := Finished;
    }

    method Run(source: Source, now: real, envs: seq<Env>) returns (state: State, stop: Stop)
      modifies this`disk
      ensures RunResult(disk, state, stop) == RunOnce(rt, spec, source, now, old(disk), envs)
    {
      var loaded := LoadState();
      match loaded
      case Failure(reason) =>
        state, stop := NewState(rt, spec), Refused(LoadFailed(reason));
      case Success(s) =>
        var pending := PendingTimestamps(source.primary, spec.seconds, s.lastTimestamp, now);
        state, stop := RunFrom(source, s, pending, envs);
    }
  }
}
