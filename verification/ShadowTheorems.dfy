/** Crash recovery, exactly-once evaluation and batch independence of the shadow worker. */
module ShadowTheorems {
  import opened Wrappers
  import opened Json
  import opened Dictionaries
  import opened JsonProofs
  import opened EventLog
  import opened EventLogProofs
  import opened ShadowEvaluator

  // ----- The reference log: one uninterrupted fold over the candles

  datatype Log = Log(state: State, events: seq<Dict>)

  /** What an evaluation depends on besides the candle and the state: the candle store the
      run saw, when the run started, and the clock reading stamped into the event. */
  datatype Moment = Moment(source: Source, now: real, clock: FloatText)

  type Step = (State, int, Moment) -> Evaluated

  /** Evaluating `times` one after the other, each at its moment, with nothing ever going
      wrong. */
  function ReferenceLog(step: Step, initial: State, times: seq<int>, moments: seq<Moment>): (log: Log)
    requires |times| == |moments|
    ensures |log.events| == |times|
    decreases |times|
  {
    var n := |times|;
    if n == 0 then Log(initial, [])
    else
      var before := ReferenceLog(step, initial, times[..n - 1], moments[..n - 1]);
      var e := step(before.state, times[n - 1], moments[n - 1]);
      Log(e.state, before.events + [e.event])
  }

  /** How the worker's parts fit together: an event evaluated from a loaded state is
      accepted behind the events that state was loaded from, and loads back as the new
      state. */
  ghost predicate Coherent(check: Check, finish: Cursor -> Result<State, LoadError>, step: Step) {
    forall state: State, cursor: Cursor, t: int, moment: Moment
      {:trigger check(cursor, Obj(step(state, t, moment).event))} ::
      finish(cursor) == Success(state) && cursor.previous == state.lastHash ==>
        var e := step(state, t, moment);
        && check(cursor, Obj(e.event)).Success?
        && check(cursor, Obj(e.event)).value.previous == e.state.lastHash
        && finish(check(cursor, Obj(e.event)).value) == Success(e.state)
  }

  /** The log is accepted and loads as the state. */
  ghost predicate Accepted(check: Check, finish: Cursor -> Result<State, LoadError>, log: Log) {
    && Replay(check, log.events).Success?
    && Replay(check, log.events).value.previous == log.state.lastHash
    && finish(Replay(check, log.events).value) == Success(log.state)
  }

  lemma AcceptedExtends(check: Check, finish: Cursor -> Result<State, LoadError>, step: Step, log: Log, t: int,
                        moment: Moment)
    requires Coherent(check, finish, step) && Accepted(check, finish, log)
    ensures var e := step(log.state, t, moment); Accepted(check, finish, Log(e.state, log.events + [e.event]))
  {
    var e := step(log.state, t, moment);
    var cursor := Replay(check, log.events).value;
    ReplayAppend(check, FRESH, log.events, e.event);
    assert check(cursor, Obj(step(log.state, t, moment).event)).Success?;
  }

  /** Every log the worker can build by complete appends is accepted. */
  lemma {:induction false} ReferenceAccepted(check: Check, finish: Cursor -> Result<State, LoadError>, step: Step,
                                             initial: State, times: seq<int>, moments: seq<Moment>)
    requires |times| == |moments|
    requires Coherent(check, finish, step) && Accepted(check, finish, Log(initial, []))
    ensures Accepted(check, finish, ReferenceLog(step, initial, times, moments))
    decreases |times|
  {
    var n := |times|;
    if n > 0 {
      ReferenceAccepted(check, finish, step, initial, times[..n - 1], moments[..n - 1]);
      var before := ReferenceLog(step, initial, times[..n - 1], moments[..n - 1]);
      AcceptedExtends(check, finish, step, before, times[n - 1], moments[n - 1]);
    }
  }

  // ----- What reaches the disk

  function Bytes(writes: seq<int>): int {
    if writes == [] then 0 else writes[0] + Bytes(writes[1..])
  }

  /** As long as every write makes progress, the bytes of an append that reach the disk are
      those the writes took, up to the whole payload. */
  lemma {:induction false} LandedIsSum(n: nat, writes: seq<int>)
    requires forall i :: 0 <= i < |writes| ==> writes[i] > 0
    ensures Bytes(writes) >= 0
    ensures Landed(n, writes) == if Bytes(writes) <= n then Bytes(writes) else n
    decreases |writes|
  {
    if writes != [] {
      LandedIsSum(if writes[0] <= n then n - writes[0] else 0, writes[1..]);
    }
  }

  /** A write without progress is the last one. */
  lemma {:induction false} LandedStops(n: nat, writes: seq<int>, more: seq<int>)
    requires more != [] && more[0] <= 0
    ensures Landed(n, writes + more) == Landed(n, writes)
    decreases |writes|
  {
    if writes == [] {
      assert writes + more == more;
    } else {
      assert (writes + more)[1..] == writes[1..] + more;
      if 0 < writes[0] < n {
        LandedStops(n - writes[0], writes[1..], more);
      }
    }
  }

  // ----- The disk between and during runs

  /** What a crash can leave behind the last complete line. */
  predicate Torn(tail: string) { Printable(tail) && (tail == "" || Loads(tail) == None) }

  /** The disk holds exactly the reference log of these candles, and a torn tail. */
  ghost predicate Holds(disk: string, step: Step, initial: State, times: seq<int>, moments: seq<Moment>, tail: string) {
    && |times| == |moments| && Torn(tail)
    && disk == Frame(ReferenceLog(step, initial, times, moments).events) + tail
  }

  lemma LoadHolds(check: Check, disk: string, step: Step, initial: State, times: seq<int>, moments: seq<Moment>,
                  tail: string)
    requires Holds(disk, step, initial, times, moments, tail)
    ensures Scan(check, disk) == Replay(check, ReferenceLog(step, initial, times, moments).events)
    ensures Repair(disk) == Frame(ReferenceLog(step, initial, times, moments).events)
  {
    ScanTorn(check, ReferenceLog(step, initial, times, moments).events, tail);
    RepairFrame(ReferenceLog(step, initial, times, moments).events, tail);
  }

  lemma TornPrefix(event: Dict, cut: nat)
    requires cut < |Encode(Obj(event))|
    ensures Torn(Encode(Obj(event))[..cut])
  {
    EncodePrintable(Obj(event));
    StrictPrefixDoesNotDecode(Obj(event), cut);
  }

  /** The disk holds the reference log of these candles except for the line end of its
      last event. */
  ghost predicate HoldsUnended(disk: string, step: Step, initial: State, times: seq<int>, moments: seq<Moment>) {
    && |times| == |moments| && times != []
    && var events := ReferenceLog(step, initial, times, moments).events;
       disk == Frame(events[..|events| - 1]) + Encode(Obj(events[|events| - 1]))
  }

  lemma LoadUnended(check: Check, disk: string, step: Step, initial: State, times: seq<int>, moments: seq<Moment>)
    requires HoldsUnended(disk, step, initial, times, moments)
    ensures Scan(check, disk) == Replay(check, ReferenceLog(step, initial, times, moments).events)
  {
    var events := ReferenceLog(step, initial, times, moments).events;
    ScanUnterminated(check, events[..|events| - 1], events[|events| - 1]);
    assert events == events[..|events| - 1] + [events[|events| - 1]];
  }

  lemma RepairUnended(disk: string, step: Step, initial: State, times: seq<int>, moments: seq<Moment>)
    requires HoldsUnended(disk, step, initial, times, moments)
    ensures var n := |times| - 1;
            var front := ReferenceLog(step, initial, times[..n], moments[..n]);
            Holds(Repair(disk), step, initial, times[..n], moments[..n], "") && Repair(disk) == Frame(front.events)
  {
    var events, n := ReferenceLog(step, initial, times, moments).events, |times| - 1;
    EncodePrintable(Obj(events[n]));
    RepairFrame(events[..n], Encode(Obj(events[n])));
    assert events[..n] == ReferenceLog(step, initial, times[..n], moments[..n]).events;
    assert Frame(events[..n]) + "" == Frame(events[..n]);
  }

  /** One append: it adds the next reference event, that event without its line end, or
      only a torn tail. */
  lemma AppendHolds(disk: string, step: Step, initial: State, times: seq<int>, moments: seq<Moment>, tail: string,
                    t: int, moment: Moment, writes: seq<int>) returns (tail': string)
    requires Holds(disk, step, initial, times, moments, tail)
    ensures var log := ReferenceLog(step, initial, times, moments);
            var (disk', missing) := Append(disk, step(log.state, t, moment).event, writes);
            && (missing == 0 ==> Holds(disk', step, initial, times + [t], moments + [moment], ""))
            && (missing == 1 ==> HoldsUnended(disk', step, initial, times + [t], moments + [moment]))
            && (missing > 1 ==> Holds(disk', step, initial, times, moments, tail'))
  {
    hide HoldsUnended, Holds;
    HoldsParts(disk, step, initial, times, moments, tail);
    var log := ReferenceLog(step, initial, times, moments);
    var event := step(log.state, t, moment).event;
    var text := Encode(Obj(event));
    var landed := Landed(|Line(event)|, writes);
    tail' := Line(event)[..landed];
    ReferenceSnoc(step, initial, times, moments, t, moment);
    if landed == |Line(event)| {
      assert tail' == Line(event);
      FrameAppend(log.events, event);
      var after := Frame(log.events + [event]);
      assert after + "" == after;
      HoldsFrom(after, step, initial, times + [t], moments + [moment], "");
    } else if landed < |text| {
      assert tail' == text[..landed];
      TornPrefix(event, landed);
      HoldsFrom(Frame(log.events) + tail', step, initial, times, moments, tail');
    } else {
      assert tail' == text;
      UnendedFrom(log.events, event, step, initial, times + [t], moments + [moment]);
    }
  }

  lemma HoldsParts(disk: string, step: Step, initial: State, times: seq<int>, moments: seq<Moment>, tail: string)
    requires Holds(disk, step, initial, times, moments, tail)
    ensures |times| == |moments|
    ensures Repair(disk) == Frame(ReferenceLog(step, initial, times, moments).events)
  {
    RepairFrame(ReferenceLog(step, initial, times, moments).events, tail);
  }

  lemma HoldsFrom(disk: string, step: Step, initial: State, times: seq<int>, moments: seq<Moment>, tail: string)
    requires |times| == |moments| && Torn(tail)
    requires disk == Frame(ReferenceLog(step, initial, times, moments).events) + tail
    ensures Holds(disk, step, initial, times, moments, tail)
  {
  }

  lemma UnendedFrom(events: seq<Dict>, event: Dict, step: Step, initial: State, times: seq<int>, moments: seq<Moment>)
    requires |times| == |moments| && times != []
    requires ReferenceLog(step, initial, times, moments).events == events + [event]
    ensures HoldsUnended(Frame(events) + Encode(Obj(event)), step, initial, times, moments)
  {
    assert (events + [event])[..|events|] == events;
  }

  lemma ReferenceSnoc(step: Step, initial: State, times: seq<int>, moments: seq<Moment>, t: int, moment: Moment)
    requires |times| == |moments|
    ensures var log := ReferenceLog(step, initial, times, moments);
            var e := step(log.state, t, moment);
            ReferenceLog(step, initial, times + [t], moments + [moment]) == Log(e.state, log.events + [e.event])
  {
    var n := |times|;
    assert (times + [t])[..n] == times && (moments + [moment])[..n] == moments;
  }

  /** The market of a run evaluates every candle as the reference does at the run's
      moments. */
  ghost predicate Agrees(market: Market, step: Step, source: Source, now: real) {
    forall state: State, t: int, clock: FloatText ::
      market.step(state, t, clock) == step(state, t, Moment(source, now, clock))
  }

  /** The moments go on with those of one run. */
  ghost predicate GoesOn(moments: seq<Moment>, moments': seq<Moment>, source: Source, now: real) {
    && moments <= moments'
    && forall i :: |moments| <= i < |moments'| ==> moments'[i].source == source && moments'[i].now == now
  }

  lemma GoesOnNothing(moments: seq<Moment>, source: Source, now: real)
    ensures GoesOn(moments, moments, source, now)
  {
  }

  lemma GoesOnFirst(moments: seq<Moment>, moment: Moment, moments': seq<Moment>)
    requires GoesOn(moments + [moment], moments', moment.source, moment.now)
    ensures GoesOn(moments, moments', moment.source, moment.now)
  {
    assert (moments + [moment])[..|moments|] == moments;
    assert moments'[|moments|] == moment;
  }

  /** A run over pending candles appends a prefix of them to the reference log, whatever
      the environment does. If its last append misses exactly the line end, that event is
      on the disk without its line end. */
  lemma {:induction false} RunHolds(market: Market, disk: string, step: Step, initial: State,
                                    times: seq<int>, moments: seq<Moment>, tail: string,
                                    pending: seq<int>, envs: seq<Env>, source: Source, now: real)
    returns (k: nat, moments': seq<Moment>, tail': string)
    requires Holds(disk, step, initial, times, moments, tail)
    requires Agrees(market, step, source, now)
    ensures var r := RunPending(market, disk, ReferenceLog(step, initial, times, moments).state, pending, envs);
            && k <= |pending| && |moments'| == |moments| + k && GoesOn(moments, moments', source, now)
            && |times + pending[..k]| == |moments'|
            && (r.stop != Cut(1) ==>
                  && Holds(r.disk, step, initial, times + pending[..k], moments', tail')
                  && r.state == ReferenceLog(step, initial, times + pending[..k], moments').state)
            && (r.stop == Cut(1) ==> k > 0 && HoldsUnended(r.disk, step, initial, times + pending[..k], moments'))
            && (r.stop == Finished ==> k == |pending|)
    decreases |pending|
  {
    hide *;
    HoldsParts(disk, step, initial, times, moments, tail);
    GoesOnNothing(moments, source, now);
    var log := ReferenceLog(step, initial, times, moments);
    k, moments', tail' := 0, moments, tail;
    Shift(times, pending, 0);
    if pending == [] || envs == [] || market.objection(pending[0]) != None {
      NothingAppended(market, disk, log.state, pending, envs);
    } else {
      var t, moment := pending[0], Moment(source, now, envs[0].clock);
      var torn := AppendHolds(disk, step, initial, times, moments, tail, t, moment, envs[0].writes);
      var appended := FirstAppend(market, disk, step, log.state, pending, envs, source, now);
      var disk', missing := appended.0, appended.1;
      if missing == 0 {
        ReferenceSnoc(step, initial, times, moments, t, moment);
        k, moments', tail' := RunHolds(market, disk', step, initial, times + [t], moments + [moment], "",
                                       pending[1..], envs[1..], source, now);
        Shift(times, pending, k + 1);
        GoesOnFirst(moments, moment, moments');
        k := k + 1;
      } else if missing == 1 {
        Shift(times, pending, 1);
        assert times + pending[..1] == times + [t];
        k, moments' := 1, moments + [moment];
        GoesOnNothing(moments + [moment], source, now);
        GoesOnFirst(moments, moment, moments');
      } else {
        tail' := torn;
      }
    }
  }

  /** A run whose first candle is not evaluated, or that has none, changes nothing. */
  lemma NothingAppended(market: Market, disk: string, state: State, pending: seq<int>, envs: seq<Env>)
    requires pending == [] || envs == [] || market.objection(pending[0]) != None
    ensures var r := RunPending(market, disk, state, pending, envs);
            r.disk == disk && r.state == state && !r.stop.Cut? && (r.stop == Finished ==> pending == [])
  {
  }

  lemma Shift(times: seq<int>, pending: seq<int>, k: nat)
    requires k <= |pending|
    ensures times + pending[..k] == if k == 0 then times else (times + [pending[0]]) + pending[1..][..k - 1]
  {
    if k > 0 {
      assert pending[..k] == [pending[0]] + pending[1..][..k - 1];
    }
  }

  lemma AgreesAt(market: Market, step: Step, source: Source, now: real, state: State, t: int, clock: FloatText)
    requires Agrees(market, step, source, now)
    ensures market.step(state, t, clock) == step(state, t, Moment(source, now, clock))
  {
  }

  lemma FirstAppend(market: Market, disk: string, step: Step, state: State, pending: seq<int>, envs: seq<Env>,
                    source: Source, now: real)
    returns (appended: (string, nat))
    requires pending != [] && envs != [] && market.objection(pending[0]) == None
    requires Agrees(market, step, source, now)
    ensures var e := step(state, pending[0], Moment(source, now, envs[0].clock));
            && appended == Append(disk, e.event, envs[0].writes)
            && RunPending(market, disk, state, pending, envs) ==
               if appended.1 > 0 then RunResult(appended.0, state, Cut(appended.1))
               else RunPending(market, appended.0, e.state, pending[1..], envs[1..])
  {
    hide Append;
    var moment := Moment(source, now, envs[0].clock);
    AgreesAt(market, step, source, now, state, pending[0], envs[0].clock);
    appended := Append(disk, step(state, pending[0], moment).event, envs[0].writes);
  }

  // ----- A run behind an event without its line end

  /** How such a run goes, if it changes anything: the repair takes the unended event away
      and the run's first event is written in its place. */
  lemma RunAfterUnended(market: Market, disk: string, step: Step, initial: State, times: seq<int>, moments: seq<Moment>,
                        pending: seq<int>, envs: seq<Env>, source: Source, now: real)
    returns (event: Dict, missing: nat, tail: string)
    requires HoldsUnended(disk, step, initial, times, moments)
    requires Agrees(market, step, source, now)
    ensures var n := |times| - 1;
            var log := ReferenceLog(step, initial, times, moments);
            var front := ReferenceLog(step, initial, times[..n], moments[..n]);
            var r := RunPending(market, disk, log.state, pending, envs);
            if pending == [] || envs == [] || market.objection(pending[0]) != None then
              r.disk == disk && r.state == log.state && !r.stop.Cut?
            else
              var e := step(log.state, pending[0], Moment(source, now, envs[0].clock));
              && event == e.event
              && (missing == 0 ==>
                    r == RunPending(market, Frame(front.events + [event]), e.state, pending[1..], envs[1..]))
              && (missing == 1 ==> r == RunResult(Frame(front.events) + Encode(Obj(event)), log.state, Cut(1)))
              && (missing > 1 ==>
                    && r.state == log.state && r.stop == Cut(missing)
                    && Holds(r.disk, step, initial, times[..n], moments[..n], tail))
  {
    hide ReferenceLog, HoldsUnended, Holds, Agrees, RunPending;
    var n := |times| - 1;
    event, missing, tail := NoMembers, 0, "";
    UnendedLength(disk, step, initial, times, moments);
    var log := ReferenceLog(step, initial, times, moments);
    var front := ReferenceLog(step, initial, times[..n], moments[..n]);
    if pending == [] || envs == [] || market.objection(pending[0]) != None {
      NothingAppended(market, disk, log.state, pending, envs);
    } else {
      RepairUnended(disk, step, initial, times, moments);
      var e := step(log.state, pending[0], Moment(source, now, envs[0].clock));
      var appended := FirstAppend(market, disk, step, log.state, pending, envs, source, now);
      event, missing := e.event, appended.1;
      var landed := Landed(|Line(event)|, envs[0].writes);
      tail := Line(event)[..landed];
      if missing == 0 {
        assert tail == Line(event);
        FrameAppend(front.events, event);
      } else if missing == 1 {
        assert tail == Encode(Obj(event));
      } else {
        assert tail == Encode(Obj(event))[..landed];
        TornPrefix(event, landed);
        HoldsFrom(Frame(front.events) + tail, step, initial, times[..n], moments[..n], tail);
      }
    }
  }

  lemma UnendedLength(disk: string, step: Step, initial: State, times: seq<int>, moments: seq<Moment>)
    requires HoldsUnended(disk, step, initial, times, moments)
    ensures |times| == |moments| > 0
  {
  }

  /** Behind events that are refused a run can only add to a log that stays refused. */
  lemma {:induction false} RunStaysBroken(market: Market, check: Check, events: seq<Dict>, state: State,
                                          pending: seq<int>, envs: seq<Env>)
    requires Replay(check, events).Failure?
    ensures Scan(check, RunPending(market, Frame(events), state, pending, envs).disk) == Replay(check, events)
    decreases |pending|
  {
    hide Scan, Replay, Repair;
    if pending == [] || envs == [] || market.objection(pending[0]) != None {
      NothingAppended(market, Frame(events), state, pending, envs);
      ScanBroken(check, events, "");
      assert Frame(events) + "" == Frame(events);
    } else {
      var e := market.step(state, pending[0], envs[0].clock);
      var text := Encode(Obj(e.event));
      var landed := Landed(|Line(e.event)|, envs[0].writes);
      RepairFrame(events, "");
      assert Frame(events) + "" == Frame(events);
      if landed == |Line(e.event)| {
        assert Line(e.event)[..landed] == Line(e.event);
        FrameAppend(events, e.event);
        BrokenAppend(check, events, e.event);
        RunStaysBroken(market, check, events + [e.event], e.state, pending[1..], envs[1..]);
      } else {
        assert Line(e.event)[..landed] == text[..landed];
        EncodePrintable(Obj(e.event));
        ScanBroken(check, events, text[..landed]);
      }
    }
  }

  lemma BrokenAppend(check: Check, events: seq<Dict>, event: Dict)
    requires Replay(check, events).Failure?
    ensures Replay(check, events + [event]) == Replay(check, events)
  {
    ReplayAppend(check, FRESH, events, event);
  }
}
