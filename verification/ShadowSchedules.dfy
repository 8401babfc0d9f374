/** Whole schedules of runs, catch-up batches and crashes, whatever stores the runs see: which
    of them leave a log that loads, and what that log holds. */
module ShadowSchedules {
  import opened Wrappers
  import opened CandleStore
  import opened EventLog
  import opened EventLogProofs
  import opened ShadowEvaluator
  import opened ShadowTheorems
  import opened ShadowRuns
  import opened ShadowRecovery

  function Execute(run: Runner, disk: string, plans: seq<RunPlan>): string
    decreases |plans|
  {
    if plans == [] then disk else Execute(run, run(plans[0], disk).disk, plans[1..])
  }

  /** Whether the last event has no line end after a run; `unended`: whether it had none
      before. */
  predicate UnendedAfter(unended: bool, r: RunResult) { if unended then !r.stop.Cut? else r.stop == Cut(1) }

  /** No crash of the schedule is fatal. Any crash is recovered from but one: an append
      that missed just its line end. And even that is harmless as long as a following run
      that writes at all loses at least two bytes of its first event. */
  predicate Survives(rt: Runtime, spec: Spec, disk: string, unended: bool, plans: seq<RunPlan>)
    decreases |plans|
  {
    plans != [] ==>
      var r := RunnerOf(rt, spec)(plans[0], disk);
      && (unended ==> HarmlessAfterUnended(rt, spec, disk, r))
      && Survives(rt, spec, r.disk, UnendedAfter(unended, r), plans[1..])
  }

  /** The run evaluated no candle to the end, and if it began to write an event, at least
      two bytes of it are missing. */
  predicate HarmlessAfterUnended(rt: Runtime, spec: Spec, disk: string, r: RunResult) {
    LoadDisk(rt, spec, disk) == Success(r.state) && (r.stop.Cut? ==> r.stop.missing > 1)
  }

  // ----- The disk between two runs

  /** The disk holds the reference log of these candles: without the line end of its last
      event if `unended`, else with a torn tail. */
  ghost predicate Stands(rt: Runtime, spec: Spec, disk: string, times: seq<int>, moments: seq<Moment>, tail: string,
                         unended: bool) {
    if unended then HoldsUnended(disk, StepOf(rt, spec), NewState(rt, spec), times, moments)
    else Holds(disk, StepOf(rt, spec), NewState(rt, spec), times, moments, tail)
  }

  lemma StandsLength(rt: Runtime, spec: Spec, disk: string, times: seq<int>, moments: seq<Moment>, tail: string,
                     unended: bool)
    requires Stands(rt, spec, disk, times, moments, tail, unended)
    ensures |times| == |moments| && (unended ==> times != [])
  {
    hide ReferenceLog, Torn;
  }

  lemma StandsLoads(rt: Runtime, spec: Spec, disk: string, times: seq<int>, moments: seq<Moment>, tail: string,
                    unended: bool)
    requires spec.Valid() && Stands(rt, spec, disk, times, moments, tail, unended)
    ensures |times| == |moments| && LoadDisk(rt, spec, disk) == Success(Reference(rt, spec, times, moments).state)
  {
    hide Holds, HoldsUnended, ReferenceLog, StepOf, Accepted, LoadDisk;
    StandsLength(rt, spec, disk, times, moments, tail, unended);
    var check := Checker(rt.digest, spec.identity);
    if unended {
      LoadUnended(check, disk, StepOf(rt, spec), NewState(rt, spec), times, moments);
    } else {
      LoadHolds(check, disk, StepOf(rt, spec), NewState(rt, spec), times, moments, tail);
    }
    WorkerAccepted(rt, spec, times, moments);
    ScannedLog(rt, spec, disk, Reference(rt, spec, times, moments));
  }

  lemma StandsIs(rt: Runtime, spec: Spec, disk: string, times: seq<int>, moments: seq<Moment>, tail: string,
                 unended: bool)
    ensures Stands(rt, spec, disk, times, moments, tail, unended) <==>
            if unended then HoldsUnended(disk, StepOf(rt, spec), NewState(rt, spec), times, moments)
            else Holds(disk, StepOf(rt, spec), NewState(rt, spec), times, moments, tail)
  {
  }

  // ----- A run behind an event without its line end

  lemma {:induction false} CountGrows(rt: Runtime, spec: Spec, source: Source, disk: string, state: State,
                                      pending: seq<int>, envs: seq<Env>)
    ensures RunPending(MarketOf(rt, spec, source), disk, state, pending, envs).state.snapshotCount >=
            state.snapshotCount
    decreases |pending|
  {
    hide Append, Observe, Objection, Advance, BodyOf, Unsigned, Signed, EventHash;
    var market := MarketOf(rt, spec, source);
    if pending != [] && envs != [] && market.objection(pending[0]) == None {
      var e := market.step(state, pending[0], envs[0].clock);
      CountGrows(rt, spec, source, Append(disk, e.event, envs[0].writes).0, e.state, pending[1..], envs[1..]);
    }
  }

  /** The run goes on from the state of the unended event. */
  lemma UnendedRunIs(rt: Runtime, spec: Spec, disk: string, times: seq<int>, moments: seq<Moment>, plan: RunPlan)
    returns (state: State, pending: seq<int>)
    requires spec.Valid() && Stands(rt, spec, disk, times, moments, "", true)
    ensures HoldsUnended(disk, StepOf(rt, spec), NewState(rt, spec), times, moments)
    ensures |times| == |moments| > 0 && LoadDisk(rt, spec, disk) == Success(state)
    ensures state == ReferenceLog(StepOf(rt, spec), NewState(rt, spec), times, moments).state
    ensures RunnerOf(rt, spec)(plan, disk) ==
            RunPending(MarketOf(rt, spec, plan.source), disk, state, pending, plan.envs)
  {
    hide *;
    StandsIs(rt, spec, disk, times, moments, "", true);
    StandsLength(rt, spec, disk, times, moments, "", true);
    StandsLoads(rt, spec, disk, times, moments, "", true);
    ReferenceIs(rt, spec, times, moments);
    state := Reference(rt, spec, times, moments).state;
    pending := PendingOf(spec, plan, state);
    LoadedRun(rt, spec, plan, disk, state);
  }

  /** A harmless run leaves the unended event where it is, or takes it away. */
  lemma HarmlessRun(rt: Runtime, spec: Spec, disk: string, times: seq<int>, moments: seq<Moment>, plan: RunPlan)
    returns (tail: string)
    requires spec.Valid() && Stands(rt, spec, disk, times, moments, "", true)
    requires HarmlessAfterUnended(rt, spec, disk, RunnerOf(rt, spec)(plan, disk))
    ensures |times| == |moments| > 0
    ensures var r, n := RunnerOf(rt, spec)(plan, disk), |times| - 1;
            if r.stop.Cut? then Stands(rt, spec, r.disk, times[..n], moments[..n], tail, false)
            else Stands(rt, spec, r.disk, times, moments, "", true)
  {
    hide *;
    var state, pending := UnendedRunIs(rt, spec, disk, times, moments, plan);
    var r, n := RunnerOf(rt, spec)(plan, disk), |times| - 1;
    MarketAgrees(rt, spec, plan.source, plan.now);
    var market := MarketOf(rt, spec, plan.source);
    var event, missing;
    event, missing, tail := RunAfterUnended(market, disk, StepOf(rt, spec), NewState(rt, spec), times, moments,
                                            pending, plan.envs, plan.source, plan.now);
    HarmlessMeans(rt, spec, disk, r);
    if pending != [] && plan.envs != [] && market.objection(pending[0]) == None && missing == 0 {
      var front := ReferenceLog(StepOf(rt, spec), NewState(rt, spec), times[..n], moments[..n]);
      var moment := Moment(plan.source, plan.now, plan.envs[0].clock);
      var e := StepOf(rt, spec)(state, pending[0], moment);
      StepMoves(rt, spec, state, pending[0], moment);
      CountGrows(rt, spec, plan.source, Frame(front.events + [event]), e.state, pending[1..], plan.envs[1..]);
    }
    StandsIs(rt, spec, r.disk, times, moments, "", true);
    StandsIs(rt, spec, r.disk, times[..n], moments[..n], tail, false);
  }

  lemma HarmlessMeans(rt: Runtime, spec: Spec, disk: string, r: RunResult)
    ensures HarmlessAfterUnended(rt, spec, disk, r) <==>
            LoadDisk(rt, spec, disk) == Success(r.state) && (r.stop.Cut? ==> r.stop.missing > 1)
  {
  }

  lemma FrontLog(rt: Runtime, spec: Spec, times: seq<int>, moments: seq<Moment>) returns (log: Log, e: Evaluated)
    requires spec.Valid() && CollisionFree(rt.digest) && |times| == |moments| > 0
    ensures var n := |times| - 1; log == ReferenceLog(StepOf(rt, spec), NewState(rt, spec), times[..n], moments[..n])
    ensures e.state == ReferenceLog(StepOf(rt, spec), NewState(rt, spec), times, moments).state
    ensures Appending(rt, spec, log, e) && e.state.lastHash != log.state.lastHash
  {
    hide StepOf, Appending;
    var n := |times| - 1;
    log := Reference(rt, spec, times[..n], moments[..n]);
    e := StepOf(rt, spec)(log.state, times[n], moments[n]);
    WorkerAppending(rt, spec, times[..n], moments[..n], times[n], moments[n]);
    NextHashDiffers(rt, spec, times[..n], moments[..n], times[n], moments[n]);
  }

  /** Any other run ends in a log that is refused. */
  lemma HarmfulRun(rt: Runtime, spec: Spec, disk: string, times: seq<int>, moments: seq<Moment>, plan: RunPlan)
    requires spec.Valid() && CollisionFree(rt.digest) && Stands(rt, spec, disk, times, moments, "", true)
    requires !HarmlessAfterUnended(rt, spec, disk, RunnerOf(rt, spec)(plan, disk))
    ensures LoadDisk(rt, spec, RunnerOf(rt, spec)(plan, disk).disk) == Failure(BrokenChain)
  {
    hide *;
    var state, pending := UnendedRunIs(rt, spec, disk, times, moments, plan);
    MarketAgrees(rt, spec, plan.source, plan.now);
    var market := MarketOf(rt, spec, plan.source);
    var event, missing, tail := RunAfterUnended(market, disk, StepOf(rt, spec), NewState(rt, spec), times, moments,
                                                pending, plan.envs, plan.source, plan.now);
    HarmlessMeans(rt, spec, disk, RunnerOf(rt, spec)(plan, disk));
    if pending != [] && plan.envs != [] && market.objection(pending[0]) == None {
      var moment := Moment(plan.source, plan.now, plan.envs[0].clock);
      var log, e := FrontLog(rt, spec, times, moments);
      WrongLink(rt, spec, log, e, pending[0], moment);
      var check := Checker(rt.digest, spec.identity);
      if missing == 0 {
        RunStaysBroken(market, check, log.events + [event], StepOf(rt, spec)(state, pending[0], moment).state,
                       pending[1..], plan.envs[1..]);
      } else {
        ScanUnterminated(check, log.events, event);
      }
      ScanFails(rt, spec, RunnerOf(rt, spec)(plan, disk).disk, BrokenChain);
    }
  }

  // ----- What one run makes of the log

  /** The run adds some of its pending candles behind the others; behind an unended event
      it leaves the log as it is or takes that event away. */
  ghost predicate Continues(plan: RunPlan, pending: seq<int>, times: seq<int>, moments: seq<Moment>, unended: bool,
                            times': seq<int>, moments': seq<Moment>, unended': bool) {
    && |times| == |moments| && |times'| == |moments'|
    && if !unended then
         && GoesOn(moments, moments', plan.source, plan.now)
         && exists k :: 0 <= k <= |pending| && times' == times + pending[..k] && (unended' ==> k > 0)
       else
         && times != []
         && times' == (if unended' then times else times[..|times| - 1])
         && moments' == (if unended' then moments else moments[..|times| - 1])
  }

  lemma Added(plan: RunPlan, pending: seq<int>, times: seq<int>, moments: seq<Moment>, times': seq<int>,
              moments': seq<Moment>, unended': bool, k: nat)
    requires |times| == |moments| && |times'| == |moments'| && GoesOn(moments, moments', plan.source, plan.now)
    requires k <= |pending| && times' == times + pending[..k] && (unended' ==> k > 0)
    ensures Continues(plan, pending, times, moments, false, times', moments', unended')
  {
  }

  lemma Removed(plan: RunPlan, pending: seq<int>, times: seq<int>, moments: seq<Moment>, times': seq<int>,
                moments': seq<Moment>, unended': bool)
    requires |times| == |moments| > 0
    requires times' == (if unended' then times else times[..|times| - 1])
    requires moments' == (if unended' then moments else moments[..|times| - 1])
    ensures Continues(plan, pending, times, moments, true, times', moments', unended')
  {
  }

  /** One run that is not fatal leads from one reference log to another. */
  lemma StandsRun(rt: Runtime, spec: Spec, disk: string, times: seq<int>, moments: seq<Moment>, tail: string,
                  unended: bool, plan: RunPlan)
    returns (times': seq<int>, moments': seq<Moment>, tail': string)
    requires spec.Valid() && Stands(rt, spec, disk, times, moments, tail, unended)
    requires unended ==> HarmlessAfterUnended(rt, spec, disk, RunnerOf(rt, spec)(plan, disk))
    ensures |times| == |moments|
    ensures var r := RunnerOf(rt, spec)(plan, disk);
            var pending := PendingOf(spec, plan, Reference(rt, spec, times, moments).state);
            && Stands(rt, spec, r.disk, times', moments', tail', UnendedAfter(unended, r))
            && Continues(plan, pending, times, moments, unended, times', moments', UnendedAfter(unended, r))
  {
    hide *;
    StandsLoads(rt, spec, disk, times, moments, tail, unended);
    var r, state := RunnerOf(rt, spec)(plan, disk), Reference(rt, spec, times, moments).state;
    var pending, unended' := PendingOf(spec, plan, state), UnendedAfter(unended, r);
    UnendedAfterIs(unended, r);
    StandsIs(rt, spec, disk, times, moments, tail, unended);
    if unended {
      StandsIs(rt, spec, disk, times, moments, "", unended);
      tail' := HarmlessRun(rt, spec, disk, times, moments, plan);
      times', moments' := times, moments;
      if r.stop.Cut? {
        times', moments' := times[..|times| - 1], moments[..|times| - 1];
      }
      Removed(plan, pending, times, moments, times', moments', unended');
    } else {
      ReferenceIs(rt, spec, times, moments);
      LoadedRun(rt, spec, plan, disk, state);
      MarketAgrees(rt, spec, plan.source, plan.now);
      var k;
      k, moments', tail' := RunHolds(MarketOf(rt, spec, plan.source), disk, StepOf(rt, spec), NewState(rt, spec), times,
                                     moments, tail, pending, plan.envs, plan.source, plan.now);
      times' := times + pending[..k];
      StandsIs(rt, spec, r.disk, times', moments', tail', unended');
      Added(plan, pending, times, moments, times', moments', unended', k);
    }
    StandsIs(rt, spec, r.disk, times', moments', tail', unended');
    StandsIs(rt, spec, r.disk, times', moments', "", unended');
  }

  lemma UnendedAfterIs(unended: bool, r: RunResult)
    ensures UnendedAfter(unended, r) == if unended then !r.stop.Cut? else r.stop == Cut(1)
  {
  }

  // ----- Candles evaluated at most once, in order

  /** Positive opening times in strictly increasing order. */
  ghost predicate Increasing(times: seq<int>) {
    && (forall i :: 0 <= i < |times| ==> times[i] > 0)
    && (forall i, j :: 0 <= i < j < |times| ==> times[i] < times[j])
  }

  /** Every row the runs see opens after the epoch. */
  ghost predicate PositivePlans(plans: seq<RunPlan>) {
    forall i :: 0 <= i < |plans| ==> PositiveTimes(plans[i].source)
  }

  /** The run at the moment had the candle in its store, after it had closed. */
  ghost predicate Saw(spec: Spec, t: int, moment: Moment) {
    HasRow(moment.source, t) && (t + spec.seconds) as real <= moment.now
  }

  ghost predicate AllSaw(spec: Spec, times: seq<int>, moments: seq<Moment>) {
    |times| == |moments| && forall i :: 0 <= i < |times| ==> Saw(spec, times[i], moments[i])
  }

  /** The candles whose events have their line ends. */
  function Firm(times: seq<int>, unended: bool): seq<int> {
    if unended && times != [] then times[..|times| - 1] else times
  }

  /** The pending candles of a run are closed rows of its store, behind the last evaluated
      one and in order. */
  lemma PendingRows(spec: Spec, plan: RunPlan, state: State)
    ensures var pending := PendingOf(spec, plan, state);
            && (forall i :: 0 <= i < |pending| ==>
                  HasRow(plan.source, pending[i]) && (pending[i] + spec.seconds) as real <= plan.now)
            && (forall i, j :: 0 <= i < j < |pending| ==> pending[i] < pending[j])
            && (state.lastTimestamp > 0 ==> forall i :: 0 <= i < |pending| ==> state.lastTimestamp < pending[i])
  {
    var table, last, pending := plan.source.primary, state.lastTimestamp, PendingOf(spec, plan, state);
    hide PendingTimestamps, Through, HasRow;
    if last <= 0 {
      var i := FirstPendingIsNewest(table, spec.seconds, last, plan.now);
      if i >= 0 {
        RowOf(plan.source, i);
      }
    } else {
      var n := Through(table, last);
      var k := PendingIsNextSegment(table, spec.seconds, last, plan.now);
      forall i | 0 <= i < k
        ensures pending[i] == table[n + i].timestamp > last && HasRow(plan.source, pending[i])
        ensures IsClosed(table[n + i], spec.seconds, plan.now) {
        assert pending[i] == table[n..n + k][i].timestamp;
        RowOf(plan.source, n + i);
      }
    }
  }

  lemma RowOf(source: Source, i: nat)
    requires i < |source.primary|
    ensures HasRow(source, source.primary[i].timestamp)
  {
    assert source.primary[i] in source.primary;
  }

  lemma IncreasingPrefix(times: seq<int>, all: seq<int>)
    requires Increasing(all) && times <= all
    ensures Increasing(times)
  {
  }

  lemma PendingIncrease(spec: Spec, plan: RunPlan, state: State, times: seq<int>)
    requires Increasing(times) && PositiveTimes(plan.source)
    requires state.lastTimestamp == if times == [] then 0 else times[|times| - 1]
    ensures Increasing(times + PendingOf(spec, plan, state))
  {
    var pending := PendingOf(spec, plan, state);
    PendingRows(spec, plan, state);
    hide PendingOf;
    forall i | 0 <= i < |pending| ensures pending[i] > 0 {
      assert HasRow(plan.source, pending[i]);
      var c :| c in plan.source.primary && c.timestamp == pending[i];
    }
  }

  lemma StepIncreases(spec: Spec, plan: RunPlan, state: State, times: seq<int>, moments: seq<Moment>, unended: bool,
                      times': seq<int>, moments': seq<Moment>, unended': bool)
    requires Continues(plan, PendingOf(spec, plan, state), times, moments, unended, times', moments', unended')
    requires state.lastTimestamp == if times == [] then 0 else times[|times| - 1]
    requires Increasing(times) && PositiveTimes(plan.source)
    ensures Increasing(times')
  {
    hide Increasing, PositiveTimes, PendingOf, GoesOn;
    var pending := PendingOf(spec, plan, state);
    if unended {
      IncreasingPrefix(times', times);
    } else {
      var k :| 0 <= k <= |pending| && times' == times + pending[..k];
      PendingIncrease(spec, plan, state, times);
      assert times' <= times + pending;
      IncreasingPrefix(times', times + pending);
    }
  }

  lemma StepSaw(spec: Spec, plan: RunPlan, state: State, times: seq<int>, moments: seq<Moment>, unended: bool,
                times': seq<int>, moments': seq<Moment>, unended': bool)
    requires Continues(plan, PendingOf(spec, plan, state), times, moments, unended, times', moments', unended')
    requires AllSaw(spec, times, moments)
    ensures AllSaw(spec, times', moments')
  {
    PendingRows(spec, plan, state);
    hide PendingOf, HasRow;
    if !unended {
      var pending := PendingOf(spec, plan, state);
      var k :| 0 <= k <= |pending| && times' == times + pending[..k];
      forall i | 0 <= i < |times'| ensures Saw(spec, times'[i], moments'[i]) {
        if i < |times| {
          assert moments'[i] == moments[i] && Saw(spec, times[i], moments[i]);
        } else {
          assert times'[i] == pending[i - |times|];
        }
      }
    }
  }

  lemma StepFirm(plan: RunPlan, pending: seq<int>, times: seq<int>, moments: seq<Moment>, unended: bool,
                 times': seq<int>, moments': seq<Moment>, unended': bool)
    requires Continues(plan, pending, times, moments, unended, times', moments', unended')
    ensures Firm(times, unended) <= Firm(times', unended')
  {
  }

  lemma StepPlanned(plans: seq<RunPlan>, pending: seq<int>, times: seq<int>, moments: seq<Moment>, unended: bool,
                    times': seq<int>, moments': seq<Moment>, unended': bool)
    requires plans != []
    requires Continues(plans[0], pending, times, moments, unended, times', moments', unended')
    ensures Planned(moments', moments, plans[..1])
  {
    hide Planned, GoesOn;
    if unended {
      PlannedFront(moments, plans[..1]);
    } else {
      PlannedOne(moments, moments', plans);
    }
  }

  /** The moment is one of a run of the schedule. */
  ghost predicate PlannedBy(moment: Moment, plans: seq<RunPlan>) {
    exists p :: p in plans && moment.source == p.source && moment.now == p.now
  }

  /** Every moment is an earlier one or one of the schedule's. */
  ghost predicate Planned(moments: seq<Moment>, earlier: seq<Moment>, plans: seq<RunPlan>) {
    forall m :: m in moments ==> m in earlier || PlannedBy(m, plans)
  }

  lemma PlannedOne(moments: seq<Moment>, moments': seq<Moment>, plans: seq<RunPlan>)
    requires plans != [] && GoesOn(moments, moments', plans[0].source, plans[0].now)
    ensures Planned(moments', moments, plans[..1])
  {
    assert plans[0] in plans[..1];
    forall m | m in moments' ensures m in moments || PlannedBy(m, plans[..1]) {
      var i :| 0 <= i < |moments'| && moments'[i] == m;
      if i < |moments| {
        assert moments[i] == m;
      }
    }
  }

  lemma PlannedThen(earlier: seq<Moment>, between: seq<Moment>, later: seq<Moment>, plans: seq<RunPlan>)
    requires plans != [] && Planned(between, earlier, plans[..1]) && Planned(later, between, plans[1..])
    ensures Planned(later, earlier, plans)
  {
    forall m | m in later ensures m in earlier || PlannedBy(m, plans) {
      if m !in earlier {
        assert m in between || PlannedBy(m, plans[1..]);
        assert plans == plans[..1] + plans[1..];
      }
    }
  }

  lemma PlannedFront(moments: seq<Moment>, plans: seq<RunPlan>)
    requires moments != []
    ensures Planned(moments[..|moments| - 1], moments, plans)
    ensures Planned(moments, moments, plans)
  {
  }

  // ----- Schedules

  lemma SurvivesStep(rt: Runtime, spec: Spec, disk: string, unended: bool, plans: seq<RunPlan>)
    requires plans != []
    ensures var r := RunnerOf(rt, spec)(plans[0], disk);
            Survives(rt, spec, disk, unended, plans) <==>
            (unended ==> HarmlessAfterUnended(rt, spec, disk, r)) &&
            Survives(rt, spec, r.disk, UnendedAfter(unended, r), plans[1..])
  {
    hide RunnerOf, HarmlessAfterUnended, UnendedAfter;
  }

  lemma ExecuteStep(run: Runner, disk: string, plans: seq<RunPlan>)
    requires plans != []
    ensures Execute(run, disk, plans) == Execute(run, run(plans[0], disk).disk, plans[1..])
  {
  }

  lemma NothingPlanned(rt: Runtime, spec: Spec, disk: string, moments: seq<Moment>, plans: seq<RunPlan>)
    requires plans == []
    ensures Execute(RunnerOf(rt, spec), disk, plans) == disk && Planned(moments, moments, plans)
  {
  }

  lemma PositiveRest(plans: seq<RunPlan>)
    requires plans != [] && PositivePlans(plans)
    ensures PositiveTimes(plans[0].source) && PositivePlans(plans[1..])
  {
    hide PositiveTimes;
  }

  /** What the schedule added keeps what the log was. */
  ghost predicate Keeps(spec: Spec, plans: seq<RunPlan>, times: seq<int>, moments: seq<Moment>, unended: bool,
                        times': seq<int>, moments': seq<Moment>, unended': bool) {
    && Planned(moments', moments, plans)
    && Firm(times, unended) <= Firm(times', unended')
    && (AllSaw(spec, times, moments) ==> AllSaw(spec, times', moments'))
    && (Increasing(times) && PositivePlans(plans) ==> Increasing(times'))
  }

  lemma KeepsNothing(spec: Spec, times: seq<int>, moments: seq<Moment>, unended: bool, plans: seq<RunPlan>)
    ensures Keeps(spec, plans, times, moments, unended, times, moments, unended)
  {
    hide Increasing, AllSaw;
  }

  lemma KeepsThen(rt: Runtime, spec: Spec, plans: seq<RunPlan>, times: seq<int>, moments: seq<Moment>, unended: bool,
                  between: seq<int>, on: seq<Moment>, half: bool, times': seq<int>, moments': seq<Moment>,
                  unended': bool)
    requires plans != [] && |times| == |moments|
    requires Continues(plans[0], PendingOf(spec, plans[0], Reference(rt, spec, times, moments).state), times, moments,
                       unended, between, on, half)
    requires Keeps(spec, plans[1..], between, on, half, times', moments', unended')
    ensures Keeps(spec, plans, times, moments, unended, times', moments', unended')
  {
    hide Continues, Increasing, AllSaw, PendingOf, Reference, PositivePlans, Planned, Firm;
    var state := Reference(rt, spec, times, moments).state;
    ReferenceFields(rt, spec, times, moments);
    StepPlanned(plans, PendingOf(spec, plans[0], state), times, moments, unended, between, on, half);
    PlannedThen(moments, on, moments', plans);
    StepFirm(plans[0], PendingOf(spec, plans[0], state), times, moments, unended, between, on, half);
    if AllSaw(spec, times, moments) {
      StepSaw(spec, plans[0], state, times, moments, unended, between, on, half);
    }
    if Increasing(times) && PositivePlans(plans) {
      PositiveRest(plans);
      StepIncreases(spec, plans[0], state, times, moments, unended, between, on, half);
    }
  }

  /** A surviving schedule, over any stores: the log it leaves loads as the reference log of
      some candles. Every one of them was evaluated by a run that had it in its store, after
      it had closed; they are in strictly increasing order, so that none is there twice; and
      no event that has its line end is ever lost again. */
  lemma {:induction false} EachOnce(rt: Runtime, spec: Spec, disk: string, times: seq<int>, moments: seq<Moment>,
                                    tail: string, unended: bool, plans: seq<RunPlan>)
    returns (times': seq<int>, moments': seq<Moment>, tail': string, unended': bool)
    requires spec.Valid() && Stands(rt, spec, disk, times, moments, tail, unended)
    requires Survives(rt, spec, disk, unended, plans)
    ensures var after := Execute(RunnerOf(rt, spec), disk, plans);
            && Stands(rt, spec, after, times', moments', tail', unended') && |times'| == |moments'|
            && LoadDisk(rt, spec, after) == Success(Reference(rt, spec, times', moments').state)
    ensures Keeps(spec, plans, times, moments, unended, times', moments', unended')
    decreases |plans|
  {
    hide *;
    times', moments', tail', unended' := times, moments, tail, unended;
    if plans == [] {
      NothingPlanned(rt, spec, disk, moments, plans);
      StandsLoads(rt, spec, disk, times, moments, tail, unended);
      KeepsNothing(spec, times, moments, unended, plans);
    } else {
      var r := RunnerOf(rt, spec)(plans[0], disk);
      SurvivesStep(rt, spec, disk, unended, plans);
      ExecuteStep(RunnerOf(rt, spec), disk, plans);
      var between, on, torn := StandsRun(rt, spec, disk, times, moments, tail, unended, plans[0]);
      var half := UnendedAfter(unended, r);
      times', moments', tail', unended' := EachOnce(rt, spec, r.disk, between, on, torn, half, plans[1..]);
      KeepsThen(rt, spec, plans, times, moments, unended, between, on, half, times', moments', unended');
    }
  }

  lemma KeepsParts(spec: Spec, plans: seq<RunPlan>, times: seq<int>, moments: seq<Moment>, unended: bool,
                   times': seq<int>, moments': seq<Moment>, unended': bool)
    requires Keeps(spec, plans, times, moments, unended, times', moments', unended')
    requires Increasing(times) && PositivePlans(plans)
    ensures Increasing(times') && Firm(times, unended) <= times'
    ensures AllSaw(spec, times, moments) ==> AllSaw(spec, times', moments')
  {
    hide Increasing, AllSaw, PositivePlans, Planned;
  }

  /** A candle that was passed over is never evaluated later: whatever the stores and the
      crashes, no surviving schedule adds it to a log that already ends behind it. */
  lemma SkippedForever(rt: Runtime, spec: Spec, disk: string, times: seq<int>, moments: seq<Moment>, tail: string,
                       plans: seq<RunPlan>, t: int)
    returns (times': seq<int>, moments': seq<Moment>, tail': string, unended': bool)
    requires spec.Valid() && Stands(rt, spec, disk, times, moments, tail, false) && Increasing(times)
    requires PositivePlans(plans) && Survives(rt, spec, disk, false, plans)
    requires LoadDisk(rt, spec, disk).Success? && t <= LoadDisk(rt, spec, disk).value.lastTimestamp && t !in times
    ensures Stands(rt, spec, Execute(RunnerOf(rt, spec), disk, plans), times', moments', tail', unended')
    ensures t !in times' && times <= times' && Increasing(times')
  {
    hide *;
    StandsLoads(rt, spec, disk, times, moments, tail, false);
    ReferenceFields(rt, spec, times, moments);
    times', moments', tail', unended' := EachOnce(rt, spec, disk, times, moments, tail, false, plans);
    KeepsParts(spec, plans, times, moments, false, times', moments', unended');
    NotBehind(times, times', t);
  }

  lemma NotBehind(times: seq<int>, times': seq<int>, t: int)
    requires Increasing(times') && Firm(times, false) <= times' && t !in times
    requires t <= if times == [] then 0 else times[|times| - 1]
    ensures t !in times' && times <= times'
  {
    forall i | 0 <= i < |times'| ensures times'[i] != t {
      if i < |times| {
        assert times[i] == times'[i];
      } else if times != [] {
        assert times'[|times| - 1] == times[|times| - 1];
      }
    }
  }

  /** A refused log stays as it is: every later run stops before it writes anything. */
  lemma {:induction false} RefusedForever(rt: Runtime, spec: Spec, disk: string, plans: seq<RunPlan>)
    requires LoadDisk(rt, spec, disk).Failure?
    ensures Execute(RunnerOf(rt, spec), disk, plans) == disk
    decreases |plans|
  {
    if plans != [] {
      hide RunnerOf, LoadDisk;
      RefusedRun(rt, spec, disk, plans[0]);
      RefusedForever(rt, spec, disk, plans[1..]);
    }
  }

  /** And a schedule that is not survived ends in a log that is refused. */
  lemma {:induction false} NotSurvived(rt: Runtime, spec: Spec, disk: string, times: seq<int>, moments: seq<Moment>,
                                       tail: string, unended: bool, plans: seq<RunPlan>)
    requires spec.Valid() && CollisionFree(rt.digest) && Stands(rt, spec, disk, times, moments, tail, unended)
    requires !Survives(rt, spec, disk, unended, plans)
    ensures LoadDisk(rt, spec, Execute(RunnerOf(rt, spec), disk, plans)) == Failure(BrokenChain)
    decreases |plans|
  {
    hide *;
    if plans == [] {
      EmptySurvives(rt, spec, disk, unended, plans);
    } else {
      var r := RunnerOf(rt, spec)(plans[0], disk);
      SurvivesStep(rt, spec, disk, unended, plans);
      ExecuteStep(RunnerOf(rt, spec), disk, plans);
      if unended && !HarmlessAfterUnended(rt, spec, disk, r) {
        StandsIs(rt, spec, disk, times, moments, tail, true);
        StandsIs(rt, spec, disk, times, moments, "", true);
        HarmfulRun(rt, spec, disk, times, moments, plans[0]);
        RefusedForever(rt, spec, r.disk, plans[1..]);
      } else {
        var times', moments', tail' := StandsRun(rt, spec, disk, times, moments, tail, unended, plans[0]);
        NotSurvived(rt, spec, r.disk, times', moments', tail', UnendedAfter(unended, r), plans[1..]);
      }
    }
  }

  lemma EmptySurvives(rt: Runtime, spec: Spec, disk: string, unended: bool, plans: seq<RunPlan>)
    ensures plans == [] ==> Survives(rt, spec, disk, unended, plans)
  {
  }

  /** Exactly which schedules leave a log that loads, from the empty disk on, whatever stores
      the runs see. */
  lemma LoadsIffSurvived(rt: Runtime, spec: Spec, plans: seq<RunPlan>)
    requires spec.Valid() && CollisionFree(rt.digest)
    ensures LoadDisk(rt, spec, Execute(RunnerOf(rt, spec), "", plans)).Success? <==>
            Survives(rt, spec, "", false, plans)
  {
    hide *;
    EmptyStands(rt, spec);
    if Survives(rt, spec, "", false, plans) {
      var times, moments, tail, unended := EachOnce(rt, spec, "", [], [], "", false, plans);
    } else {
      NotSurvived(rt, spec, "", [], [], "", false, plans);
    }
  }

  lemma EmptyStands(rt: Runtime, spec: Spec)
    ensures Stands(rt, spec, "", [], [], "", false)
    ensures Increasing([])
    ensures AllSaw(spec, [], [])
  {
    hide StepOf, NewState;
  }

  /** So every log that loads, whatever the schedule, the stores and the crashes, holds no
      candle twice, none out of order, and none that was evaluated before it had closed. */
  lemma AtMostOnce(rt: Runtime, spec: Spec, plans: seq<RunPlan>)
    returns (times: seq<int>, moments: seq<Moment>, tail: string, unended: bool)
    requires spec.Valid() && CollisionFree(rt.digest) && PositivePlans(plans)
    requires LoadDisk(rt, spec, Execute(RunnerOf(rt, spec), "", plans)).Success?
    ensures var disk := Execute(RunnerOf(rt, spec), "", plans);
            && Stands(rt, spec, disk, times, moments, tail, unended) && |times| == |moments|
            && LoadDisk(rt, spec, disk) == Success(Reference(rt, spec, times, moments).state)
    ensures Increasing(times) && AllSaw(spec, times, moments)
  {
    hide *;
    EmptyStands(rt, spec);
    LoadsIffSurvived(rt, spec, plans);
    times, moments, tail, unended := EachOnce(rt, spec, "", [], [], "", false, plans);
    KeepsParts(spec, plans, [], [], false, times, moments, unended);
  }

  /** A schedule in which no append misses exactly its line end. */
  predicate NoLineEndLost(run: Runner, disk: string, plans: seq<RunPlan>)
    decreases |plans|
  {
    plans != [] ==> run(plans[0], disk).stop != Cut(1) && NoLineEndLost(run, run(plans[0], disk).disk, plans[1..])
  }

  /** Every such schedule is survived, however many of its appends are cut elsewhere. */
  lemma {:induction false} NoLineEndLostSurvives(rt: Runtime, spec: Spec, disk: string, plans: seq<RunPlan>)
    requires NoLineEndLost(RunnerOf(rt, spec), disk, plans)
    ensures Survives(rt, spec, disk, false, plans)
    decreases |plans|
  {
    if plans != [] {
      hide RunnerOf;
      NoLineEndLostSurvives(rt, spec, RunnerOf(rt, spec)(plans[0], disk).disk, plans[1..]);
    }
  }
}
