/** Schedules whose runs see one growing history: every candle of a gap-free segment is
    evaluated exactly once. */
module ShadowHistories {
  import opened Wrappers
  import opened CandleStore
  import opened ShadowEvaluator
  import opened ShadowTheorems
  import opened ShadowRuns
  import opened ShadowSchedules

  /** Each run sees a stretch of the history that reaches back to the last candle in the log
      it finds. */
  ghost predicate Reaching(rt: Runtime, spec: Spec, whole: Source, disk: string, plans: seq<RunPlan>)
    decreases |plans|
  {
    plans != [] ==>
      && Window(plans[0].source, whole) && Reaches(rt, spec, whole, disk, plans[0])
      && Reaching(rt, spec, whole, RunnerOf(rt, spec)(plans[0], disk).disk, plans[1..])
  }

  /** Runs that see the history from its first row on, as far as it has grown. */
  ghost predicate FromStart(plans: seq<RunPlan>, whole: Source) {
    forall i :: 0 <= i < |plans| ==> WindowAt(plans[i].source.primary, whole.primary, 0)
  }

  /** Those always reach back far enough, whatever the log holds. */
  lemma {:induction false} FromStartReaches(rt: Runtime, spec: Spec, whole: Source, disk: string, plans: seq<RunPlan>)
    requires FromStart(plans, whole)
    ensures Reaching(rt, spec, whole, disk, plans)
    decreases |plans|
  {
    hide RunnerOf, LoadDisk;
    if plans != [] {
      var view := plans[0].source;
      assert WindowAt(view.primary, whole.primary, 0);
      if view.primary != [] {
        assert view.primary[0].timestamp == whole.primary[0].timestamp;
      }
      forall i | 0 <= i < |plans[1..]| ensures WindowAt(plans[1..][i].source.primary, whole.primary, 0) {
        assert plans[1..][i] == plans[i + 1];
      }
      FromStartReaches(rt, spec, whole, RunnerOf(rt, spec)(plans[0], disk).disk, plans[1..]);
    }
  }

  lemma ReachingStep(rt: Runtime, spec: Spec, whole: Source, disk: string, plans: seq<RunPlan>)
    requires plans != []
    ensures Reaching(rt, spec, whole, disk, plans) <==>
            && Window(plans[0].source, whole) && Reaches(rt, spec, whole, disk, plans[0])
            && Reaching(rt, spec, whole, RunnerOf(rt, spec)(plans[0], disk).disk, plans[1..])
  {
    hide Window, Reaches, RunnerOf;
  }

  /** Where the disk stands between two runs; `unended`: the last event has no line end. */
  ghost predicate Stage(rt: Runtime, spec: Spec, whole: Source, disk: string, first: nat, moments: seq<Moment>,
                        tail: string, unended: bool) {
    if unended then Unended(rt, spec, whole, disk, first, moments)
    else Progress(rt, spec, whole, disk, first, moments, tail)
  }

  /** The parts of an unended log: what is in front of its last event, and that event. */
  lemma UnendedParts(rt: Runtime, spec: Spec, whole: Source, disk: string, first: nat, moments: seq<Moment>)
    requires Unended(rt, spec, whole, disk, first, moments)
    ensures moments != [] && Seen(spec, whole, first, moments)
    ensures HoldsUnended(disk, StepOf(rt, spec), NewState(rt, spec), Segment(whole, first, |moments|), moments)
    ensures ReferenceLog(StepOf(rt, spec), NewState(rt, spec), Segment(whole, first, |moments|), moments).state ==
            FoldOf(rt, spec, whole, first, moments)
  {
    hide ReferenceLog, StepOf, Seen;
  }

  /** A harmless run behind an unended log. */
  lemma UnendedRun(rt: Runtime, spec: Spec, whole: Source, disk: string, first: nat, moments: seq<Moment>,
                   plan: RunPlan)
    returns (tail: string)
    requires spec.Valid() && Unended(rt, spec, whole, disk, first, moments)
    requires HarmlessAfterUnended(rt, spec, disk, RunnerOf(rt, spec)(plan, disk))
    ensures moments != []
    ensures var r := RunnerOf(rt, spec)(plan, disk);
            if r.stop.Cut? then Progress(rt, spec, whole, r.disk, first, moments[..|moments| - 1], tail)
            else Unended(rt, spec, whole, r.disk, first, moments)
  {
    hide *;
    UnendedParts(rt, spec, whole, disk, first, moments);
    SeenFront(spec, whole, first, moments);
    var r, n, times := RunnerOf(rt, spec)(plan, disk), |moments| - 1, Segment(whole, first, |moments|);
    StandsIs(rt, spec, disk, times, moments, "", true);
    tail := HarmlessRun(rt, spec, disk, times, moments, plan);
    SegmentFront(whole, first, |moments|);
    StandsIs(rt, spec, r.disk, times, moments, "", true);
    StandsIs(rt, spec, r.disk, times[..n], moments[..n], tail, false);
    ProgressFrom(rt, spec, whole, r.disk, first, moments, tail, times);
    ProgressFrom(rt, spec, whole, r.disk, first, moments[..n], tail, times[..n]);
  }

  /** One run of a surviving schedule leads from one stage to the next. */
  lemma StageRun(rt: Runtime, spec: Spec, whole: Source, disk: string, first: nat, moments: seq<Moment>, tail: string,
                 unended: bool, plans: seq<RunPlan>)
    returns (first': nat, moments': seq<Moment>, tail': string, unended': bool)
    requires spec.Valid() && Stage(rt, spec, whole, disk, first, moments, tail, unended)
    requires plans != [] && Window(plans[0].source, whole) && PositiveTimes(whole)
    requires Reaches(rt, spec, whole, disk, plans[0])
    requires unended ==> HarmlessAfterUnended(rt, spec, disk, RunnerOf(rt, spec)(plans[0], disk))
    ensures var r := RunnerOf(rt, spec)(plans[0], disk);
            && unended' == UnendedAfter(unended, r)
            && Stage(rt, spec, whole, r.disk, first', moments', tail', unended')
    ensures Planned(moments', moments, plans[..1])
  {
    hide RunnerOf, Progress, Unended, Window, Reaches, PositiveTimes, Planned, HarmlessAfterUnended;
    var r := RunnerOf(rt, spec)(plans[0], disk);
    tail', unended' := "", UnendedAfter(unended, r);
    if unended {
      first', moments' := first, moments;
      tail' := UnendedRun(rt, spec, whole, disk, first, moments, plans[0]);
      PlannedFront(moments, plans[..1]);
      if r.stop.Cut? {
        moments' := moments[..|moments| - 1];
      }
    } else {
      first', moments', tail' := RunProgress(rt, spec, whole, disk, first, moments, tail, plans[0]);
      PlannedOne(moments, moments', plans);
    }
  }

  lemma StageLoads(rt: Runtime, spec: Spec, whole: Source, disk: string, first: nat, moments: seq<Moment>, tail: string,
                   unended: bool)
    requires spec.Valid() && Stage(rt, spec, whole, disk, first, moments, tail, unended)
    ensures Seen(spec, whole, first, moments) && first + |moments| <= |whole.primary|
    ensures LoadDisk(rt, spec, disk) == Success(FoldOf(rt, spec, whole, first, moments))
  {
    hide Holds, HoldsUnended, FoldOf, LoadDisk;
    ProgressLoads(rt, spec, whole, disk, first, moments, tail);
  }

  /** Exactly once: whatever the schedule of runs, catch-up batches and crashes that it
      survives, over views of one growing history that reach back far enough, the log is the
      reference log of one gap-free segment of the history: every candle evaluated once, in
      order, by a run that had it in its store, after it had closed. It loads as the state
      of that fold. */
  lemma {:induction false} ExactlyOnce(rt: Runtime, spec: Spec, whole: Source, disk: string, first: nat,
                                       moments: seq<Moment>, tail: string,
                                       unended: bool, plans: seq<RunPlan>)
    returns (first': nat, moments': seq<Moment>, tail': string, unended': bool)
    requires spec.Valid() && Stage(rt, spec, whole, disk, first, moments, tail, unended)
    requires PositiveTimes(whole) && Reaching(rt, spec, whole, disk, plans)
    requires Survives(rt, spec, disk, unended, plans)
    ensures var after := Execute(RunnerOf(rt, spec), disk, plans);
            && Stage(rt, spec, whole, after, first', moments', tail', unended')
            && first' + |moments'| <= |whole.primary|
            && LoadDisk(rt, spec, after) == Success(FoldOf(rt, spec, whole, first', moments'))
    ensures Planned(moments', moments, plans)
    decreases |plans|
  {
    hide *;
    first', moments', tail', unended' := first, moments, tail, unended;
    if plans == [] {
      NothingPlanned(rt, spec, disk, moments, plans);
      StageLoads(rt, spec, whole, disk, first, moments, tail, unended);
    } else {
      ReachingStep(rt, spec, whole, disk, plans);
      SurvivesStep(rt, spec, disk, unended, plans);
      ExecuteStep(RunnerOf(rt, spec), disk, plans);
      first', moments', tail', unended' := StageRun(rt, spec, whole, disk, first, moments, tail, unended, plans);
      var between := moments';
      first', moments', tail', unended' :=
        ExactlyOnce(rt, spec, whole, RunnerOf(rt, spec)(plans[0], disk).disk, first', moments', tail',
                                                       unended', plans[1..]);
      PlannedThen(moments, between, moments', plans);
    }
  }

  lemma EmptyStage(rt: Runtime, spec: Spec, whole: Source)
    ensures Stage(rt, spec, whole, "", 0, [], "", false)
  {
    EmptyDisk(rt, spec, whole);
  }
}
