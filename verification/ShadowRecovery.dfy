/** What one cut append leaves behind, and what the durable state of a log means. */
module ShadowRecovery {
  import opened Wrappers
  import opened Json
  import opened Dictionaries
  import opened CandleStore
  import opened EventLog
  import opened EventLogProofs
  import opened ShadowEvaluator
  import opened ShadowTheorems
  import opened ShadowRuns

  // ----- One cut

  /** A log the worker built, and the event it appends next. */
  ghost predicate Appending(rt: Runtime, spec: Spec, log: Log, e: Evaluated) {
    && Accepted(Checker(rt.digest, spec.identity), Finisher(rt, spec), log)
    && Accepted(Checker(rt.digest, spec.identity), Finisher(rt, spec), Log(e.state, log.events + [e.event]))
    && e.state != log.state
  }

  lemma WorkerAppending(rt: Runtime, spec: Spec, times: seq<int>, moments: seq<Moment>, t: int, moment: Moment)
    requires spec.Valid() && |times| == |moments|
    ensures var log := Reference(rt, spec, times, moments);
            Appending(rt, spec, log, StepOf(rt, spec)(log.state, t, moment))
  {
    var log := Reference(rt, spec, times, moments);
    WorkerAccepted(rt, spec, times, moments);
    WorkerCoherent(rt, spec);
    AcceptedExtends(Checker(rt.digest, spec.identity), Finisher(rt, spec), StepOf(rt, spec), log, t, moment);
    StepMoves(rt, spec, log.state, t, moment);
  }

  /** Crash recovery, cut by cut. A cut append reloads as exactly the state before it or
      the state after it, and the load agrees with the repair that the next append will
      do, except when all bytes but the final line end are on the disk: there the event
      is loaded but the repair removes it. */
  lemma CutAppend(rt: Runtime, spec: Spec, log: Log, e: Evaluated, cut: nat)
    requires Appending(rt, spec, log, e) && cut <= |Line(e.event)|
    ensures var disk := Frame(log.events) + Line(e.event)[..cut];
            && LoadDisk(rt, spec, disk) == Success(if cut < |Line(e.event)| - 1 then log.state else e.state)
            && LoadDisk(rt, spec, Repair(disk)) == Success(if cut < |Line(e.event)| then log.state else e.state)
            && (LoadDisk(rt, spec, Repair(disk)) == LoadDisk(rt, spec, disk) <==> cut != |Line(e.event)| - 1)
  {
    hide *;
    var check := Checker(rt.digest, spec.identity);
    AppendingParts(rt, spec, log, e);
    var disk := Frame(log.events) + Line(e.event)[..cut];
    var after := Log(e.state, log.events + [e.event]);
    ScanAfterCut(check, log.events, e.event, cut);
    ScannedLog(rt, spec, disk, if cut < |Line(e.event)| - 1 then log else after);
    var repaired := if cut < |Line(e.event)| then log else after;
    FrameScans(check, repaired.events);
    ScannedLog(rt, spec, Frame(repaired.events), repaired);
  }

  lemma AppendingParts(rt: Runtime, spec: Spec, log: Log, e: Evaluated)
    requires Appending(rt, spec, log, e)
    ensures Accepted(Checker(rt.digest, spec.identity), Finisher(rt, spec), log)
    ensures Accepted(Checker(rt.digest, spec.identity), Finisher(rt, spec), Log(e.state, log.events + [e.event]))
    ensures e.state != log.state && |Line(e.event)| > 0
  {
  }

  lemma FrameScans(check: Check, events: seq<Dict>)
    ensures Scan(check, Frame(events)) == Replay(check, events)
  {
    ScanTorn(check, events, "");
    assert Frame(events) + "" == Frame(events);
  }

  // ----- The one cut that is not recovered

  /** After the cut that lacks only its line end, the worker goes on from the state of
      the lost event. Whatever the next append leaves on the repaired disk decides: a
      second torn event brings the old state back, but once that event is whole enough
      to parse, the log is refused. */
  lemma AppendAfterLostEvent(rt: Runtime, spec: Spec, log: Log, e: Evaluated, t: int, moment: Moment, cut: nat)
    requires spec.Valid() && Appending(rt, spec, log, e) && e.state.lastHash != log.state.lastHash
    requires cut <= |Line(StepOf(rt, spec)(e.state, t, moment).event)|
    ensures var line := Line(e.event);
            var next := Line(StepOf(rt, spec)(e.state, t, moment).event);
            var lost := Frame(log.events) + line[..|line| - 1];
            && LoadDisk(rt, spec, lost) == Success(e.state)
            && LoadDisk(rt, spec, Repair(lost) + next[..cut])
            == if cut < |next| - 1 then Success(log.state) else Failure(BrokenChain)
  {
    hide *;
    var check := Checker(rt.digest, spec.identity);
    var next := StepOf(rt, spec)(e.state, t, moment);
    AppendingParts(rt, spec, log, e);
    CutAppend(rt, spec, log, e, |Line(e.event)| - 1);
    ScanAfterCut(check, log.events, e.event, |Line(e.event)| - 1);
    ScanAfterCut(check, log.events, next.event, cut);
    var disk := Frame(log.events) + Line(next.event)[..cut];
    if cut < |Line(next.event)| - 1 {
      ScannedLog(rt, spec, disk, log);
    } else {
      WrongLink(rt, spec, log, e, t, moment);
      ScanFails(rt, spec, disk, BrokenChain);
    }
  }

  lemma ScanFails(rt: Runtime, spec: Spec, disk: string, reason: LoadError)
    requires Scan(Checker(rt.digest, spec.identity), disk) == Failure(reason)
    ensures LoadDisk(rt, spec, disk) == Failure(reason)
  {
  }

  lemma WrongLink(rt: Runtime, spec: Spec, log: Log, e: Evaluated, t: int, moment: Moment)
    requires spec.Valid() && Appending(rt, spec, log, e) && e.state.lastHash != log.state.lastHash
    ensures Replay(Checker(rt.digest, spec.identity), log.events + [StepOf(rt, spec)(e.state, t, moment).event])
         == Failure(BrokenChain)
  {
    hide *;
    var check, finish := Checker(rt.digest, spec.identity), Finisher(rt, spec);
    var next := StepOf(rt, spec)(e.state, t, moment);
    AppendingParts(rt, spec, log, e);
    AcceptedParts(check, finish, log);
    AcceptedParts(check, finish, Log(e.state, log.events + [e.event]));
    LoadedKeys(rt, spec, Replay(check, log.events + [e.event]).value);
    StepIsEvaluate(rt, spec, e.state, t, moment);
    EvaluatedEvent(rt, spec, Observe(spec, moment.source, t), e.state, moment.clock, Replay(check, log.events).value);
    NotCarried(rt, spec, next, Replay(check, log.events).value, e.state.lastHash);
    ReplayAppended(check, log.events, next.event);
  }

  lemma AcceptedParts(check: Check, finish: Cursor -> Result<State, LoadError>, log: Log)
    requires Accepted(check, finish, log)
    ensures Replay(check, log.events).Success?
    ensures Replay(check, log.events).value.previous == log.state.lastHash
    ensures finish(Replay(check, log.events).value) == Success(log.state)
  {
  }

  lemma StepIsEvaluate(rt: Runtime, spec: Spec, state: State, t: int, moment: Moment)
    ensures StepOf(rt, spec)(state, t, moment) ==
            Evaluate(rt, spec, Observe(spec, moment.source, t), state, moment.clock)
  {
  }

  lemma ReplayAppended(check: Check, events: seq<Dict>, event: Dict)
    requires Replay(check, events).Success?
    ensures Replay(check, events + [event]) == check(Replay(check, events).value, Obj(event))
  {
    ReplayAppend(check, FRESH, events, event);
  }

  /** A run that cannot load the log stops before it writes anything. */
  lemma RefusedRun(rt: Runtime, spec: Spec, disk: string, plan: RunPlan)
    requires LoadDisk(rt, spec, disk).Failure?
    ensures RunnerOf(rt, spec)(plan, disk).disk == disk
    ensures RunnerOf(rt, spec)(plan, disk).stop == Refused(LoadFailed(LoadDisk(rt, spec, disk).error))
  {
  }

  // ----- A collision-free digest tells every two consecutive events apart

  lemma SameHashSameState(digest: Digest, a: Dict, b: Dict)
    requires CollisionFree(digest) && EventHash(digest, a) == EventHash(digest, b)
    ensures Get(a, "state") == Get(b, "state")
  {
    hide Remove, Get, Encode;
    EncodeInjective(Obj(Remove(a, "event_sha256")), Obj(Remove(b, "event_sha256")));
    RemoveGet(a, "event_sha256", "state");
    RemoveGet(b, "event_sha256", "state");
  }

  lemma HashedState(rt: Runtime, spec: Spec, s: Snapshot, state: State, clock: FloatText) returns (unsigned: Dict)
    ensures EventHash(rt.digest, unsigned) == Evaluate(rt, spec, s, state, clock).state.lastHash
    ensures IntOf(FieldsOf(Get(unsigned, "state")), "snapshot_count") == state.snapshotCount + 1
  {
    hide History, RegimeHistory, EventHash, SnapshotJson;
    var next := NextState(rt, spec, s, state);
    var body := BodyOf(rt, spec, s, state, clock);
    unsigned := Unsigned(spec.identity, body, state.lastHash, next);
    UnsignedFields(spec.identity, body, state.lastHash, next);
    DurableFields(spec.identity, next);
  }

  lemma HashIsFresh(rt: Runtime, spec: Spec, s: Snapshot, s': Snapshot, state: State, clock: FloatText,
                    clock': FloatText)
    requires CollisionFree(rt.digest)
    ensures var e := Evaluate(rt, spec, s, state, clock);
            Evaluate(rt, spec, s', e.state, clock').state.lastHash != e.state.lastHash
    ensures Evaluate(rt, spec, s, state, clock).state.lastHash != ""
  {
    hide SnapshotJson, EventHash, Durable, Unsigned, Signed, BodyOf;
    var e := Evaluate(rt, spec, s, state, clock);
    var a := HashedState(rt, spec, s, state, clock);
    var b := HashedState(rt, spec, s', e.state, clock');
    if EventHash(rt.digest, a) == EventHash(rt.digest, b) {
      SameHashSameState(rt.digest, a, b);
      assert false;
    }
    HashNotEmpty(rt.digest, a);
  }

  lemma HashNotEmpty(digest: Digest, event: Dict)
    requires CollisionFree(digest)
    ensures EventHash(digest, event) != ""
  {
  }

  /** Under a collision-free digest an evaluation always changes the last hash, so the
      hypothesis of `AppendAfterLostEvent` holds for every log of the worker. */
  lemma NextHashDiffers(rt: Runtime, spec: Spec, times: seq<int>, moments: seq<Moment>, t: int, moment: Moment)
    requires CollisionFree(rt.digest) && |times| == |moments|
    ensures var log := Reference(rt, spec, times, moments);
            StepOf(rt, spec)(log.state, t, moment).state.lastHash != log.state.lastHash
  {
    hide Evaluate, Observe, NextState, CollisionFree;
    var n := |times|;
    var log := Reference(rt, spec, times, moments);
    if n == 0 {
      HashIsFresh(rt, spec, Observe(spec, moment.source, t), Observe(spec, moment.source, t), log.state, moment.clock,
                  moment.clock);
    } else {
      var before, last := Reference(rt, spec, times[..n - 1], moments[..n - 1]), moments[n - 1];
      HashIsFresh(rt, spec, Observe(spec, last.source, times[n - 1]), Observe(spec, moment.source, t), before.state,
                  last.clock, moment.clock);
    }
  }
}
