/** The dead-man switch: one short process per timer tick, with a marker file as its only
    memory. */
module Deadman {
  import opened Wrappers

  datatype Config = Config(maxAge: real, realert: real)

  /** A missing marker file reads as one that is not alerting, with an alert time of zero. */
  datatype Marker = Marker(alerting: bool, lastAlert: real, lastOk: Option<real>)

  /** What one process sees: the clock, the modification time of the engine's state file if
      there is one, whether a message it sends gets through, and whether the marker it
      writes is kept. */
  datatype Tick = Tick(now: real, stateTime: Option<real>, delivered: bool, persisted: bool)

  datatype Action = Quiet | Recovery(delivered: bool) | Alert(delivered: bool) | Suppressed

  datatype Outcome = Outcome(marker: Marker, action: Action, exitCode: int)

  predicate Stale(config: Config, tick: Tick) {
    tick.stateTime.None? || tick.now - tick.stateTime.value > config.maxAge
  }

  function Check(config: Config, marker: Marker, tick: Tick): Outcome {
    if !Stale(config, tick) then
      Outcome(Marker(false, marker.lastAlert, Some(tick.now)),
              if marker.alerting then Recovery(tick.delivered) else Quiet, 0)
    else if !marker.alerting || tick.now - marker.lastAlert >= config.realert then
      Outcome(Marker(true, if tick.delivered then tick.now else marker.lastAlert, marker.lastOk),
              Alert(tick.delivered), 1)
    else
      Outcome(marker.(alerting := true), Suppressed, 1)
  }

  /** The marker file and the process that reads and replaces it. */
  class Watchdog {
    const config: Config
    var marker: Marker

    constructor (config: Config, marker: Marker)
      ensures this.config == config && this.marker == marker
    {
      this.config := config;
      this.marker := marker;
    }

    method RunOnce(tick: Tick) returns (exitCode: int, action: Action)
      modifies this
      ensures var outcome := Check(config, old(marker), tick);
        && exitCode == outcome.exitCode && action == outcome.action
        && marker == if tick.persisted then outcome.marker else old(marker)
    {
      var wasAlerting, lastAlert := marker.alerting, marker.lastAlert;
      if !Stale(config, tick) {
        action := Quiet;
        if wasAlerting {
          action := Recovery(tick.delivered);
        }
        Save(tick, Marker(false, lastAlert, Some(tick.now)));
        return 0, action;
      }
      var shouldSend := !wasAlerting || tick.now - lastAlert >= config.realert;
      if shouldSend {
        var sent := tick.delivered;
        action := Alert(sent);
        Save(tick, Marker(true, if sent then tick.now else lastAlert, marker.lastOk));
      } else {
        action := Suppressed;
        Save(tick, marker.(alerting := true));
      }
      return 1, action;
    }

    method Save(tick: Tick, data: Marker)
      modifies this
      ensures marker == if tick.persisted then data else old(marker)
    {
      if tick.persisted {
        marker := data;
      }
    }

    /** The timer: one process per tick. */
    method RunAll(ticks: seq<Tick>) returns (actions: seq<Action>)
      modifies this
      ensures marker == MarkerAfter(config, old(marker), ticks)
      ensures |actions| == |ticks|
      ensures forall i :: 0 <= i < |ticks| ==> actions[i] == ActionAt(config, old(marker), ticks, i)
    {
      actions := [];
      for i := 0 to |ticks|
        invariant marker == MarkerAfter(config, old(marker), ticks[..i])
        invariant |actions| == i && forall k :: 0 <= k < i ==> actions[k] == ActionAt(config, old(marker), ticks, k)
      {
        assert ticks[..i + 1][..i] == ticks[..i];
        var exitCode, action := RunOnce(ticks[i]);
        actions := actions + [action];
      }
      assert ticks[..|ticks|] == ticks;
    }
  }

  // ----- Runs

  function MarkerAfter(config: Config, initial: Marker, ticks: seq<Tick>): Marker
    decreases |ticks|
  {
    if ticks == [] then initial
    else
      var n := |ticks| - 1;
      var before := MarkerAfter(config, initial, ticks[..n]);
      if ticks[n].persisted then Check(config, before, ticks[n]).marker else before
  }

  function ActionAt(config: Config, initial: Marker, ticks: seq<Tick>, i: nat): Action
    requires i < |ticks|
  {
    Check(config, MarkerAfter(config, initial, ticks[..i]), ticks[i]).action
  }

  predicate AllPersisted(ticks: seq<Tick>) { forall i :: 0 <= i < |ticks| ==> ticks[i].persisted }

  predicate Nondecreasing(ticks: seq<Tick>) { forall i, j :: 0 <= i < j < |ticks| ==> ticks[i].now <= ticks[j].now }

  /** Ticks `start .. end` all find the engine silent: part of one outage. */
  predicate AllStale(config: Config, ticks: seq<Tick>, start: nat, end: nat)
    requires start <= end <= |ticks|
  {
    forall k :: start <= k < end ==> Stale(config, ticks[k])
  }

  /** When the last alert that got through was sent; `initial.lastAlert` if none was. */
  function LastDelivered(config: Config, initial: Marker, ticks: seq<Tick>): real
    decreases |ticks|
  {
    if ticks == [] then initial.lastAlert
    else
      var n := |ticks| - 1;
      if ActionAt(config, initial, ticks, n) == Alert(true) then ticks[n].now
      else LastDelivered(config, initial, ticks[..n])
  }

  /** When the engine was last found alive. */
  function LastGood(config: Config, initial: Marker, ticks: seq<Tick>): Option<real>
    decreases |ticks|
  {
    if ticks == [] then initial.lastOk
    else
      var n := |ticks| - 1;
      if Stale(config, ticks[n]) then LastGood(config, initial, ticks[..n]) else Some(ticks[n].now)
  }

  lemma LastDeliveredStep(config: Config, initial: Marker, ticks: seq<Tick>, end: nat)
    requires 0 < end <= |ticks|
    ensures LastDelivered(config, initial, ticks[..end]) ==
            if ActionAt(config, initial, ticks, end - 1) == Alert(true) then ticks[end - 1].now
            else LastDelivered(config, initial, ticks[..end - 1])
  {
    hide Check, MarkerAfter;
    assert ticks[..end][..end - 1] == ticks[..end - 1];
  }

  /** The marker says what the history was: whether the last tick was stale and when an
      alert last got through. */
  lemma {:induction false} MarkerIsHistory(config: Config, initial: Marker, ticks: seq<Tick>)
    requires AllPersisted(ticks)
    ensures MarkerAfter(config, initial, ticks).lastAlert == LastDelivered(config, initial, ticks)
    ensures MarkerAfter(config, initial, ticks).alerting ==
            if ticks == [] then initial.alerting else Stale(config, ticks[|ticks| - 1])
    ensures MarkerAfter(config, initial, ticks).lastOk == LastGood(config, initial, ticks)
    decreases |ticks|
  {
    if ticks != [] {
      MarkerIsHistory(config, initial, ticks[..|ticks| - 1]);
    }
  }

  /** Whether tick `i` finds the switch already alerting. */
  predicate InOutage(config: Config, initial: Marker, ticks: seq<Tick>, i: nat)
    requires i <= |ticks|
  {
    if i == 0 then initial.alerting else Stale(config, ticks[i - 1])
  }

  /** What each tick does, told by the history alone: it exits 1 exactly when the engine is
      silent; it tries to send an alert exactly when the silence is new or the last alert
      that got through is `realert` old; it tries to send a recovery notice exactly at the
      first good tick after a silent one. */
  lemma ActionsFollowHistory(config: Config, initial: Marker, ticks: seq<Tick>, i: nat)
    requires AllPersisted(ticks) && i < |ticks|
    ensures Check(config, MarkerAfter(config, initial, ticks[..i]), ticks[i]).exitCode ==
            match ticks[i].stateTime case None => 1 case Some(t) => if ticks[i].now > t + config.maxAge then 1 else 0
    ensures ActionAt(config, initial, ticks, i).Alert? <==>
            Stale(config, ticks[i]) &&
            (|| !InOutage(config, initial, ticks, i)
             || ticks[i].now - LastDelivered(config, initial, ticks[..i]) >= config.realert)
    ensures ActionAt(config, initial, ticks, i).Recovery? <==>
            !Stale(config, ticks[i]) && InOutage(config, initial, ticks, i)
    ensures var action := ActionAt(config, initial, ticks, i);
            action.Alert? || action.Recovery? ==> action.delivered == ticks[i].delivered
    ensures ActionAt(config, initial, ticks, i) == Suppressed ==> Stale(config, ticks[i])
  {
    MarkerIsHistory(config, initial, ticks[..i]);
  }

  // ----- Spacing

  lemma MarkerStep(config: Config, initial: Marker, ticks: seq<Tick>, end: nat)
    requires 0 < end <= |ticks|
    ensures var before := MarkerAfter(config, initial, ticks[..end - 1]);
            && ActionAt(config, initial, ticks, end - 1) == Check(config, before, ticks[end - 1]).action
            && MarkerAfter(config, initial, ticks[..end]) ==
               if ticks[end - 1].persisted then Check(config, before, ticks[end - 1]).marker else before
  {
    assert ticks[..end][..end - 1] == ticks[..end - 1];
  }

  /** While the engine stays silent, the switch remembers an alert whose marker was kept. */
  lemma {:induction false} AlertIsRemembered(config: Config, initial: Marker, ticks: seq<Tick>, i: nat, end: nat)
    requires Nondecreasing(ticks) && i < end <= |ticks| && AllStale(config, ticks, i, end)
    requires ActionAt(config, initial, ticks, i) == Alert(true) && ticks[i].persisted
    ensures MarkerAfter(config, initial, ticks[..end]).alerting
    ensures MarkerAfter(config, initial, ticks[..end]).lastAlert >= ticks[i].now
    decreases end
  {
    hide ActionAt, MarkerAfter;
    MarkerStep(config, initial, ticks, end);
    if i < end - 1 {
      AlertIsRemembered(config, initial, ticks, i, end - 1);
    }
  }

  /** An alert that got through and whose marker was kept is followed by no other in the
      same outage before `realert` has passed, whatever becomes of the markers after it. */
  lemma AlertsAreSpaced(config: Config, initial: Marker, ticks: seq<Tick>, i: nat, j: nat)
    requires i < j < |ticks| && AllStale(config, ticks, i, j + 1)
    requires ticks[i].persisted && Nondecreasing(ticks)
    requires ActionAt(config, initial, ticks, i) == Alert(true) && ActionAt(config, initial, ticks, j).Alert?
    ensures ticks[j].now - ticks[i].now >= config.realert
  {
    AlertIsRemembered(config, initial, ticks, i, j);
  }

  /** That marker is needed: an alert whose marker was lost is sent again at once. */
  lemma RepeatedAlert()
    ensures var config, none := Config(300.0, 3600.0), Marker(false, 0.0, None);
      var ticks := [Tick(10000.0, None, true, false), Tick(10060.0, None, true, true)];
      && ActionAt(config, none, ticks, 0) == Alert(true)
      && ActionAt(config, none, ticks, 1) == Alert(true)
  {
    var config, none := Config(300.0, 3600.0), Marker(false, 0.0, None);
    var a := Tick(10000.0, None, true, false);
    var ticks := [a, Tick(10060.0, None, true, true)];
    assert ticks[..0] == [] && ticks[..1] == [a];
    MarkerSnoc(config, none, [], a);
  }

  /** How many alerts got through at ticks `start .. end`. */
  function DeliveredAlerts(config: Config, initial: Marker, ticks: seq<Tick>, start: nat, end: nat): nat
    requires start <= end <= |ticks|
    decreases end
  {
    if start == end then 0
    else
      DeliveredAlerts(config, initial, ticks, start, end - 1) +
      if ActionAt(config, initial, ticks, end - 1) == Alert(true) then 1 else 0
  }

  /** The markers of the alerts that got through at ticks `start .. end` were kept. */
  predicate AlertsKept(config: Config, initial: Marker, ticks: seq<Tick>, start: nat, end: nat)
    requires start <= end <= |ticks|
  {
    forall k :: start <= k < end && ActionAt(config, initial, ticks, k) == Alert(true) ==> ticks[k].persisted
  }

  lemma {:induction false} AlertsTakeTime(config: Config, initial: Marker, ticks: seq<Tick>, start: nat, end: nat)
    requires Nondecreasing(ticks) && start < end <= |ticks| && AllStale(config, ticks, start, end)
    requires AlertsKept(config, initial, ticks, start, end)
    ensures var count := DeliveredAlerts(config, initial, ticks, start, end);
      var after := MarkerAfter(config, initial, ticks[..end]);
      count > 0 ==>
        && after.alerting && after.lastAlert <= ticks[end - 1].now
        && (count - 1) as real * config.realert <= after.lastAlert - ticks[start].now
    decreases end
  {
    hide ActionAt, MarkerAfter, Stale, Check;
    var before, tick := MarkerAfter(config, initial, ticks[..end - 1]), ticks[end - 1];
    MarkerStep(config, initial, ticks, end);
    assert Stale(config, tick);
    assert ActionAt(config, initial, ticks, end - 1) == Alert(true) ==> tick.persisted;
    if start < end - 1 {
      AlertsTakeTime(config, initial, ticks, start, end - 1);
      assert ticks[end - 2].now <= tick.now && ticks[start].now <= tick.now;
    }
    var count := DeliveredAlerts(config, initial, ticks, start, end - 1);
    OneTick(config, before, tick, count, ticks[start].now);
    assert DeliveredAlerts(config, initial, ticks, start, end) ==
           count + if ActionAt(config, initial, ticks, end - 1) == Alert(true) then 1 else 0;
  }

  /** One silent tick of an outage in which `count` alerts have got through so far. */
  lemma OneTick(config: Config, before: Marker, tick: Tick, count: nat, start: real)
    requires Stale(config, tick) && start <= tick.now
    requires Check(config, before, tick).action == Alert(true) ==> tick.persisted
    requires count > 0 ==> before.alerting && before.lastAlert <= tick.now
    requires count > 0 ==> (count - 1) as real * config.realert <= before.lastAlert - start
    ensures var o := Check(config, before, tick);
      var after := if tick.persisted then o.marker else before;
      if o.action == Alert(true) then
        && after.alerting && after.lastAlert == tick.now
        && count as real * config.realert <= after.lastAlert - start
      else count > 0 ==> after.alerting && after.lastAlert == before.lastAlert
  {
    if count > 0 {
      OneMore(count, config.realert, before.lastAlert - start, tick.now - before.lastAlert);
    }
  }

  lemma OneMore(n: nat, gap: real, long: real, more: real)
    requires n > 0
    ensures (n - 1) as real * gap <= long && more >= gap ==> n as real * gap <= long + more
  {
    assert n as real * gap == (n - 1) as real * gap + gap;
  }

  /** An outage of length `D` brings at most `floor(D / realert) + 1` alerts, as long as
      their own markers are kept. */
  lemma AlertsAreBounded(config: Config, initial: Marker, ticks: seq<Tick>, start: nat, end: nat)
    requires Nondecreasing(ticks) && config.realert > 0.0
    requires start < end <= |ticks| && AllStale(config, ticks, start, end)
    requires AlertsKept(config, initial, ticks, start, end)
    ensures DeliveredAlerts(config, initial, ticks, start, end) <=
            ((ticks[end - 1].now - ticks[start].now) / config.realert).Floor + 1
  {
    hide ActionAt, MarkerAfter, DeliveredAlerts;
    var count := DeliveredAlerts(config, initial, ticks, start, end);
    var length := ticks[end - 1].now - ticks[start].now;
    AlertsTakeTime(config, initial, ticks, start, end);
    assert start == end - 1 || ticks[start].now <= ticks[end - 1].now;
    Quotient(if count > 0 then count - 1 else 0, config.realert, length);
  }

  lemma Quotient(n: nat, gap: real, length: real)
    requires gap > 0.0 && n as real * gap <= length
    ensures n <= (length / gap).Floor
  {
    var spare := length - n as real * gap;
    assert length / gap == n as real + spare / gap;
    assert spare / gap >= 0.0;
  }

  // ----- A lost first alert

  /** No alert of this outage, ticks `start .. i`, got through. */
  predicate NoneDelivered(config: Config, initial: Marker, ticks: seq<Tick>, start: nat, i: nat)
    requires start <= i <= |ticks|
  {
    forall k :: start <= k < i ==> ActionAt(config, initial, ticks, k) != Alert(true)
  }

  lemma {:induction false} LastDeliveredStays(config: Config, initial: Marker, ticks: seq<Tick>, start: nat, i: nat)
    requires start <= i <= |ticks| && NoneDelivered(config, initial, ticks, start, i)
    ensures LastDelivered(config, initial, ticks[..i]) == LastDelivered(config, initial, ticks[..start])
    decreases i
  {
    hide ActionAt, LastDelivered;
    if start < i {
      LastDeliveredStep(config, initial, ticks, i);
      assert ActionAt(config, initial, ticks, i - 1) != Alert(true);
      LastDeliveredStays(config, initial, ticks, start, i - 1);
    }
  }

  /** While an outage has not been reported, a later tick of it tries again exactly when
      the last alert of an earlier outage is at least `realert` old. */
  lemma LostAlertIsRetried(config: Config, initial: Marker, ticks: seq<Tick>, start: nat, i: nat)
    requires AllPersisted(ticks) && start < i < |ticks| && AllStale(config, ticks, start, i + 1)
    requires NoneDelivered(config, initial, ticks, start, i)
    ensures ActionAt(config, initial, ticks, i).Alert? <==>
            ticks[i].now - LastDelivered(config, initial, ticks[..start]) >= config.realert
  {
    ActionsFollowHistory(config, initial, ticks, i);
    LastDeliveredStays(config, initial, ticks, start, i);
    assert Stale(config, ticks[i - 1]);
  }

  /** So a second outage soon after a reported one can stay unreported: its first alert is
      lost, and the retry is suppressed on account of the first outage's alert. */
  lemma UnreportedOutage()
    ensures var config, none := Config(300.0, 3600.0), Marker(false, 0.0, None);
      var ticks := [Tick(10000.0, None, true, true), Tick(10100.0, Some(10100.0), true, true),
                    Tick(10200.0, None, false, true), Tick(10300.0, None, true, true)];
      && ActionAt(config, none, ticks, 0) == Alert(true)
      && ActionAt(config, none, ticks, 1) == Recovery(true)
      && ActionAt(config, none, ticks, 2) == Alert(false)
      && ActionAt(config, none, ticks, 3) == Suppressed
  {
    var config, none := Config(300.0, 3600.0), Marker(false, 0.0, None);
    var a, b, c, d := Tick(10000.0, None, true, true), Tick(10100.0, Some(10100.0), true, true),
                      Tick(10200.0, None, false, true), Tick(10300.0, None, true, true);
    var ticks := [a, b, c, d];
    assert ticks[..0] == [] && ticks[..1] == [a] && ticks[..2] == [a, b] && ticks[..3] == [a, b, c];
    MarkerSnoc(config, none, [], a);
    MarkerSnoc(config, none, [a], b);
    MarkerSnoc(config, none, [a, b], c);
    assert [] + [a] == [a] && [a] + [b] == [a, b] && [a, b] + [c] == [a, b, c];
  }

  lemma MarkerSnoc(config: Config, initial: Marker, ticks: seq<Tick>, tick: Tick)
    ensures MarkerAfter(config, initial, ticks + [tick]) ==
            var before := MarkerAfter(config, initial, ticks);
            if tick.persisted then Check(config, before, tick).marker else before
  {
    assert (ticks + [tick])[..|ticks|] == ticks;
  }

  // ----- Markers that are not kept

  /** The ticks whose marker was kept. */
  function Kept(ticks: seq<Tick>): seq<Tick>
    decreases |ticks|
  {
    if ticks == [] then []
    else Kept(ticks[..|ticks| - 1]) + if ticks[|ticks| - 1].persisted then [ticks[|ticks| - 1]] else []
  }

  /** The switch remembers exactly the kept ticks. */
  lemma {:induction false} OnlyKeptCount(config: Config, initial: Marker, ticks: seq<Tick>)
    ensures MarkerAfter(config, initial, ticks) == MarkerAfter(config, initial, Kept(ticks))
    ensures AllPersisted(Kept(ticks))
    decreases |ticks|
  {
    if ticks != [] {
      hide Check;
      var n := |ticks| - 1;
      OnlyKeptCount(config, initial, ticks[..n]);
      MarkerSnoc(config, initial, Kept(ticks[..n]), ticks[n]);
      assert Kept(ticks[..n]) + [] == Kept(ticks[..n]);
    }
  }

  /** What the switch takes the engine's state to have been: that of the last kept tick. */
  predicate BelievedSilent(config: Config, initial: Marker, ticks: seq<Tick>) {
    var kept := Kept(ticks);
    if kept == [] then initial.alerting else Stale(config, kept[|kept| - 1])
  }

  /** What each tick does, for every mix of kept and lost markers: it exits 1 exactly when
      the engine is silent; it tries to send an alert exactly when the engine is silent and
      either the last kept tick was not, or the last alert delivered at a kept tick is
      `realert` old; it tries to send a recovery notice exactly when the engine is not
      silent and the last kept tick was. */
  lemma ActionsFollowKept(config: Config, initial: Marker, ticks: seq<Tick>, i: nat)
    requires i < |ticks|
    ensures Check(config, MarkerAfter(config, initial, ticks[..i]), ticks[i]).exitCode ==
            match ticks[i].stateTime case None => 1 case Some(t) => if ticks[i].now > t + config.maxAge then 1 else 0
    ensures ActionAt(config, initial, ticks, i).Alert? <==>
            Stale(config, ticks[i]) &&
            (!BelievedSilent(config, initial, ticks[..i]) ||
             ticks[i].now - LastDelivered(config, initial, Kept(ticks[..i])) >= config.realert)
    ensures ActionAt(config, initial, ticks, i).Recovery? <==>
            !Stale(config, ticks[i]) && BelievedSilent(config, initial, ticks[..i])
  {
    OnlyKeptCount(config, initial, ticks[..i]);
    MarkerIsHistory(config, initial, Kept(ticks[..i]));
  }

  /** So the first silent tick after a good one is passed over when the good one's marker
      was lost: the switch still believes in the outage before. */
  lemma LostRecovery()
    ensures var config, none := Config(300.0, 3600.0), Marker(false, 0.0, None);
      var ticks := [Tick(10000.0, None, true, true), Tick(10100.0, Some(10100.0), true, false),
                    Tick(10200.0, None, true, false)];
      && ActionAt(config, none, ticks, 0) == Alert(true)
      && ActionAt(config, none, ticks, 1) == Recovery(true)
      && ActionAt(config, none, ticks, 2) == Suppressed
  {
    var config, none := Config(300.0, 3600.0), Marker(false, 0.0, None);
    var a, b := Tick(10000.0, None, true, true), Tick(10100.0, Some(10100.0), true, false);
    var c := Tick(10200.0, None, true, false);
    var ticks := [a, b, c];
    assert ticks[..0] == [] && ticks[..1] == [a] && ticks[..2] == [a, b];
    MarkerSnoc(config, none, [], a);
    MarkerSnoc(config, none, [a], b);
    assert [] + [a] == [a] && [a] + [b] == [a, b];
  }
}
