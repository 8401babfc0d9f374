/** The pre-registered regime switch rule: 30 consecutive daily bars of one kind confirm a
    regime, and a confirmed regime other than the current one is a switch. */
module RegimeSwitch {

  const CONFIRM_BARS: nat := 30
  const MIN_HISTORY: nat := 221
  const SLOPE_LOOKBACK: nat := 21

  datatype Phase = Unknown | Bull | Bear | Sideways

  datatype Kind = BullKind | NonBull

  /** One daily bar with its phase; the date is a day number. */
  datatype Row = Row(date: int, close: real, phase: Phase)

  /** A firing: the row it fired on and the configuration it switches to. */
  datatype Switch = Switch(row: Row, to: Kind)

  function KindOf(phase: Phase): Kind { if phase.Bull? then BullKind else NonBull }

  function Known(rows: seq<Row>): seq<Row>
    decreases |rows|
  {
    if rows == [] then []
    else
      var last := rows[|rows| - 1];
      Known(rows[..|rows| - 1]) + if last.phase.Unknown? then [] else [last]
  }

  /** Dropping unknown bars, part by part. */
  lemma {:induction false} KnownParts(a: seq<Row>, b: seq<Row>, row: Row)
    ensures Known([]) == [] && Known([row]) == if row.phase == Unknown then [] else [row]
    ensures Known(a + b) == Known(a) + Known(b)
    decreases |b|
  {
    assert [row][..0] == [];
    if b == [] {
      assert a + b == a;
    } else {
      var n := |b| - 1;
      KnownParts(a, b[..n], row);
      assert (a + b)[..|a + b| - 1] == a + b[..n] && (a + b)[|a + b| - 1] == b[n];
    }
  }

  // ----- Phases

  /** The phase of bar `i`, from the closes and the moving average before it. The moving
      average is an input; it is absent where it has no value. */
  datatype Average = Missing | Value(v: real)

  function PhaseAt(closes: seq<real>, ema: seq<Average>, i: nat): Phase
    requires i < |closes| && |ema| == |closes|
  {
    if i < MIN_HISTORY || ema[i - 1].Missing? then Unknown
    else
      var last, now := closes[i - 1], ema[i - 1].v;
      var earlier := ema[i - 1 - SLOPE_LOOKBACK];
      // A comparison with a missing value is false.
      var slopeUp := earlier.Value? && now > earlier.v;
      if last > now && slopeUp then Bull
      else if last < now && !slopeUp then Bear
      else Sideways
  }

  /** Strictly before: two series that agree on every bar before `i` give bar `i` the same
      phase, whatever bar `i` and the later bars hold. */
  lemma PhaseIgnoresLaterBars(closes: seq<real>, ema: seq<Average>, closes': seq<real>, ema': seq<Average>, i: nat)
    requires i < |closes| == |ema| && i < |closes'| == |ema'|
    requires closes[..i] == closes'[..i] && ema[..i] == ema'[..i]
    ensures PhaseAt(closes, ema, i) == PhaseAt(closes', ema', i)
  {
    if i >= MIN_HISTORY {
      assert closes[..i][i - 1] == closes'[..i][i - 1];
      assert ema[..i][i - 1] == ema'[..i][i - 1];
      assert ema[..i][i - 1 - SLOPE_LOOKBACK] == ema'[..i][i - 1 - SLOPE_LOOKBACK];
    }
  }

  /** A bar is bull exactly when there is enough history and the close before it lay above the
      average before it, which had risen over 21 bars; bear when the close lay below an average
      that had not; unknown without history or an average. */
  lemma PhaseMeans(closes: seq<real>, ema: seq<Average>, i: nat)
    requires i < |closes| == |ema|
    ensures PhaseAt(closes, ema, i) == Unknown <==> i < 221 || ema[i - 1] == Missing
    ensures PhaseAt(closes, ema, i) == Bull <==>
            i >= 221 && ema[i - 1].Value? && ema[i - 22].Value? && closes[i - 1] > ema[i - 1].v > ema[i - 22].v
    ensures PhaseAt(closes, ema, i) == Bear <==>
            i >= 221 && ema[i - 1].Value? && closes[i - 1] < ema[i - 1].v
            && (ema[i - 22].Missing? || ema[i - 1].v <= ema[i - 22].v)
  {
  }

  // ----- The rule as a fold

  /** The variables of the walk. Before the first known bar there is no run. */
  datatype Walk = Walk(current: Kind, runKind: Kind, runLen: nat, switches: seq<Switch>)

  const START := Walk(NonBull, NonBull, 0, [])

  function Step(w: Walk, row: Row): Walk {
    var kind := KindOf(row.phase);
    var runLen := if w.runLen > 0 && kind == w.runKind then w.runLen + 1 else 1;
    if runLen == CONFIRM_BARS && kind != w.current then Walk(kind, kind, runLen, w.switches + [Switch(row, kind)])
    else Walk(w.current, kind, runLen, w.switches)
  }

  function After(known: seq<Row>): Walk
    decreases |known|
  {
    if known == [] then START else Step(After(known[..|known| - 1]), known[|known| - 1])
  }

  // ----- The method

  datatype Verdict =
    | NotEnoughHistory
    | Verdict(asOf: Row, streakKind: Kind, streakLen: nat, barsToConfirm: nat, ruleSays: Kind, switches: seq<Switch>)

  function Report(known: seq<Row>): Verdict {
    if known == [] then NotEnoughHistory
    else
      var w, last := After(known), known[|known| - 1];
      Verdict(last, KindOf(last.phase), w.runLen,
              if w.runLen < CONFIRM_BARS then CONFIRM_BARS - w.runLen else 0, w.current, w.switches)
  }

  method Evaluate(phases: seq<Row>) returns (r: Verdict)
    ensures r == Report(Known(phases))
  {
    var known := KnownRows(phases);
    if known == [] {
      return NotEnoughHistory;
    }
    var current, runKind, runLen, switches := NonBull, NonBull, 0, [];
    var i := 0;
    assert known[..0] == [];
    while i < |known|
      invariant 0 <= i <= |known|
      invariant Walk(current, runKind, runLen, switches) == After(known[..i])
    {
      ghost var done := known[..i + 1];
      assert done[..i] == known[..i];
      var row := known[i];
      var kind := KindOf(row.phase);
      if runLen > 0 && kind == runKind {
        runLen := runLen + 1;
      } else {
        runKind, runLen := kind, 1;
      }
      if runLen == CONFIRM_BARS && kind != current {
        switches := switches + [Switch(row, kind)];
        current := kind;
      }
      i := i + 1;
    }
    assert known[..i] == known;
    var last := known[|known| - 1];
    r := Verdict(last, KindOf(last.phase), runLen,
                 if runLen < CONFIRM_BARS then CONFIRM_BARS - runLen else 0, current, switches);
  }

  method KnownRows(phases: seq<Row>) returns (known: seq<Row>)
    ensures known == Known(phases)
  {
    known := [];
    var i := 0;
    assert phases[..0] == [];
    while i < |phases|
      invariant 0 <= i <= |phases|
      invariant known == Known(phases[..i])
    {
      assert phases[..i + 1][..i] == phases[..i];
      if !phases[i].phase.Unknown? {
        known := known + [phases[i]];
      }
      i := i + 1;
    }
    assert phases[..i] == phases;
  }

  // ----- The rule, declaratively

  /** A full confirmation window of one kind ends at bar `j`. */
  predicate WindowEnds(known: seq<Row>, j: nat, kind: Kind)
    requires j < |known|
  {
    j + 1 >= 30 && forall i :: j - 29 <= i <= j ==> (known[i].phase == Bull <==> kind == BullKind)
  }

  /** The kind of the latest confirmation window; without any, non-bull. */
  function Latest(known: seq<Row>): Kind
    decreases |known|
  {
    if known == [] then NonBull
    else if WindowEnds(known, |known| - 1, BullKind) then BullKind
    else if WindowEnds(known, |known| - 1, NonBull) then NonBull
    else Latest(known[..|known| - 1])
  }

  /** The current run: its bars are of one kind, and the bar in front of it is not. */
  ghost predicate IsRun(known: seq<Row>, w: Walk) {
    if known == [] then w.runLen == 0
    else
      var n := |known|;
      && 1 <= w.runLen <= n
      && (forall i :: n - w.runLen <= i < n ==> KindOf(known[i].phase) == w.runKind)
      && (w.runLen < n ==> KindOf(known[n - w.runLen - 1].phase) != w.runKind)
  }

  lemma {:induction false} WalkTracksRun(known: seq<Row>)
    ensures IsRun(known, After(known))
    decreases |known|
  {
    if known != [] {
      WalkTracksRun(known[..|known| - 1]);
    }
  }

  lemma RunIsWindow(known: seq<Row>, w: Walk, kind: Kind)
    requires known != [] && IsRun(known, w)
    ensures WindowEnds(known, |known| - 1, kind) <==> w.runLen >= CONFIRM_BARS && kind == w.runKind
  {
    var n := |known|;
    assert KindOf(known[n - 1].phase) == w.runKind;
    assert w.runLen < n ==> KindOf(known[n - w.runLen - 1].phase) != w.runKind;
  }

  lemma WindowInPrefix(known: seq<Row>, n: nat, j: nat, kind: Kind)
    requires j < n <= |known|
    ensures WindowEnds(known[..n], j, kind) <==> WindowEnds(known, j, kind)
  {
    if WindowEnds(known[..n], j, kind) {
      forall i | j - 29 <= i <= j ensures known[i].phase == Bull <==> kind == BullKind {
        assert known[..n][i] == known[i];
      }
    }
  }

  /** The streaming rule is the declarative one: it says the kind of the latest window of
      30 known bars of one kind, and non-bull as long as there is none. */
  lemma {:induction false} RuleSaysLatestWindow(known: seq<Row>)
    ensures After(known).current == Latest(known)
    ensures After(known).runLen >= CONFIRM_BARS ==> After(known).current == After(known).runKind
    decreases |known|
  {
    if known != [] {
      hide WindowEnds;
      var n := |known| - 1;
      RuleSaysLatestWindow(known[..n]);
      WalkTracksRun(known);
      RunIsWindow(known, After(known), BullKind);
      RunIsWindow(known, After(known), NonBull);
    }
  }

  /** A bull window ends at bar `j` and no non-bull window ends later. */
  ghost predicate BullSince(known: seq<Row>, j: nat)
    requires j < |known|
  {
    WindowEnds(known, j, BullKind) && forall k :: j < k < |known| ==> !WindowEnds(known, k, NonBull)
  }

  lemma BullSinceStep(known: seq<Row>, n: nat, j: nat)
    requires |known| == n + 1 && j < n
    ensures BullSince(known, j) <==> BullSince(known[..n], j) && !WindowEnds(known, n, NonBull)
  {
    hide WindowEnds;
    forall k, kind | 0 <= k < n ensures WindowEnds(known[..n], k, kind) <==> WindowEnds(known, k, kind) {
      WindowInPrefix(known, n, k, kind);
    }
  }

  lemma {:induction false} LatestIsLatest(known: seq<Row>)
    ensures Latest(known) == BullKind <==> exists j :: 0 <= j < |known| && BullSince(known, j)
    decreases |known|
  {
    if known != [] {
      hide WindowEnds, BullSince;
      var n := |known| - 1;
      LatestIsLatest(known[..n]);
      OneKindPerWindow(known, n);
      forall j | 0 <= j < n
        ensures BullSince(known, j) <==> BullSince(known[..n], j) && !WindowEnds(known, n, NonBull) {
        BullSinceStep(known, n, j);
      }
      BullSinceLast(known, n);
    }
  }

  lemma BullSinceLast(known: seq<Row>, n: nat)
    requires |known| == n + 1
    ensures BullSince(known, n) <==> WindowEnds(known, n, BullKind)
  {
  }

  lemma OneKindPerWindow(known: seq<Row>, j: nat)
    requires j < |known|
    ensures !(WindowEnds(known, j, BullKind) && WindowEnds(known, j, NonBull))
  {
    assert WindowEnds(known, j, BullKind) ==> KindOf(known[j].phase) == BullKind;
    assert WindowEnds(known, j, NonBull) ==> KindOf(known[j].phase) == NonBull;
  }

  /** The streak at the end: how long the last known bars have been of the last one's kind. */
  predicate Streak(known: seq<Row>, n: nat) {
    && 1 <= n <= |known|
    && (forall i :: |known| - n <= i < |known| ==> (known[i].phase == Bull <==> known[|known| - 1].phase == Bull))
    && (n < |known| ==> (known[|known| - n - 1].phase == Bull <==> known[|known| - 1].phase != Bull))
  }

  /** What is reported: the last known bar, its streak and how much of 30 bars it lacks, the
      kind of the latest full window, and all switches. */
  lemma ReportMeans(known: seq<Row>)
    requires known != []
    ensures var r, last := Report(known), known[|known| - 1];
            && r.Verdict? && r.asOf == last && Streak(known, r.streakLen)
            && (r.streakKind == BullKind <==> last.phase == Bull)
            && r.barsToConfirm == (if r.streakLen >= 30 then 0 else 30 - r.streakLen)
            && (r.ruleSays == BullKind <==> exists j :: 0 <= j < |known| && BullSince(known, j))
            && WellSpaced(known, r.switches, SwitchBars(known))
  {
    hide BullSince, WellSpaced;
    WalkTracksRun(known);
    RuleSaysLatestWindow(known);
    LatestIsLatest(known);
    SwitchesAreWellSpaced(known);
    RunIsStreak(known, After(known));
  }

  lemma RunIsStreak(known: seq<Row>, w: Walk)
    requires known != [] && IsRun(known, w)
    ensures Streak(known, w.runLen)
  {
    assert KindOf(known[|known| - 1].phase) == w.runKind;
  }

  // ----- The switch list

  /** Where the switches happened: the bar of each, in order. */
  function SwitchBars(known: seq<Row>): (bars: seq<nat>)
    ensures |bars| == |After(known).switches|
    decreases |known|
  {
    if known == [] then []
    else
      var n := |known| - 1;
      SwitchBars(known[..n]) + if |After(known).switches| > |After(known[..n]).switches| then [n] else []
  }

  /** Every switch ends a confirmation window of its own target, targets alternate from
      the initial non-bull, and two switches are at least 30 known bars apart. */
  ghost predicate WellSpaced(known: seq<Row>, switches: seq<Switch>, bars: seq<nat>) {
    && |bars| == |switches|
    && (forall k :: 0 <= k < |bars| ==>
          && bars[k] < |known| && switches[k].row == known[bars[k]] && WindowEnds(known, bars[k], switches[k].to))
    && (|switches| > 0 ==> switches[0].to == BullKind)
    && (forall k :: 0 < k < |bars| ==> switches[k].to != switches[k - 1].to && bars[k] >= bars[k - 1] + 30)
  }

  /** The last switch is where the current configuration comes from. */
  ghost predicate LastSwitch(w: Walk) {
    w.current == if w.switches == [] then NonBull else w.switches[|w.switches| - 1].to
  }

  lemma WindowsApart(known: seq<Row>, j: nat, k: nat, kind: Kind, other: Kind)
    requires j < k < |known| && kind != other
    requires WindowEnds(known, j, kind) && WindowEnds(known, k, other)
    ensures k >= j + 30
  {
    assert KindOf(known[j].phase) == kind;
  }

  lemma SpacedInLonger(known: seq<Row>, n: nat, switches: seq<Switch>, bars: seq<nat>)
    requires n <= |known| && WellSpaced(known[..n], switches, bars)
    ensures WellSpaced(known, switches, bars)
    ensures forall k :: 0 <= k < |bars| ==> bars[k] < n
  {
    hide WindowEnds;
    forall k | 0 <= k < |bars|
      ensures bars[k] < |known| && switches[k].row == known[bars[k]] && WindowEnds(known, bars[k], switches[k].to) {
      WindowInPrefix(known, n, bars[k], switches[k].to);
    }
  }

  lemma SpacedAppend(known: seq<Row>, switches: seq<Switch>, bars: seq<nat>, sw: Switch, bar: nat)
    requires WellSpaced(known, switches, bars)
    requires bar < |known| && sw.row == known[bar] && WindowEnds(known, bar, sw.to)
    requires if switches == [] then sw.to == BullKind else sw.to != switches[|switches| - 1].to
    requires forall k :: 0 <= k < |bars| ==> bars[k] < bar
    ensures WellSpaced(known, switches + [sw], bars + [bar])
  {
    hide WindowEnds;
    if bars != [] {
      WindowsApart(known, bars[|bars| - 1], bar, switches[|bars| - 1].to, sw.to);
    }
  }

  lemma LastStep(known: seq<Row>)
    requires known != []
    ensures var n := |known| - 1;
            var w, w', kind := After(known[..n]), After(known), KindOf(known[n].phase);
            && w'.runKind == kind
            && if w'.runLen == CONFIRM_BARS && kind != w.current then
                 w'.current == kind && w'.switches == w.switches + [Switch(known[n], kind)]
                 && SwitchBars(known) == SwitchBars(known[..n]) + [n]
               else
                 w'.current == w.current && w'.switches == w.switches && SwitchBars(known) == SwitchBars(known[..n])
  {
  }

  lemma {:induction false} SwitchesAreWellSpaced(known: seq<Row>)
    ensures WellSpaced(known, After(known).switches, SwitchBars(known)) && LastSwitch(After(known))
    decreases |known|
  {
    if known == [] {
      NoSwitches();
    } else {
      hide WindowEnds, WellSpaced, After, SwitchBars, IsRun;
      var n := |known| - 1;
      SwitchesAreWellSpaced(known[..n]);
      WalkTracksRun(known);
      LastStep(known);
      var w, w' := After(known[..n]), After(known);
      SpacedInLonger(known, n, w.switches, SwitchBars(known[..n]));
      RunIsWindow(known, w', w'.runKind);
      if w'.runLen == CONFIRM_BARS && w'.runKind != w.current {
        SpacedAppend(known, w.switches, SwitchBars(known[..n]), Switch(known[n], w'.runKind), n);
      }
    }
  }

  lemma NoSwitches()
    ensures WellSpaced([], After([]).switches, SwitchBars([]))
  {
  }

  /** Extending the series only extends the switch list. */
  lemma {:induction false} SwitchListGrows(known: seq<Row>, more: seq<Row>)
    ensures After(known).switches <= After(known + more).switches
    decreases |more|
  {
    if more == [] {
      assert known + more == known;
    } else {
      var n := |more| - 1;
      SwitchListGrows(known, more[..n]);
      assert (known + more)[..|known + more| - 1] == known + more[..n];
    }
  }
}
