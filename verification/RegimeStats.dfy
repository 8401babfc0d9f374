/** Statistics of a regime label sequence: the share of return variance the labels
    explain, run lengths, and stay and flip counts. */
module RegimeStats {
  import opened Reals

  // ----- Variance decomposition

  function Mean(vs: seq<real>): real { if vs == [] then 0.0 else Sum(vs) / (|vs| as real) }

  function Square(x: real): real { Product(x, x) }

  /** The sum of squared distances from `c`. */
  function Spread(vs: seq<real>, c: real): real
    decreases |vs|
  {
    if vs == [] then 0.0 else Spread(vs[..|vs| - 1], c) + Square(vs[|vs| - 1] - c)
  }

  function AllValues(groups: seq<seq<real>>): seq<real>
    decreases |groups|
  {
    if groups == [] then [] else AllValues(groups[..|groups| - 1]) + groups[|groups| - 1]
  }

  /** The between-group sum of squares around `c`; empty groups do not count. */
  function Between(groups: seq<seq<real>>, c: real): real
    decreases |groups|
  {
    if groups == [] then 0.0
    else
      var vs := groups[|groups| - 1];
      Between(groups[..|groups| - 1], c) + if vs == [] then 0.0 else Product(|vs| as real, Square(Mean(vs) - c))
  }

  function Within(groups: seq<seq<real>>): real
    decreases |groups|
  {
    if groups == [] then 0.0
    else Within(groups[..|groups| - 1]) + Spread(groups[|groups| - 1], Mean(groups[|groups| - 1]))
  }

  function Clamp(x: real): real {
    var upper := if 1.0 < x then 1.0 else x;
    if upper > 0.0 then upper else 0.0
  }

  function EtaSquared(groups: seq<seq<real>>): real {
    var all := AllValues(groups);
    if |all| < 2 then 0.0
    else
      var total := Spread(all, Mean(all));
      if total <= 0.0 then 0.0 else Clamp(Between(groups, Mean(all)) / total)
  }

  lemma SquareIsNonnegative(x: real)
    ensures Square(x) >= 0.0
    ensures Square(x) == 0.0 <==> x == 0.0
  {
    if x != 0.0 {
      hide Product;
      NegatedProduct(x);
      if x > 0.0 {
        PositiveProduct(x, x);
      } else {
        PositiveProduct(-x, -x);
      }
    }
  }

  lemma {:induction false} SpreadIsNonnegative(vs: seq<real>, c: real)
    ensures Spread(vs, c) >= 0.0
    ensures Spread(vs, c) == 0.0 <==> forall i :: 0 <= i < |vs| ==> vs[i] == c
    decreases |vs|
  {
    if vs != [] {
      hide Square;
      SpreadIsNonnegative(vs[..|vs| - 1], c);
      SquareIsNonnegative(vs[|vs| - 1] - c);
    }
  }

  lemma ExpandSquare(v: real, c: real)
    ensures Square(v - c) == Square(v) - 2.0 * Product(c, v) + Square(c)
  {
  }

  /** The spread around any point, from the spread around zero and the sum. */
  lemma {:induction false} SpreadExpands(vs: seq<real>, c: real)
    ensures Spread(vs, c) == Spread(vs, 0.0) - 2.0 * Product(c, Sum(vs)) + Product(|vs| as real, Square(c))
    decreases |vs|
  {
    if vs == [] {
      ProductIs(c, 0.0);
      ProductIs(0.0, Square(c));
    } else {
      hide Square, Product;
      var n := |vs| - 1;
      SpreadExpands(vs[..n], c);
      ExpandSquare(vs[n], c);
      ZeroDistance(vs[n]);
      Distribute(Sum(vs[..n]), vs[n], c);
      Distribute(n as real, 1.0, Square(c));
      ProductIs(1.0, Square(c));
    }
  }

  lemma ZeroDistance(v: real)
    ensures Square(v - 0.0) == Square(v)
  {
  }

  lemma ShiftAlgebra(n: real, m: real, c: real, q: real, s: real)
    requires Product(n, m) == s
    ensures q - 2.0 * Product(c, s) + Product(n, Square(c))
         == (q - 2.0 * Product(m, s) + Product(n, Square(m))) + Product(n, Square(m - c))
  {
    ShiftPolynomial(n, m, c);
    assert s == n * m;
  }

  lemma ShiftPolynomial(n: real, m: real, c: real)
    ensures -2.0 * (c * (n * m)) + n * (c * c) == (-2.0 * (m * (n * m)) + n * (m * m)) + n * ((m - c) * (m - c))
  {
  }

  lemma MeanTimesCount(vs: seq<real>)
    requires vs != []
    ensures Product(|vs| as real, Mean(vs)) == Sum(vs)
  {
    hide Sum, Product;
    DivideBack(|vs| as real, Sum(vs));
  }

  /** Moving the centre away from the mean adds the squared distance once per value. */
  lemma SpreadAroundMean(vs: seq<real>, c: real)
    requires vs != []
    ensures Spread(vs, c) == Spread(vs, Mean(vs)) + Product(|vs| as real, Square(Mean(vs) - c))
  {
    hide Square, Product, Spread, Mean;
    MeanTimesCount(vs);
    SpreadExpands(vs, c);
    SpreadExpands(vs, Mean(vs));
    ShiftAlgebra(|vs| as real, Mean(vs), c, Spread(vs, 0.0), Sum(vs));
  }

  lemma SpreadAppend(vs: seq<real>, v: real, c: real)
    ensures Spread(vs + [v], c) == Spread(vs, c) + Square(v - c)
  {
    hide Square;
    assert (vs + [v])[..|vs|] == vs;
  }

  lemma {:induction false} SpreadConcat(a: seq<real>, b: seq<real>, c: real)
    ensures Spread(a + b, c) == Spread(a, c) + Spread(b, c)
    decreases |b|
  {
    hide *;
    EmptySpread(c);
    if b == [] {
      assert a + b == a;
    } else {
      var n := |b| - 1;
      SpreadConcat(a, b[..n], c);
      SpreadAppend(a + b[..n], b[n], c);
      SpreadAppend(b[..n], b[n], c);
      assert a + b == (a + b[..n]) + [b[n]] && b == b[..n] + [b[n]];
    }
  }

  lemma EmptySpread(c: real)
    ensures Spread([], c) == 0.0
  {
  }

  /** Variance decomposition: around any centre the total sum of squares is the
      between-group part plus the within-group part. */
  lemma {:induction false} TotalIsBetweenPlusWithin(groups: seq<seq<real>>, c: real)
    ensures Spread(AllValues(groups), c) == Between(groups, c) + Within(groups)
    decreases |groups|
  {
    if groups != [] {
      hide Square, Mean, Product;
      var n := |groups| - 1;
      TotalIsBetweenPlusWithin(groups[..n], c);
      SpreadConcat(AllValues(groups[..n]), groups[n], c);
      if groups[n] != [] {
        SpreadAroundMean(groups[n], c);
      }
    }
  }

  lemma {:induction false} BetweenIsNonnegative(groups: seq<seq<real>>, c: real)
    ensures Between(groups, c) >= 0.0
    decreases |groups|
  {
    if groups != [] {
      hide Square, Mean;
      var vs := groups[|groups| - 1];
      BetweenIsNonnegative(groups[..|groups| - 1], c);
      SquareIsNonnegative(Mean(vs) - c);
      assert Product(|vs| as real, Square(Mean(vs) - c)) >= 0.0;
    }
  }

  lemma {:induction false} WithinIsNonnegative(groups: seq<seq<real>>)
    ensures Within(groups) >= 0.0
    ensures Within(groups) == 0.0 <==> forall k :: 0 <= k < |groups| ==> Constant(groups[k])
    decreases |groups|
  {
    if groups != [] {
      hide Spread, Mean, Constant;
      var vs := groups[|groups| - 1];
      WithinIsNonnegative(groups[..|groups| - 1]);
      SpreadIsNonnegative(vs, Mean(vs));
      ConstantIsMean(vs);
    }
  }

  /** All values of the group are the same. */
  predicate Constant(vs: seq<real>) { forall i, j :: 0 <= i < |vs| && 0 <= j < |vs| ==> vs[i] == vs[j] }

  lemma {:induction false} SumOfEqual(vs: seq<real>, v: real)
    requires forall i :: 0 <= i < |vs| ==> vs[i] == v
    ensures Sum(vs) == (|vs| as real) * v
    decreases |vs|
  {
    if vs != [] {
      SumOfEqual(vs[..|vs| - 1], v);
      assert (|vs| as real) * v == ((|vs| - 1) as real) * v + v;
    }
  }

  lemma ConstantIsMean(vs: seq<real>)
    ensures Constant(vs) <==> forall i :: 0 <= i < |vs| ==> vs[i] == Mean(vs)
  {
    if Constant(vs) && vs != [] {
      SumOfEqual(vs, vs[0]);
      assert Mean(vs) == vs[0];
    }
  }

  lemma RatioBounds(b: real, t: real)
    requires 0.0 <= b <= t && t > 0.0
    ensures 0.0 <= b / t <= 1.0 && (b / t == 1.0 <==> b == t)
  {
  }

  /** The explained share lies in [0, 1] before it is clamped, so the clamp does nothing;
      it is one exactly when the values do not vary inside any group. */
  lemma EtaNeedsNoClamp(groups: seq<seq<real>>)
    requires |AllValues(groups)| >= 2 && Spread(AllValues(groups), Mean(AllValues(groups))) > 0.0
    ensures var c := Mean(AllValues(groups));
            var share := Between(groups, c) / Spread(AllValues(groups), c);
            && 0.0 <= share <= 1.0
            && EtaSquared(groups) == share
            && (EtaSquared(groups) == 1.0 <==> forall k :: 0 <= k < |groups| ==> Constant(groups[k]))
  {
    hide Spread, Between, Within, AllValues, Mean, Constant;
    var c := Mean(AllValues(groups));
    TotalIsBetweenPlusWithin(groups, c);
    BetweenIsNonnegative(groups, c);
    WithinIsNonnegative(groups);
    RatioBounds(Between(groups, c), Spread(AllValues(groups), c));
  }

  /** Without two values, or when they are all the same, nothing is explained. */
  lemma EtaWithoutVariation(groups: seq<seq<real>>)
    requires |AllValues(groups)| < 2 || Constant(AllValues(groups))
    ensures EtaSquared(groups) == 0.0
  {
    hide AllValues, Between, Constant, Spread, Mean;
    ConstantIsMean(AllValues(groups));
    SpreadIsNonnegative(AllValues(groups), Mean(AllValues(groups)));
  }

  // ----- Run lengths

  datatype Run = Run(lab: string, length: nat)

  /** The maximal runs of equal labels. */
  function Runs(labels: seq<string>): (runs: seq<Run>)
    ensures labels != [] ==> runs != [] && runs[|runs| - 1].lab == labels[|labels| - 1]
    decreases |labels|
  {
    if labels == [] then []
    else
      var n := |labels| - 1;
      var before := Runs(labels[..n]);
      if n > 0 && labels[n - 1] == labels[n] then
        before[..|before| - 1] + [Run(labels[n], before[|before| - 1].length + 1)]
      else before + [Run(labels[n], 1)]
  }

  function Repeat(lab: string, n: nat): (s: seq<string>)
    ensures |s| == n && forall i :: 0 <= i < n ==> s[i] == lab
  {
    seq(n, _ => lab)
  }

  function Expand(runs: seq<Run>): seq<string>
    decreases |runs|
  {
    if runs == [] then [] else Expand(runs[..|runs| - 1]) + Repeat(runs[|runs| - 1].lab, runs[|runs| - 1].length)
  }

  ghost predicate Maximal(runs: seq<Run>) {
    && (forall k :: 0 <= k < |runs| ==> runs[k].length > 0)
    && (forall k :: 0 <= k < |runs| - 1 ==> runs[k].lab != runs[k + 1].lab)
  }

  lemma ExpandAppend(runs: seq<Run>, run: Run)
    ensures Expand(runs + [run]) == Expand(runs) + Repeat(run.lab, run.length)
  {
    assert (runs + [run])[..|runs|] == runs;
  }

  lemma RepeatOneMore(lab: string, n: nat)
    ensures Repeat(lab, n + 1) == Repeat(lab, n) + [lab]
  {
  }

  lemma Associate(a: seq<string>, b: seq<string>, c: seq<string>)
    ensures a + (b + c) == (a + b) + c
  {
  }

  lemma ExpandLonger(runs: seq<Run>)
    requires runs != []
    ensures var last := runs[|runs| - 1];
            Expand(runs[..|runs| - 1] + [Run(last.lab, last.length + 1)]) == Expand(runs) + [last.lab]
  {
    hide *;
    var front, last := runs[..|runs| - 1], runs[|runs| - 1];
    assert runs == front + [last];
    ExpandAppend(front, last);
    ExpandAppend(front, Run(last.lab, last.length + 1));
    RepeatOneMore(last.lab, last.length);
    Associate(Expand(front), Repeat(last.lab, last.length), [last.lab]);
  }

  lemma RunsStep(labels: seq<string>)
    requires labels != []
    ensures var n := |labels| - 1;
            var before := Runs(labels[..n]);
            if n > 0 && labels[n - 1] == labels[n] then
              && before != [] && before[|before| - 1].lab == labels[n]
              && Runs(labels) == before[..|before| - 1] + [Run(labels[n], before[|before| - 1].length + 1)]
            else
              && Runs(labels) == before + [Run(labels[n], 1)]
              && (before != [] ==> before[|before| - 1].lab != labels[n])
  {
    var n := |labels| - 1;
    if n > 0 {
      assert labels[..n][|labels[..n]| - 1] == labels[n - 1];
    }
  }

  lemma MaximalLonger(runs: seq<Run>)
    requires runs != [] && Maximal(runs)
    ensures var last := runs[|runs| - 1];
            Maximal(runs[..|runs| - 1] + [Run(last.lab, last.length + 1)])
  {
  }

  lemma MaximalAppend(runs: seq<Run>, run: Run)
    requires Maximal(runs) && run.length > 0 && (runs != [] ==> runs[|runs| - 1].lab != run.lab)
    ensures Maximal(runs + [run])
  {
  }

  lemma NoRuns()
    ensures Runs([]) == [] && Expand([]) == [] && Maximal([])
  {
  }

  /** The runs write the labels out again, and no run could be longer. */
  lemma {:induction false} RunsRoundTrip(labels: seq<string>)
    ensures Expand(Runs(labels)) == labels && Maximal(Runs(labels))
    decreases |labels|
  {
    hide *;
    if labels == [] {
      NoRuns();
    } else {
      var n := |labels| - 1;
      RunsRoundTrip(labels[..n]);
      RunsStep(labels);
      var before := Runs(labels[..n]);
      assert labels == labels[..n] + [labels[n]];
      if n > 0 && labels[n - 1] == labels[n] {
        ExpandLonger(before);
        MaximalLonger(before);
      } else {
        ExpandAppend(before, Run(labels[n], 1));
        MaximalAppend(before, Run(labels[n], 1));
        RepeatOneMore(labels[n], 0);
        NoRepeat(labels[n]);
      }
    }
  }

  lemma NoRepeat(lab: string)
    ensures Repeat(lab, 0) == []
  {
  }

  /** The lengths of the runs of one label, in order. */
  function LengthsOf(runs: seq<Run>, lab: string): seq<nat>
    decreases |runs|
  {
    if runs == [] then []
    else LengthsOf(runs[..|runs| - 1], lab) + if runs[|runs| - 1].lab == lab then [runs[|runs| - 1].length] else []
  }

  lemma LengthsAppend(runs: seq<Run>, run: Run, lab: string)
    ensures LengthsOf(runs + [run], lab) == LengthsOf(runs, lab) + if run.lab == lab then [run.length] else []
  {
    assert (runs + [run])[..|runs|] == runs;
  }

  function SumNat(ns: seq<nat>): nat
    decreases |ns|
  {
    if ns == [] then 0 else SumNat(ns[..|ns| - 1]) + ns[|ns| - 1]
  }

  lemma SumAppend(ns: seq<nat>, n: nat)
    ensures SumNat(ns + [n]) == SumNat(ns) + n
  {
    assert (ns + [n])[..|ns|] == ns;
  }

  function Count(labels: seq<string>, lab: string): nat
    decreases |labels|
  {
    if labels == [] then 0 else Count(labels[..|labels| - 1], lab) + if labels[|labels| - 1] == lab then 1 else 0
  }

  /** How often a label is followed by itself, and how often by anything. */
  function Stays(labels: seq<string>, lab: string): nat
    decreases |labels|
  {
    if |labels| < 2 then 0
    else
      var n := |labels| - 1;
      Stays(labels[..n], lab) + if labels[n - 1] == lab && labels[n] == lab then 1 else 0
  }

  function Flips(labels: seq<string>): nat
    decreases |labels|
  {
    if |labels| < 2 then 0
    else
      var n := |labels| - 1;
      Flips(labels[..n]) + if labels[n - 1] != labels[n] then 1 else 0
  }

  /** Run lengths against the other counters: the lengths of a label's runs add up to its
      count, each run but for its last element is a stay, and there is one run more than
      there are flips. */
  lemma {:induction false} RunsAddUp(labels: seq<string>, lab: string)
    ensures SumNat(LengthsOf(Runs(labels), lab)) == Count(labels, lab)
    ensures Stays(labels, lab) + |LengthsOf(Runs(labels), lab)| == Count(labels, lab)
    ensures labels != [] ==> |Runs(labels)| == Flips(labels) + 1
    decreases |labels|
  {
    if labels != [] {
      var n := |labels| - 1;
      hide Runs, LengthsOf;
      RunsAddUp(labels[..n], lab);
      RunsStep(labels);
      var before := Runs(labels[..n]);
      if n > 0 && labels[n - 1] == labels[n] {
        LengthenLast(before, lab);
      } else {
        LengthsAppend(before, Run(labels[n], 1), lab);
        SumAppend(LengthsOf(before, lab), 1);
        assert LengthsOf(before, lab) + [] == LengthsOf(before, lab);
        assert n == 0 ==> before == [];
      }
    }
  }

  lemma LengthenLast(runs: seq<Run>, lab: string)
    requires runs != []
    ensures var last := runs[|runs| - 1];
            var longer := runs[..|runs| - 1] + [Run(last.lab, last.length + 1)];
            && |LengthsOf(longer, lab)| == |LengthsOf(runs, lab)|
            && SumNat(LengthsOf(longer, lab)) == SumNat(LengthsOf(runs, lab)) + if last.lab == lab then 1 else 0
  {
    var m := |runs| - 1;
    var front, last := runs[..m], runs[m];
    var lengths := LengthsOf(front, lab);
    assert runs == front + [last];
    LengthsAppend(front, last, lab);
    LengthsAppend(front, Run(last.lab, last.length + 1), lab);
    SumAppend(lengths, last.length);
    SumAppend(lengths, last.length + 1);
    assert lengths + [] == lengths;
  }

  // ----- The loops

  /** A dictionary of lists that starts every key at the empty list. */
  function ListAt(lists: map<string, seq<nat>>, key: string): seq<nat> { if key in lists then lists[key] else [] }

  method RunLengths(labels: seq<string>) returns (runs: map<string, seq<nat>>)
    ensures forall lab :: ListAt(runs, lab) == LengthsOf(Runs(labels), lab)
  {
    hide LengthsOf;
    NoLengths();
    runs := map[];
    if labels == [] {
      return;
    }
    var cur, length := labels[0], 1;
    var i := 1;
    ghost var done: seq<Run> := [];
    FirstRun(labels);
    while i < |labels|
      invariant 1 <= i <= |labels|
      invariant cur == labels[i - 1]
      invariant Runs(labels[..i]) == done + [Run(cur, length)]
      invariant forall lab :: ListAt(runs, lab) == LengthsOf(done, lab)
    {
      var next := labels[i];
      assert labels[..i + 1][..i] == labels[..i];
      if next == cur {
        length := length + 1;
      } else {
        AppendedLength(runs, done, Run(cur, length));
        done := done + [Run(cur, length)];
        runs := runs[cur := ListAt(runs, cur) + [length]];
        cur, length := next, 1;
      }
      i := i + 1;
    }
    assert labels[..i] == labels;
    AppendedLength(runs, done, Run(cur, length));
    runs := runs[cur := ListAt(runs, cur) + [length]];
  }

  lemma NoLengths()
    ensures Runs([]) == [] && forall lab :: LengthsOf([], lab) == []
  {
  }

  lemma AppendedLength(runs: map<string, seq<nat>>, done: seq<Run>, run: Run)
    requires forall lab :: ListAt(runs, lab) == LengthsOf(done, lab)
    ensures forall lab ::
              ListAt(runs[run.lab := ListAt(runs, run.lab) + [run.length]], lab) == LengthsOf(done + [run], lab)
  {
    hide LengthsOf;
    forall lab
      ensures ListAt(runs[run.lab := ListAt(runs, run.lab) + [run.length]], lab) == LengthsOf(done + [run], lab) {
      LengthsAppend(done, run, lab);
      assert LengthsOf(done, lab) + [] == LengthsOf(done, lab);
    }
  }

  lemma FirstRun(labels: seq<string>)
    requires labels != []
    ensures Runs(labels[..1]) == [] + [Run(labels[0], 1)]
  {
    assert labels[..1][..0] == [];
  }

  function CountAt(counts: map<string, nat>, key: string): nat { if key in counts then counts[key] else 0 }

  /** Successors of a label: every occurrence but a final one has one. */
  function Successors(labels: seq<string>, lab: string): nat {
    Count(labels, lab) - if labels != [] && labels[|labels| - 1] == lab && Count(labels, lab) > 0 then 1 else 0
  }

  lemma CountFront(labels: seq<string>, lab: string)
    requires labels != []
    ensures Count(labels[..|labels| - 1], lab) == Successors(labels, lab)
  {
  }

  lemma NoTransitions(labels: seq<string>)
    ensures labels == [] ==> forall lab :: Stays(labels, lab) == 0
    ensures labels == [] ==> forall lab :: Count(labels, lab) == 0
    ensures labels == [] ==> Flips(labels) == 0
    ensures labels != [] ==> forall lab :: Stays(labels[..1], lab) == 0
    ensures labels != [] ==> forall lab :: Count(labels[..0], lab) == 0
    ensures labels != [] ==> Flips(labels[..1]) == 0
  {
  }

  lemma TransitionStep(before: seq<string>, a: string, b: string)
    ensures forall lab ::
              Stays(before + [a, b], lab) == Stays(before + [a], lab) + if a == lab && b == lab then 1 else 0
    ensures forall lab :: Count(before + [a], lab) == Count(before, lab) + if a == lab then 1 else 0
    ensures Flips(before + [a, b]) == Flips(before + [a]) + if a != b then 1 else 0
  {
    var n := |before|;
    assert (before + [a, b])[..n + 1] == before + [a] && (before + [a])[..n] == before;
  }

  method Transitions(labels: seq<string>)
    returns (stayHits: map<string, nat>, stayTotal: map<string, nat>, rawFlips: nat)
    ensures forall lab :: (if lab in stayHits then stayHits[lab] else 0) == Stays(labels, lab)
    ensures forall lab :: (if lab in stayTotal then stayTotal[lab] else 0) == Successors(labels, lab)
    ensures rawFlips == Flips(labels)
  {
    hide Stays, Count, Flips;
    stayHits, stayTotal, rawFlips := map[], map[], 0;
    var i := 0;
    NoTransitions(labels);
    while i + 1 < |labels|
      invariant 0 <= i && (labels == [] || i + 1 <= |labels|)
      invariant labels != [] ==> forall lab :: CountAt(stayHits, lab) == Stays(labels[..i + 1], lab)
      invariant labels != [] ==> forall lab :: CountAt(stayTotal, lab) == Count(labels[..i], lab)
      invariant labels != [] ==> rawFlips == Flips(labels[..i + 1])
      invariant labels == [] ==> i == 0 && stayHits == map[] && stayTotal == map[] && rawFlips == 0
      decreases |labels| - i
    {
      var a, b := labels[i], labels[i + 1];
      TransitionStep(labels[..i], a, b);
      assert labels[..i + 1] == labels[..i] + [a] && labels[..i + 2] == labels[..i] + [a, b];
      ghost var hits, total := stayHits, stayTotal;
      stayTotal := stayTotal[a := CountAt(stayTotal, a) + 1];
      if a == b {
        stayHits := stayHits[a := CountAt(stayHits, a) + 1];
      } else {
        rawFlips := rawFlips + 1;
      }
      i := i + 1;
      forall lab ensures CountAt(stayHits, lab) == Stays(labels[..i + 1], lab) {
        assert CountAt(hits, lab) == Stays(labels[..i], lab);
      }
      forall lab ensures CountAt(stayTotal, lab) == Count(labels[..i], lab) {
        assert CountAt(total, lab) == Count(labels[..i - 1], lab);
      }
    }
    if labels != [] {
      assert labels[..i + 1] == labels && i == |labels| - 1;
      forall lab ensures CountAt(stayTotal, lab) == Successors(labels, lab) {
        CountFront(labels, lab);
      }
    } else {
      forall lab ensures Successors(labels, lab) == 0 == Stays(labels, lab) {
        assert Count(labels, lab) == 0;
      }
    }
    forall lab ensures (if lab in stayHits then stayHits[lab] else 0) == Stays(labels, lab) {
      assert CountAt(stayHits, lab) == Stays(labels, lab);
    }
    forall lab ensures (if lab in stayTotal then stayTotal[lab] else 0) == Successors(labels, lab) {
      assert CountAt(stayTotal, lab) == Successors(labels, lab);
    }
  }
}
