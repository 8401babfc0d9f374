/** The running peak and maximum drawdown of an equity curve. */
module Drawdown {
  import opened Reals

  /** The peak after the curve, starting from `seed`. */
  function Peak(seed: real, curve: seq<real>): (p: real)
    ensures p >= seed
    ensures forall i :: 0 <= i < |curve| ==> p >= curve[i]
    decreases |curve|
  {
    if curve == [] then seed else Max(Peak(seed, curve[..|curve| - 1]), curve[|curve| - 1])
  }

  /** The fraction of `high` lost at `low`. */
  function Drop(high: real, low: real): real
    requires high != 0.0
  {
    (high - low) / high
  }

  /** The percentage the value is below the peak. */
  function LossPct(peak: real, value: real): real { if peak > 0.0 then (peak - value) / peak * 100.0 else 0.0 }

  /** One turn of the single-pass loop, for a peak that already covers `value`. */
  function WithDrop(worst: real, peak: real, value: real): real {
    if peak > 0.0 then Max(worst, Drop(peak, value)) else worst
  }

  /** The same turn of a loop that keeps its result as a percentage. */
  lemma PercentStep(worst: real, peak: real, value: real)
    requires peak > 0.0
    ensures Max(100.0 * worst, LossPct(peak, value)) == 100.0 * WithDrop(worst, peak, value)
  {
  }

  /** What the single-pass loop has computed after the curve. */
  function MaxDrawdown(seed: real, curve: seq<real>): (d: real)
    ensures d >= 0.0
    decreases |curve|
  {
    if curve == [] then 0.0
    else WithDrop(MaxDrawdown(seed, curve[..|curve| - 1]), Peak(seed, curve), curve[|curve| - 1])
  }

  lemma CurveGrows(seed: real, curve: seq<real>, value: real)
    ensures Peak(seed, curve + [value]) == Max(Peak(seed, curve), value)
    ensures MaxDrawdown(seed, curve + [value]) == WithDrop(MaxDrawdown(seed, curve), Peak(seed, curve + [value]), value)
  {
    assert (curve + [value])[..|curve|] == curve;
  }

  // ----- The quadratic definition

  /** `d` is the largest loss between any two points of the curve, in time order. */
  ghost predicate IsWorstDrop(points: seq<real>, d: real) {
    && (exists i, j :: 0 <= i <= j < |points| && points[i] > 0.0 && d == Drop(points[i], points[j]))
    && (forall i, j :: 0 <= i <= j < |points| && points[i] > 0.0 ==> Drop(points[i], points[j]) <= d)
  }

  lemma DropRest(a: real, low: real)
    requires a > 0.0
    ensures (1.0 - Drop(a, low)) * a == low
  {
    assert Drop(a, low) * a == a - low;
  }

  lemma DropGrowsWithPeak(a: real, p: real, low: real)
    requires 0.0 < a <= p && low >= 0.0
    ensures Drop(a, low) <= Drop(p, low)
  {
    DropRest(a, low);
    DropRest(p, low);
    if Drop(a, low) > Drop(p, low) {
      assert false;
    }
  }

  lemma PeakIsAPoint(seed: real, curve: seq<real>) returns (i: nat)
    ensures i <= |curve| && ([seed] + curve)[i] == Peak(seed, curve)
    decreases |curve|
  {
    i := |curve|;
    if curve != [] && Peak(seed, curve) != curve[|curve| - 1] {
      i := PeakIsAPoint(seed, curve[..|curve| - 1]);
    }
  }

  // ----- The missing half of the single pass

  /** The smallest positive point, starting from a positive `seed`. */
  function Trough(seed: real, curve: seq<real>): (t: real)
    requires seed > 0.0
    ensures 0.0 < t <= seed
    ensures forall i :: 0 <= i < |curve| && curve[i] > 0.0 ==> t <= curve[i]
    decreases |curve|
  {
    if curve == [] then seed
    else
      var before, value := Trough(seed, curve[..|curve| - 1]), curve[|curve| - 1];
      if 0.0 < value < before then value else before
  }

  /** The largest loss from the smallest positive point so far to a negative one; zero
      without negative points. */
  function TroughDrawdown(seed: real, curve: seq<real>): (d: real)
    requires seed > 0.0
    ensures d >= 0.0
    ensures (forall i :: 0 <= i < |curve| ==> curve[i] >= 0.0) ==> d == 0.0
    decreases |curve|
  {
    if curve == [] then 0.0
    else
      var before, value := TroughDrawdown(seed, curve[..|curve| - 1]), curve[|curve| - 1];
      if value < 0.0 then Max(before, Drop(Trough(seed, curve), value)) else before
  }

  lemma TroughIsAPoint(seed: real, curve: seq<real>) returns (i: nat)
    requires seed > 0.0
    ensures i <= |curve| && ([seed] + curve)[i] == Trough(seed, curve)
    decreases |curve|
  {
    i := |curve|;
    if curve != [] && Trough(seed, curve) != curve[|curve| - 1] {
      i := TroughIsAPoint(seed, curve[..|curve| - 1]);
    }
  }

  lemma DropShrinksBelowZero(a: real, p: real, low: real)
    requires 0.0 < a <= p && low <= 0.0
    ensures Drop(a, low) >= Drop(p, low)
  {
    DropRest(a, low);
    DropRest(p, low);
    var x, y := 1.0 - Drop(a, low), 1.0 - Drop(p, low);
    if x > 0.0 {
      PositiveProduct(x, a);
    }
    ProductLe(a, p, -x);
    ProductLeInverse(x, y, p);
  }

  /** Adding a point adds the drops that end in it: the largest of them starts at the
      highest point so far, or, if the new point is negative, at the smallest positive
      one. */
  lemma WorstDropExtends(points: seq<real>, d: real, high: real, small: real, low: real)
    requires points != [] && IsWorstDrop(points, d)
    requires 0.0 < small <= high && low <= high && high in points + [low] && small in points + [low]
    requires forall i :: 0 <= i < |points| ==> points[i] <= high && (points[i] > 0.0 ==> small <= points[i])
    ensures IsWorstDrop(points + [low], Max(d, Drop(if low < 0.0 then small else high, low)))
  {
    var more, n := points + [low], |points|;
    var start := if low < 0.0 then small else high;
    var d' := Max(d, Drop(start, low));
    forall i, j | 0 <= i <= j < |more| && more[i] > 0.0 ensures Drop(more[i], more[j]) <= d' {
      if j < n {
        assert more[i] == points[i] && more[j] == points[j];
      } else if low < 0.0 {
        DropShrinksBelowZero(small, more[i], low);
      } else {
        DropGrowsWithPeak(more[i], high, low);
      }
    }
    if d' == d {
      var i, j :| 0 <= i <= j < |points| && points[i] > 0.0 && d == Drop(points[i], points[j]);
      assert more[i] == points[i] && more[j] == points[j];
    } else {
      var i :| 0 <= i < |more| && more[i] == start;
      assert more[n] == low && d' == Drop(more[i], more[n]);
    }
  }

  lemma MaxLaws(a: real, b: real, c: real, d: real)
    ensures d <= c ==> Max(Max(a, b), c) == Max(Max(a, d), Max(b, c))
    ensures Max(Max(a, b), c) == Max(Max(a, c), b)
  {
  }

  /** The largest loss between any two points, for every curve: what the single pass finds
      or what the smallest positive points find. */
  lemma {:induction false} TwoPassesAreQuadratic(seed: real, curve: seq<real>)
    requires seed > 0.0
    ensures IsWorstDrop([seed] + curve, Max(MaxDrawdown(seed, curve), TroughDrawdown(seed, curve)))
    decreases |curve|
  {
    hide Drop;
    if curve == [] {
      SinglePoint(seed, curve);
    } else {
      hide IsWorstDrop, Max;
      var before, low := curve[..|curve| - 1], curve[|curve| - 1];
      var points := [seed] + before;
      var high, small := Peak(seed, curve), Trough(seed, curve);
      TwoPassesAreQuadratic(seed, before);
      var i := PeakIsAPoint(seed, curve);
      var j := TroughIsAPoint(seed, curve);
      assert [seed] + curve == points + [low];
      WorstDropExtends(points, Max(MaxDrawdown(seed, before), TroughDrawdown(seed, before)), high, small, low);
      if low < 0.0 {
        DropShrinksBelowZero(small, high, low);
      }
      MaxLaws(MaxDrawdown(seed, before), TroughDrawdown(seed, before),
              Drop(if low < 0.0 then small else high, low), Drop(high, low));
    }
  }

  lemma SinglePoint(seed: real, curve: seq<real>)
    requires seed > 0.0 && curve == []
    ensures IsWorstDrop([seed] + curve, Max(MaxDrawdown(seed, curve), TroughDrawdown(seed, curve)))
  {
    var points := [seed] + curve;
    assert points == [seed];
    assert 0.0 == Drop(points[0], points[0]);
  }

  /** Exactly when the single pass computes the quadratic definition: when no negative
      point loses more, against the smallest positive point before it, than the single
      pass has found. */
  lemma SinglePassIsQuadraticIff(seed: real, curve: seq<real>)
    requires seed > 0.0
    ensures IsWorstDrop([seed] + curve, MaxDrawdown(seed, curve)) <==>
            TroughDrawdown(seed, curve) <= MaxDrawdown(seed, curve)
  {
    hide IsWorstDrop, MaxDrawdown, TroughDrawdown;
    var d, e := MaxDrawdown(seed, curve), TroughDrawdown(seed, curve);
    TwoPassesAreQuadratic(seed, curve);
    if IsWorstDrop([seed] + curve, d) {
      WorstDropIsUnique([seed] + curve, d, Max(d, e));
    }
  }

  /** In particular while equity stays nonnegative. */
  lemma SinglePassIsQuadratic(seed: real, curve: seq<real>)
    requires seed > 0.0 && forall i :: 0 <= i < |curve| ==> curve[i] >= 0.0
    ensures IsWorstDrop([seed] + curve, MaxDrawdown(seed, curve))
  {
    hide IsWorstDrop, MaxDrawdown;
    SinglePassIsQuadraticIff(seed, curve);
  }

  lemma OnePoint(seed: real, value: real)
    requires 0.0 < seed <= value
    ensures Peak(seed, [value]) == value && MaxDrawdown(seed, [value]) == 0.0
    ensures Trough(seed, [value]) == seed && TroughDrawdown(seed, [value]) == 0.0
  {
    var none := [value][..0];
    assert none == [] && Peak(seed, none) == seed && MaxDrawdown(seed, none) == 0.0;
    assert Drop(value, value) == 0.0;
  }

  /** A curve on which the two definitions part. */
  lemma NegativeEquityDiffers()
    ensures MaxDrawdown(1.0, [2.0, -1.0]) == 1.5
    ensures TroughDrawdown(1.0, [2.0, -1.0]) == 2.0
    ensures !IsWorstDrop([1.0] + [2.0, -1.0], MaxDrawdown(1.0, [2.0, -1.0]))
  {
    hide IsWorstDrop;
    var curve := [2.0, -1.0];
    assert curve[..1] == [2.0];
    OnePoint(1.0, 2.0);
    assert Peak(1.0, curve) == 2.0 && Trough(1.0, curve) == 1.0;
    assert Drop(2.0, -1.0) == 1.5 && Drop(1.0, -1.0) == 2.0;
    SinglePassIsQuadraticIff(1.0, curve);
  }

  /** The result is the least bound: it is determined by the pairs alone. */
  lemma WorstDropIsUnique(points: seq<real>, d: real, e: real)
    requires IsWorstDrop(points, d) && IsWorstDrop(points, e)
    ensures d == e
  {
  }
}
