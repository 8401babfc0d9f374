/** Stable sorting by a strict order, as the library sort does it, specified without
    reference to an algorithm. */
module StableSort {

  /** `before(a, b)`: the sort must put `a` in front of `b`. */
  type Order<!T> = (T, T) -> bool

  /** A strict weak order: what comparing sort keys gives. */
  ghost predicate IsOrder<T(!new)>(before: Order<T>) {
    && (forall a :: !before(a, a))
    && (forall a, b, c :: before(a, b) && before(b, c) ==> before(a, c))
    && (forall a, b, c :: before(a, c) ==> before(a, b) || before(b, c))
  }

  /** Neither has to go first: their keys are equal. */
  predicate Tied<T>(before: Order<T>, a: T, b: T) { !before(a, b) && !before(b, a) }

  ghost predicate IsSorted<T>(before: Order<T>, s: seq<T>) {
    forall i, j :: 0 <= i < j < |s| ==> !before(s[j], s[i])
  }

  /** The elements tied with `x`, in their order. */
  function TiedWith<T>(before: Order<T>, s: seq<T>, x: T): seq<T>
    decreases |s|
  {
    if s == [] then [] else (if Tied(before, s[0], x) then [s[0]] else []) + TiedWith(before, s[1..], x)
  }

  /** `r` is the stable sort of `s`: sorted, and equal keys stay in their order. */
  ghost predicate IsStableSort<T(!new)>(before: Order<T>, s: seq<T>, r: seq<T>) {
    IsSorted(before, r) && forall x :: TiedWith(before, r, x) == TiedWith(before, s, x)
  }

  // ----- An implementation

  /** Insert in front of everything that `x` must precede, or that it is tied with: `x`
      comes earlier in the input. */
  function Insert<T>(before: Order<T>, x: T, s: seq<T>): seq<T>
    decreases |s|
  {
    if s == [] then [x] else if before(s[0], x) then [s[0]] + Insert(before, x, s[1..]) else [x] + s
  }

  function Sort<T>(before: Order<T>, s: seq<T>): seq<T>
    decreases |s|
  {
    if s == [] then [] else Insert(before, s[0], Sort(before, s[1..]))
  }

  lemma {:induction false} InsertMultiset<T>(before: Order<T>, x: T, s: seq<T>)
    ensures multiset(Insert(before, x, s)) == multiset(s) + multiset{x}
    decreases |s|
  {
    if s != [] && before(s[0], x) {
      InsertMultiset(before, x, s[1..]);
      assert s == [s[0]] + s[1..];
    }
  }

  lemma {:induction false} SortMultiset<T>(before: Order<T>, s: seq<T>)
    ensures multiset(Sort(before, s)) == multiset(s)
    decreases |s|
  {
    if s != [] {
      SortMultiset(before, s[1..]);
      InsertMultiset(before, s[0], Sort(before, s[1..]));
      assert s == [s[0]] + s[1..];
    }
  }

  lemma ConsSorted<T(!new)>(before: Order<T>, x: T, s: seq<T>)
    requires IsSorted(before, s) && forall i :: 0 <= i < |s| ==> !before(s[i], x)
    ensures IsSorted(before, [x] + s)
  {
  }

  lemma {:induction false} InsertSorted<T(!new)>(before: Order<T>, x: T, s: seq<T>)
    requires IsOrder(before) && IsSorted(before, s)
    ensures IsSorted(before, Insert(before, x, s))
    ensures forall y :: y in Insert(before, x, s) <==> y == x || y in s
    decreases |s|
  {
    if s != [] {
      assert s == [s[0]] + s[1..];
      if before(s[0], x) {
        InsertSorted(before, x, s[1..]);
        var rest := Insert(before, x, s[1..]);
        assert !before(x, s[0]);
        forall i | 0 <= i < |rest| ensures !before(rest[i], s[0]) {
          assert rest[i] == x || rest[i] in s[1..];
        }
        ConsSorted(before, s[0], rest);
      } else {
        forall i | 0 <= i < |s| ensures !before(s[i], x) {
        }
        ConsSorted(before, x, s);
      }
    }
  }

  lemma TiedCons<T>(before: Order<T>, y: T, s: seq<T>, x: T)
    ensures TiedWith(before, [y] + s, x) == (if Tied(before, y, x) then [y] else []) + TiedWith(before, s, x)
  {
    assert ([y] + s)[1..] == s;
  }

  lemma {:induction false} InsertTied<T(!new)>(before: Order<T>, y: T, s: seq<T>, x: T)
    requires IsOrder(before)
    ensures TiedWith(before, Insert(before, y, s), x) ==
            (if Tied(before, y, x) then [y] else []) + TiedWith(before, s, x)
    decreases |s|
  {
    hide TiedWith, Tied, IsOrder;
    if s != [] && before(s[0], y) {
      InsertTied(before, y, s[1..], x);
      TiedCons(before, s[0], Insert(before, y, s[1..]), x);
      assert s == [s[0]] + s[1..];
      TiedCons(before, s[0], s[1..], x);
      NotBothTied(before, s[0], y, x);
    } else {
      assert Insert(before, y, s) == [y] + s;
      TiedCons(before, y, s, x);
    }
  }

  lemma NotBothTied<T(!new)>(before: Order<T>, a: T, b: T, x: T)
    requires IsOrder(before) && before(a, b)
    ensures !Tied(before, a, x) || !Tied(before, b, x)
  {
  }

  lemma Irreflexive<T(!new)>(before: Order<T>, a: T)
    requires IsOrder(before)
    ensures !before(a, a)
  {
  }

  /** The implementation is a stable sort. */
  lemma {:induction false} SortIsStable<T(!new)>(before: Order<T>, s: seq<T>)
    requires IsOrder(before)
    ensures IsStableSort(before, s, Sort(before, s))
    decreases |s|
  {
    if s != [] {
      SortIsStable(before, s[1..]);
      InsertSorted(before, s[0], Sort(before, s[1..]));
      forall x ensures TiedWith(before, Sort(before, s), x) == TiedWith(before, s, x) {
        InsertTied(before, s[0], Sort(before, s[1..]), x);
      }
    }
  }

  // ----- The specification is enough

  lemma {:induction false} TiedMembers<T>(before: Order<T>, s: seq<T>, x: T)
    ensures forall y :: y in TiedWith(before, s, x) <==> y in s && Tied(before, y, x)
    decreases |s|
  {
    if s != [] {
      TiedMembers(before, s[1..], x);
      assert s == [s[0]] + s[1..];
    }
  }

  lemma MemberSurvives<T(!new)>(before: Order<T>, s: seq<T>, r: seq<T>, y: T)
    requires IsOrder(before) && y in s
    requires forall x :: TiedWith(before, s, x) == TiedWith(before, r, x)
    ensures y in r
  {
    TiedMembers(before, s, y);
    TiedMembers(before, r, y);
    assert TiedWith(before, s, y) == TiedWith(before, r, y);
    assert y in TiedWith(before, s, y);
  }

  /** Two stable sorts of the same input are equal, so the specification fixes the sort. */
  lemma {:induction false} StableSortIsUnique<T(!new)>(before: Order<T>, a: seq<T>, b: seq<T>)
    requires IsOrder(before) && IsSorted(before, a) && IsSorted(before, b)
    requires forall x :: TiedWith(before, a, x) == TiedWith(before, b, x)
    ensures a == b
    decreases |a|
  {
    if a == [] {
      if b != [] {
        MemberSurvives(before, b, a, b[0]);
      }
    } else {
      MemberSurvives(before, a, b, a[0]);
      SameHead(before, a, b);
      forall x ensures TiedWith(before, a[1..], x) == TiedWith(before, b[1..], x) {
        assert TiedWith(before, a, x) == TiedWith(before, b, x);
        var head := if Tied(before, a[0], x) then [a[0]] else [];
        assert TiedWith(before, a, x)[|head|..] == TiedWith(before, a[1..], x);
        assert TiedWith(before, b, x)[|head|..] == TiedWith(before, b[1..], x);
      }
      StableSortIsUnique(before, a[1..], b[1..]);
      assert a == [a[0]] + a[1..] && b == [b[0]] + b[1..];
    }
  }

  lemma SameHead<T(!new)>(before: Order<T>, a: seq<T>, b: seq<T>)
    requires IsOrder(before) && IsSorted(before, a) && IsSorted(before, b) && a != [] && b != []
    requires forall x :: TiedWith(before, a, x) == TiedWith(before, b, x)
    ensures a[0] == b[0]
  {
    MemberSurvives(before, a, b, a[0]);
    MemberSurvives(before, b, a, b[0]);
    var i :| 0 <= i < |b| && b[i] == a[0];
    var j :| 0 <= j < |a| && a[j] == b[0];
    assert !before(a[0], b[0]) && !before(b[0], a[0]);
    assert TiedWith(before, a, a[0]) == TiedWith(before, b, a[0]);
    assert TiedWith(before, a, a[0])[0] == a[0] && TiedWith(before, b, a[0])[0] == b[0];
  }

  lemma SortIsSorted<T(!new)>(before: Order<T>, s: seq<T>)
    requires IsOrder(before)
    ensures IsSorted(before, Sort(before, s))
  {
    hide Sort, TiedWith, IsOrder;
    SortIsStable(before, s);
  }

  /** Inputs that are permutations of each other and have no two tied elements sort to
      the same result. */
  lemma DistinctKeysSortAlike<T(!new)>(before: Order<T>, s: seq<T>, t: seq<T>)
    requires IsOrder(before) && multiset(s) == multiset(t)
    requires forall a, b :: a in s && b in s && Tied(before, a, b) ==> a == b
    ensures Sort(before, s) == Sort(before, t)
  {
    hide Sort, TiedWith, IsOrder, Tied;
    SortIsSorted(before, s);
    SortIsSorted(before, t);
    SortMultiset(before, s);
    SortMultiset(before, t);
    MembersOfMultiset(Sort(before, s), s);
    SortedPermutations(before, Sort(before, s), Sort(before, t), s);
  }

  lemma MembersOfMultiset<T>(s: seq<T>, t: seq<T>)
    requires multiset(s) == multiset(t)
    ensures |s| == |t| && forall x :: x in s <==> x in t
  {
    assert |multiset(s)| == |s| && |multiset(t)| == |t|;
    forall x ensures x in s <==> x in t {
      assert x in multiset(s) <==> x in multiset(t);
    }
  }

  lemma {:induction false} SortedPermutations<T(!new)>(before: Order<T>, a: seq<T>, b: seq<T>, pool: seq<T>)
    requires IsOrder(before) && IsSorted(before, a) && IsSorted(before, b) && multiset(a) == multiset(b)
    requires forall x, y :: x in pool && y in pool && Tied(before, x, y) ==> x == y
    requires forall x :: x in a ==> x in pool
    ensures a == b
    decreases |a|
  {
    hide *;
    MembersOfMultiset(a, b);
    if a != [] {
      SameFirst(before, a, b, pool);
      ButFirst(before, a, b);
      SortedPermutations(before, a[1..], b[1..], pool);
      assert a == [a[0]] + a[1..] && b == [b[0]] + b[1..];
    }
  }

  lemma SameFirst<T(!new)>(before: Order<T>, a: seq<T>, b: seq<T>, pool: seq<T>)
    requires IsOrder(before) && IsSorted(before, a) && IsSorted(before, b) && a != [] && b != []
    requires forall x :: x in a <==> x in b
    requires forall x, y :: x in pool && y in pool && Tied(before, x, y) ==> x == y
    requires forall x :: x in a ==> x in pool
    ensures a[0] == b[0]
  {
    hide IsOrder;
    assert a[0] in b && b[0] in a;
    var i :| 0 <= i < |b| && b[i] == a[0];
    var j :| 0 <= j < |a| && a[j] == b[0];
    Irreflexive(before, a[0]);
    assert Tied(before, a[0], b[0]);
  }

  lemma ButFirst<T>(before: Order<T>, a: seq<T>, b: seq<T>)
    requires a != [] && b != [] && a[0] == b[0] && multiset(a) == multiset(b)
    requires IsSorted(before, a) && IsSorted(before, b)
    ensures multiset(a[1..]) == multiset(b[1..])
    ensures IsSorted(before, a[1..]) && IsSorted(before, b[1..])
    ensures forall x :: x in a[1..] ==> x in a
  {
    RestOf(a);
    RestOf(b);
  }

  lemma RestOf<T>(s: seq<T>)
    requires s != []
    ensures multiset(s[1..]) == multiset(s) - multiset{s[0]}
    ensures forall x :: x in s[1..] ==> x in s
  {
    assert s == [s[0]] + s[1..];
  }
}
