/** Splitting the parameter grid across runners, verifying and merging the shards, and
    ranking the cells. */
module GridShards {
  import opened Reals
  import opened Wrappers
  import opened StableSort
  import opened Lexicographic

  const MIN_IS_TRADES: int := 30
  const MIN_OOS_TRADES: int := 10

  datatype Item = Item(id: string, overrides: string)

  /** In-sample or out-of-sample figures of one cell. */
  datatype Figures = Figures(totalTrades: int, netProfitPct: real, profitFactor: real)

  /** An evaluated cell; a failed one carries no figures worth reading. */
  datatype Row = Row(id: string, failed: bool, ins: Figures, oos: Figures)

  datatype ShardError =
    | NoFiles
    | InvalidUnion(duplicates: set<string>, missing: set<string>, extra: set<string>)
    | BadShard

  // ----- Rows in the order of their ids

  function ById(): Order<Row> { (a: Row, b: Row) => Before(a.id, b.id) }

  lemma ByIdIsOrder()
    ensures IsOrder(ById())
  {
    hide Before;
    var before := ById();
    forall a: Row ensures !before(a, a) { BeforeIrreflexive(a.id); }
    forall a: Row, b: Row, c: Row | before(a, b) && before(b, c)
      ensures before(a, c) { BeforeTransitive(a.id, b.id, c.id); }
    forall a: Row, b: Row, c: Row | before(a, c) ensures before(a, b) || before(b, c) {
      BeforeTotal(a.id, b.id);
      if Before(b.id, a.id) {
        BeforeTransitive(b.id, a.id, c.id);
      }
    }
  }

  lemma TiedIdsAreEqual(a: Row, b: Row)
    requires Tied(ById(), a, b)
    ensures a.id == b.id
  {
    BeforeTotal(a.id, b.id);
  }

  // ----- Shards

  /** `items[index::count]`. */
  function Strided<T>(items: seq<T>, index: nat, count: nat): seq<T>
    requires count >= 1
    decreases |items| + count - index
  {
    if index >= |items| then [] else [items[index]] + Strided(items, index + count, count)
  }

  function ShardItems(items: seq<Item>, index: int, count: int): Result<seq<Item>, ShardError> {
    if count < 1 || index < 0 || index >= count then Failure(BadShard) else Success(Strided(items, index, count))
  }

  /** The shards `0 .. upTo`, one after the other. */
  function Shards<T>(items: seq<T>, count: nat, upTo: nat): seq<T>
    requires count >= 1
    decreases upTo
  {
    if upTo == 0 then [] else Shards(items, count, upTo - 1) + Strided(items, upTo - 1, count)
  }

  /** Whether index `n` belongs to the shard that starts at `index`. */
  predicate InShard(n: nat, index: nat, count: nat)
    requires count >= 1
    decreases n + count - index
  {
    n == index || (n > index && InShard(n, index + count, count))
  }

  /** `n % count`, by repeated subtraction. */
  function ShardOf(n: nat, count: nat): nat
    requires count >= 1
    decreases n
  {
    if n < count then n else ShardOf(n - count, count)
  }

  /** Element `k` of a shard is element `index + k * count` of the grid, and the shard ends
      where that leaves the grid. */
  lemma {:induction false} StridedAt<T>(items: seq<T>, index: nat, count: nat, k: nat)
    requires count >= 1
    ensures k < |Strided(items, index, count)| <==> index + k * count < |items|
    ensures k < |Strided(items, index, count)| ==> Strided(items, index, count)[k] == items[index + k * count]
    decreases k
  {
    if k > 0 {
      assert index + k * count == index + count + (k - 1) * count;
      StridedAt(items, index + count, count, k - 1);
    }
  }

  /** A shard can be asked for exactly when its index is one of `0 .. count`, and then it
      is every `count`-th item from its index on. */
  lemma ShardItemsAt(items: seq<Item>, index: int, count: int, k: nat)
    ensures ShardItems(items, index, count).Success? <==> 0 <= index < count
    ensures ShardItems(items, index, count).Success? ==>
      var shard := ShardItems(items, index, count).value;
      && (k < |shard| <==> index + k * count < |items|)
      && (k < |shard| ==> shard[k] == items[index + k * count])
  {
    if 0 <= index < count {
      StridedAt(items, index, count, k);
    }
  }

  lemma {:induction false} StridedSnoc<T>(items: seq<T>, x: T, index: nat, count: nat)
    requires count >= 1
    ensures Strided(items + [x], index, count) == Strided(items, index, count) +
            if InShard(|items|, index, count) then [x] else []
    decreases |items| + count - index
  {
    var n := |items|;
    if index < n {
      StridedSnoc(items, x, index + count, count);
    } else if index == n {
      assert Strided(items + [x], index + count, count) == [];
    }
  }

  lemma {:induction false} ShardShift(n: nat, index: nat, count: nat)
    requires count >= 1
    ensures InShard(n + count, index + count, count) <==> InShard(n, index, count)
    decreases n + count - index
  {
    if n > index {
      ShardShift(n, index + count, count);
    }
  }

  lemma {:induction false} ShardOfIndex(n: nat, index: nat, count: nat)
    requires count >= 1 && index < count
    ensures InShard(n, index, count) <==> ShardOf(n, count) == index
    decreases n
  {
    if n >= count {
      ShardShift(n - count, index, count);
      ShardOfIndex(n - count, index, count);
    }
  }

  lemma {:induction false} ShardOfBounded(n: nat, count: nat)
    requires count >= 1
    ensures ShardOf(n, count) < count
    decreases n
  {
    if n >= count {
      ShardOfBounded(n - count, count);
    }
  }

  /** The item's contribution to the first `upTo` shards. */
  function Landed<T>(x: T, n: nat, count: nat, upTo: nat): seq<T>
    requires count >= 1
  {
    if ShardOf(n, count) < upTo then [x] else []
  }

  /** A further item lands in one shard and changes no other. */
  lemma {:induction false} OneShard<T>(items: seq<T>, x: T, count: nat, upTo: nat)
    requires count >= 1 && upTo <= count
    ensures multiset(Shards(items + [x], count, upTo)) ==
            multiset(Shards(items, count, upTo) + Landed(x, |items|, count, upTo))
    decreases upTo
  {
    hide *;
    if upTo == 0 {
      FirstShards(items, x, count);
    } else {
      var here := if InShard(|items|, upTo - 1, count) then [x] else [];
      OneShard(items, x, count, upTo - 1);
      StridedSnoc(items, x, upTo - 1, count);
      ShardOfIndex(|items|, upTo - 1, count);
      Rearranged(Shards(items + [x], count, upTo - 1), Shards(items, count, upTo - 1),
        Landed(x, |items|, count, upTo - 1), Strided(items, upTo - 1, count), here);
      LandedStep(x, |items|, count, upTo);
      ShardsStep(items, count, upTo);
      ShardsStep(items + [x], count, upTo);
    }
  }

  lemma ShardsStep<T>(items: seq<T>, count: nat, upTo: nat)
    requires count >= 1 && upTo >= 1
    ensures Shards(items, count, upTo) == Shards(items, count, upTo - 1) + Strided(items, upTo - 1, count)
  {
  }

  lemma FirstShards<T>(items: seq<T>, x: T, count: nat)
    requires count >= 1
    ensures Shards(items + [x], count, 0) == Shards(items, count, 0) + Landed(x, |items|, count, 0)
  {
  }

  lemma LandedStep<T>(x: T, n: nat, count: nat, upTo: nat)
    requires count >= 1 && upTo >= 1
    ensures Landed(x, n, count, upTo) == Landed(x, n, count, upTo - 1) +
            if ShardOf(n, count) == upTo - 1 then [x] else []
  {
  }

  lemma Rearranged<T>(grown: seq<T>, base: seq<T>, early: seq<T>, last: seq<T>, here: seq<T>)
    requires multiset(grown) == multiset(base + early)
    ensures multiset(grown + (last + here)) == multiset(base + last + (early + here))
  {
  }

  /** The shards are a partition: for every count each item is in exactly one of them. */
  lemma {:induction false} ShardsPartition<T>(items: seq<T>, count: nat)
    requires count >= 1
    ensures multiset(Shards(items, count, count)) == multiset(items)
    decreases |items|
  {
    hide Shards, ShardOf;
    if items == [] {
      NothingToShard<T>(count, count);
    } else {
      var n := |items| - 1;
      ShardsPartition(items[..n], count);
      OneShard(items[..n], items[n], count, count);
      ShardOfBounded(n, count);
      assert Landed(items[n], n, count, count) == [items[n]];
      assert items == items[..n] + [items[n]];
    }
  }

  lemma {:induction false} NothingToShard<T>(count: nat, upTo: nat)
    requires count >= 1
    ensures Shards<T>([], count, upTo) == []
    decreases upTo
  {
    if upTo > 0 {
      NothingToShard<T>(count, upTo - 1);
    }
  }

  // ----- Evaluating, verifying and merging

  /** What one worker makes of an item; a deterministic function that keeps the id. */
  type Evaluator = Item -> Row

  predicate KeepsIds(items: seq<Item>, evaluate: Evaluator) {
    forall item :: item in items ==> evaluate(item).id == item.id
  }

  function EvalAll(items: seq<Item>, evaluate: Evaluator): seq<Row>
    decreases |items|
  {
    if items == [] then [] else [evaluate(items[0])] + EvalAll(items[1..], evaluate)
  }

  function Ids(rows: seq<Row>): seq<string>
    decreases |rows|
  {
    if rows == [] then [] else [rows[0].id] + Ids(rows[1..])
  }

  function ItemIds(items: seq<Item>): seq<string>
    decreases |items|
  {
    if items == [] then [] else [items[0].id] + ItemIds(items[1..])
  }

  predicate Distinct(ids: seq<string>) {
    forall i, j :: 0 <= i < j < |ids| ==> ids[i] != ids[j]
  }

  function Duplicates(ids: seq<string>): set<string> {
    set id | id in ids && multiset(ids)[id] > 1
  }

  function IdSet(ids: seq<string>): set<string> {
    set id | id in ids
  }

  function VerifyShardRows(rows: seq<Row>, items: seq<Item>): Result<seq<Row>, ShardError> {
    var expected := IdSet(ItemIds(items));
    var actual := IdSet(Ids(rows));
    var duplicates := Duplicates(Ids(rows));
    if duplicates != {} || actual != expected then
      Failure(InvalidUnion(duplicates, expected - actual, actual - expected))
    else
      Success(Sort(ById(), rows))
  }

  function Flatten(files: seq<seq<Row>>): seq<Row>
    decreases |files|
  {
    if files == [] then [] else Flatten(files[..|files| - 1]) + files[|files| - 1]
  }

  /** Collect the rows of every shard file, in the order the files are listed. */
  method LoadShardRows(files: seq<seq<Row>>, items: seq<Item>) returns (r: Result<seq<Row>, ShardError>)
    ensures r == if files == [] then Failure(NoFiles) else VerifyShardRows(Flatten(files), items)
  {
    if files == [] {
      return Failure(NoFiles);
    }
    var rows := [];
    for i := 0 to |files|
      invariant rows == Flatten(files[..i])
    {
      rows := rows + files[i];
      assert files[..i + 1][..i] == files[..i];
    }
    assert files[..|files|] == files;
    r := VerifyShardRows(rows, items);
  }

  lemma {:induction false} AllIds(rows: seq<Row>)
    ensures |Ids(rows)| == |rows| && forall i :: 0 <= i < |rows| ==> Ids(rows)[i] == rows[i].id
    decreases |rows|
  {
    if rows != [] {
      AllIds(rows[1..]);
    }
  }

  lemma {:induction false} ItemIdsAt(items: seq<Item>)
    ensures |ItemIds(items)| == |items| && forall i :: 0 <= i < |items| ==> ItemIds(items)[i] == items[i].id
    decreases |items|
  {
    if items != [] {
      ItemIdsAt(items[1..]);
    }
  }

  /** What a refused union is blamed for: the ids on several rows, the ids of the grid that no
      row has, and the ids that are not of the grid. */
  lemma RefusalNames(rows: seq<Row>, items: seq<Item>, id: string)
    requires VerifyShardRows(rows, items).Failure?
    ensures var e := VerifyShardRows(rows, items).error;
            && e.InvalidUnion?
            && (id in e.duplicates <==> exists i, j :: 0 <= i < j < |rows| && rows[i].id == id == rows[j].id)
            && (id in e.missing <==>
                  (exists item :: item in items && item.id == id) && forall row :: row in rows ==> row.id != id)
            && (id in e.extra <==>
                  (exists row :: row in rows && row.id == id) && forall item :: item in items ==> item.id != id)
  {
    AllIds(rows);
    ItemIdsAt(items);
    hide Ids, ItemIds, Sort;
    var ids := Ids(rows);
    Repeated(ids, id);
    assert id in ids <==> exists row :: row in rows && row.id == id by {
      if id in ids {
        var i :| 0 <= i < |ids| && ids[i] == id;
        assert rows[i] in rows;
      }
      if row :| row in rows && row.id == id {
        var i :| 0 <= i < |rows| && rows[i] == row;
        assert ids[i] == id;
      }
    }
    assert id in ItemIds(items) <==> exists item :: item in items && item.id == id by {
      if id in ItemIds(items) {
        var i :| 0 <= i < |items| && ItemIds(items)[i] == id;
        assert items[i] in items;
      }
      if item :| item in items && item.id == id {
        var i :| 0 <= i < |items| && items[i] == item;
        assert ItemIds(items)[i] == id;
      }
    }
  }

  lemma {:induction false} Repeated(ids: seq<string>, id: string)
    ensures multiset(ids)[id] > 1 <==> exists i, j :: 0 <= i < j < |ids| && ids[i] == id == ids[j]
    ensures multiset(ids)[id] > 0 <==> id in ids
    decreases |ids|
  {
    if ids != [] {
      var n := |ids| - 1;
      Repeated(ids[..n], id);
      assert ids == ids[..n] + [ids[n]];
      if multiset(ids)[id] > 1 && multiset(ids[..n])[id] <= 1 {
        var i :| 0 <= i < n && ids[..n][i] == id;
        assert ids[i] == id == ids[n];
      }
    }
  }

  // ----- Ids as multisets

  lemma {:induction false} IdsAppend(a: seq<Row>, b: seq<Row>)
    ensures Ids(a + b) == Ids(a) + Ids(b)
    decreases |a|
  {
    if a == [] {
      assert a + b == b;
    } else {
      assert (a + b)[1..] == a[1..] + b;
      IdsAppend(a[1..], b);
    }
  }

  lemma {:induction false} IdsOfPermutation(a: seq<Row>, b: seq<Row>)
    requires multiset(a) == multiset(b)
    ensures multiset(Ids(a)) == multiset(Ids(b))
    decreases |a|
  {
    hide Ids;
    MembersOfMultiset(a, b);
    if a != [] {
      var i := Position(b, a[0]);
      var rest := b[..i] + b[i + 1..];
      RemoveFirst(a, b, i);
      IdsOfPermutation(a[1..], rest);
      IdsCons(a[0], a[1..]);
      IdsCons(b[i], b[i + 1..]);
      IdsAppend(b[..i], b[i + 1..]);
      IdsAppend(b[..i], [b[i]] + b[i + 1..]);
      assert a == [a[0]] + a[1..] && b == b[..i] + ([b[i]] + b[i + 1..]);
    }
  }

  lemma IdsCons(row: Row, rows: seq<Row>)
    ensures Ids([row] + rows) == [row.id] + Ids(rows)
  {
    assert ([row] + rows)[1..] == rows;
  }

  ghost function Position<T>(s: seq<T>, x: T): (i: nat)
    requires x in s
    ensures i < |s| && s[i] == x
  {
    var i :| 0 <= i < |s| && s[i] == x; i
  }

  /** Dropping one occurrence of the same element keeps two sequences permutations. */
  lemma RemoveFirst<T>(a: seq<T>, b: seq<T>, i: nat)
    requires a != [] && i < |b| && b[i] == a[0] && multiset(a) == multiset(b)
    ensures multiset(a[1..]) == multiset(b[..i] + b[i + 1..])
  {
    var rest := b[..i] + b[i + 1..];
    assert a == [a[0]] + a[1..];
    assert multiset(a[1..]) == multiset(a) - multiset{a[0]};
    assert b == b[..i] + ([b[i]] + b[i + 1..]);
    assert multiset(b) == multiset(b[..i]) + (multiset{b[i]} + multiset(b[i + 1..]));
    assert multiset(rest) == multiset(b) - multiset{b[i]};
  }

  lemma {:induction false} DistinctCounts(ids: seq<string>)
    requires Distinct(ids)
    ensures multiset(ids) == multiset(IdSet(ids))
    decreases |ids|
  {
    if ids == [] {
      assert IdSet(ids) == {};
    } else {
      var rest := ids[1..];
      assert ids == [ids[0]] + rest;
      assert ids[0] !in rest;
      DistinctCounts(rest);
      assert IdSet(ids) == IdSet(rest) + {ids[0]};
      assert multiset(IdSet(rest) + {ids[0]}) == multiset(IdSet(rest)) + multiset{ids[0]};
      assert multiset(ids) == multiset(rest) + multiset{ids[0]};
    }
  }

  lemma {:induction false} CountedOnce(ids: seq<string>)
    requires Duplicates(ids) == {}
    ensures Distinct(ids)
    decreases |ids|
  {
    if ids != [] {
      var rest := ids[1..];
      assert ids == [ids[0]] + rest;
      assert multiset(ids) == multiset(rest) + multiset{ids[0]};
      assert ids[0] !in Duplicates(ids);
      assert ids[0] !in rest;
      forall id | id in rest ensures id !in Duplicates(rest) {
        assert id !in Duplicates(ids);
      }
      CountedOnce(rest);
    }
  }

  /** The union of the shards is accepted exactly when its ids are those of the grid, each
      once, in whatever order. */
  lemma VerifyAcceptsPermutations(rows: seq<Row>, items: seq<Item>)
    requires Distinct(ItemIds(items))
    ensures VerifyShardRows(rows, items).Success? <==> multiset(Ids(rows)) == multiset(ItemIds(items))
  {
    hide Ids, ItemIds, Sort;
    var ids, expected := Ids(rows), ItemIds(items);
    DistinctCounts(expected);
    if VerifyShardRows(rows, items).Success? {
      CountedOnce(ids);
      DistinctCounts(ids);
    }
    if multiset(ids) == multiset(expected) {
      MembersOfMultiset(ids, expected);
      assert Duplicates(ids) == {};
      assert IdSet(ids) == IdSet(expected);
    }
  }

  // ----- The merge

  lemma {:induction false} EvalAppend(a: seq<Item>, b: seq<Item>, evaluate: Evaluator)
    ensures EvalAll(a + b, evaluate) == EvalAll(a, evaluate) + EvalAll(b, evaluate)
    decreases |a|
  {
    if a == [] {
      assert a + b == b;
    } else {
      assert (a + b)[1..] == a[1..] + b;
      EvalAppend(a[1..], b, evaluate);
    }
  }

  lemma EvalCons(item: Item, items: seq<Item>, evaluate: Evaluator)
    ensures EvalAll([item] + items, evaluate) == [evaluate(item)] + EvalAll(items, evaluate)
  {
    assert ([item] + items)[1..] == items;
  }

  lemma {:induction false} EvalOfPermutation(a: seq<Item>, b: seq<Item>, evaluate: Evaluator)
    requires multiset(a) == multiset(b)
    ensures multiset(EvalAll(a, evaluate)) == multiset(EvalAll(b, evaluate))
    decreases |a|
  {
    hide EvalAll;
    MembersOfMultiset(a, b);
    if a != [] {
      var i := Position(b, a[0]);
      var rest := b[..i] + b[i + 1..];
      RemoveFirst(a, b, i);
      EvalOfPermutation(a[1..], rest, evaluate);
      EvalCons(a[0], a[1..], evaluate);
      EvalCons(b[i], b[i + 1..], evaluate);
      EvalAppend(b[..i], b[i + 1..], evaluate);
      EvalAppend(b[..i], [b[i]] + b[i + 1..], evaluate);
      assert a == [a[0]] + a[1..] && b == b[..i] + ([b[i]] + b[i + 1..]);
    }
  }

  lemma {:induction false} EvalIds(items: seq<Item>, evaluate: Evaluator)
    requires KeepsIds(items, evaluate)
    ensures Ids(EvalAll(items, evaluate)) == ItemIds(items)
    decreases |items|
  {
    if items != [] {
      EvalIds(items[1..], evaluate);
    }
  }

  /** What the workers of shard `index` may return: its rows in any completion order. */
  ghost predicate Completed(rows: seq<Row>, items: seq<Item>, evaluate: Evaluator) {
    multiset(rows) == multiset(EvalAll(items, evaluate))
  }

  /** `runs[i]` is what the workers of shard `i` returned. */
  ghost predicate AllShardsCompleted(runs: seq<seq<Row>>, items: seq<Item>, count: nat, evaluate: Evaluator)
    requires count >= 1
  {
    forall i :: 0 <= i < |runs| ==>
      ShardItems(items, i, count).Success? && Completed(runs[i], ShardItems(items, i, count).value, evaluate)
  }

  /** The shard files: each holds its rows sorted by id. */
  function Written(runs: seq<seq<Row>>): seq<seq<Row>>
    decreases |runs|
  {
    if runs == [] then [] else Written(runs[..|runs| - 1]) + [Sort(ById(), runs[|runs| - 1])]
  }

  lemma {:induction false} WrittenRows(runs: seq<seq<Row>>, items: seq<Item>, count: nat, evaluate: Evaluator)
    requires count >= 1 && AllShardsCompleted(runs, items, count, evaluate)
    ensures multiset(Flatten(Written(runs))) == multiset(EvalAll(Shards(items, count, |runs|), evaluate))
    decreases |runs|
  {
    hide Strided, Sort, EvalAll;
    if runs == [] {
      NoShards(items, count, evaluate);
    } else {
      var n := |runs| - 1;
      WrittenRows(runs[..n], items, count, evaluate);
      SortMultiset(ById(), runs[n]);
      EvalAppend(Shards(items, count, n), Strided(items, n, count), evaluate);
      FlattenSnoc(Written(runs[..n]), Sort(ById(), runs[n]));
      assert Completed(runs[n], Strided(items, n, count), evaluate);
    }
  }

  lemma NoShards(items: seq<Item>, count: nat, evaluate: Evaluator)
    requires count >= 1
    ensures EvalAll(Shards(items, count, 0), evaluate) == []
  {
  }

  lemma FlattenSnoc(files: seq<seq<Row>>, file: seq<Row>)
    ensures Flatten(files + [file]) == Flatten(files) + file
  {
    assert (files + [file])[..|files|] == files;
  }

  lemma {:induction false} FlattenAppend(a: seq<seq<Row>>, b: seq<seq<Row>>)
    ensures Flatten(a + b) == Flatten(a) + Flatten(b)
    decreases |b|
  {
    if b == [] {
      assert a + b == a;
    } else {
      var n := |b| - 1;
      FlattenAppend(a, b[..n]);
      FlattenSnoc(a + b[..n], b[n]);
      assert a + b == (a + b[..n]) + [b[n]];
    }
  }

  lemma FlattenCons(file: seq<Row>, files: seq<seq<Row>>)
    ensures Flatten([file] + files) == file + Flatten(files)
  {
    FlattenAppend([file], files);
    FlattenSnoc([], file);
    assert [] + [file] == [file];
  }

  /** The order in which the files are read only permutes the rows. */
  lemma {:induction false} FlattenOfPermutation(a: seq<seq<Row>>, b: seq<seq<Row>>)
    requires multiset(a) == multiset(b)
    ensures multiset(Flatten(a)) == multiset(Flatten(b))
    decreases |a|
  {
    hide Flatten;
    MembersOfMultiset(a, b);
    if a != [] {
      var i := Position(b, a[0]);
      var rest := b[..i] + b[i + 1..];
      RemoveFirst(a, b, i);
      FlattenOfPermutation(a[1..], rest);
      FlattenCons(a[0], a[1..]);
      FlattenCons(b[i], b[i + 1..]);
      FlattenAppend(b[..i], b[i + 1..]);
      FlattenAppend(b[..i], [b[i]] + b[i + 1..]);
      assert a == [a[0]] + a[1..] && b == b[..i] + ([b[i]] + b[i + 1..]);
    }
  }

  lemma DistinctRows(rows: seq<Row>)
    requires Distinct(Ids(rows))
    ensures forall a, b :: a in rows && b in rows && Tied(ById(), a, b) ==> a == b
  {
    forall a, b | a in rows && b in rows && Tied(ById(), a, b) ensures a == b {
      TiedIdsAreEqual(a, b);
      var i, j := Position(rows, a), Position(rows, b);
      AllIds(rows);
    }
  }

  /** Sharding is invisible: for every shard count, every completion order inside each
      shard, every order of reading the shard files and every completion order of the
      unsharded run, the merged rows are accepted and equal the unsharded run's. */
  lemma ShardingIsInvisible(
    items: seq<Item>, evaluate: Evaluator, count: nat, runs: seq<seq<Row>>, files: seq<seq<Row>>, unsharded: seq<Row>)
    requires count >= 1 && Distinct(ItemIds(items)) && KeepsIds(items, evaluate)
    requires |runs| == count && AllShardsCompleted(runs, items, count, evaluate)
    requires multiset(files) == multiset(Written(runs))
    requires Completed(unsharded, items, evaluate)
    ensures VerifyShardRows(Flatten(files), items) == Success(Sort(ById(), unsharded))
  {
    hide *;
    var rows := Flatten(files);
    FlattenOfPermutation(files, Written(runs));
    WrittenRows(runs, items, count, evaluate);
    ShardsPartition(items, count);
    EvalOfPermutation(Shards(items, count, count), items, evaluate);
    CompletedMeans(unsharded, items, evaluate);
    SameRowsSameResult(rows, unsharded, items, evaluate);
  }

  lemma CompletedMeans(rows: seq<Row>, items: seq<Item>, evaluate: Evaluator)
    requires Completed(rows, items, evaluate)
    ensures multiset(rows) == multiset(EvalAll(items, evaluate))
  {
  }

  lemma SameRowsSameResult(rows: seq<Row>, unsharded: seq<Row>, items: seq<Item>, evaluate: Evaluator)
    requires Distinct(ItemIds(items)) && KeepsIds(items, evaluate)
    requires multiset(rows) == multiset(EvalAll(items, evaluate)) == multiset(unsharded)
    ensures VerifyShardRows(rows, items) == Success(Sort(ById(), unsharded))
  {
    hide Sort, EvalAll, Ids, ItemIds, Distinct, ById, IsOrder, Tied, KeepsIds;
    var all := EvalAll(items, evaluate);
    EvalIds(items, evaluate);
    IdsOfPermutation(rows, all);
    VerifyAcceptsPermutations(rows, items);
    DistinctRows(all);
    ByIdIsOrder();
    MembersOfMultiset(rows, all);
    DistinctKeysSortAlike(ById(), rows, unsharded);
  }

  // ----- Ranking

  predicate Valid(row: Row) {
    && !row.failed
    && row.ins.totalTrades >= MIN_IS_TRADES
    && row.oos.totalTrades >= MIN_OOS_TRADES
    && row.ins.netProfitPct > 0.0
    && row.oos.netProfitPct > 0.0
  }

  function ValidRows(rows: seq<Row>): seq<Row>
    decreases |rows|
  {
    if rows == [] then [] else (if Valid(rows[0]) then [rows[0]] else []) + ValidRows(rows[1..])
  }

  datatype Key = Key(first: real, second: real, third: real)

  predicate Greater(a: Key, b: Key) {
    a.first > b.first || (a.first == b.first && (a.second > b.second || (a.second == b.second && a.third > b.third)))
  }

  function OosKey(row: Row): Key {
    Key(row.oos.profitFactor, Min(row.ins.profitFactor, row.oos.profitFactor), row.oos.netProfitPct)
  }

  function BalancedKey(row: Row): Key {
    Key(Min(row.ins.profitFactor, row.oos.profitFactor), row.oos.profitFactor, row.oos.netProfitPct)
  }

  /** Descending by key. A reversed sort keeps equal keys in their original order. */
  function Descending(key: Row -> Key): Order<Row> { (a: Row, b: Row) => Greater(key(a), key(b)) }

  function RankBy(key: Row -> Key, rows: seq<Row>): seq<Row> {
    Sort(Descending(key), ValidRows(rows))
  }

  function Rank(rows: seq<Row>): seq<Row> { RankBy(OosKey, rows) }

  function BalancedRank(rows: seq<Row>): seq<Row> { RankBy(BalancedKey, rows) }

  lemma DescendingIsOrder(key: Row -> Key)
    ensures IsOrder(Descending(key))
  {
    var before := Descending(key);
    forall a: Row ensures !before(a, a) { GreaterIrreflexive(key(a)); }
    forall a: Row, b: Row, c: Row | before(a, b) && before(b, c)
      ensures before(a, c) { GreaterTransitive(key(a), key(b), key(c)); }
    forall a: Row, b: Row, c: Row | before(a, c)
      ensures before(a, b) || before(b, c) { GreaterSplits(key(a), key(b), key(c)); }
  }

  lemma GreaterIrreflexive(a: Key)
    ensures !Greater(a, a)
  {
  }

  lemma GreaterTransitive(a: Key, b: Key, c: Key)
    requires Greater(a, b) && Greater(b, c)
    ensures Greater(a, c)
  {
  }

  lemma GreaterSplits(a: Key, b: Key, c: Key)
    requires Greater(a, c)
    ensures Greater(a, b) || Greater(b, c)
  {
  }

  lemma {:induction false} ValidRowsAre(rows: seq<Row>)
    ensures forall row :: row in ValidRows(rows) <==> row in rows && Valid(row)
    decreases |rows|
  {
    hide Valid;
    if rows != [] {
      ValidRowsAre(rows[1..]);
      assert rows == [rows[0]] + rows[1..];
    }
  }

  /** A ranking is the stable descending sort of the valid rows; its first row has a key
      that no valid row exceeds. */
  lemma RankMeans(key: Row -> Key, rows: seq<Row>)
    ensures IsStableSort(Descending(key), ValidRows(rows), RankBy(key, rows))
    ensures forall row :: row in RankBy(key, rows) <==> row in rows && Valid(row)
    ensures forall row :: row in rows && Valid(row) ==> !Greater(key(row), key(RankBy(key, rows)[0]))
  {
    hide Valid, ValidRows, Sort, TiedWith, IsOrder, Greater;
    var before, valid, ranked := Descending(key), ValidRows(rows), RankBy(key, rows);
    DescendingIsOrder(key);
    SortIsStable(before, valid);
    SortMultiset(before, valid);
    MembersOfMultiset(ranked, valid);
    ValidRowsAre(rows);
    forall row | row in rows && Valid(row) ensures !Greater(key(row), key(ranked[0])) {
      var j := Position(ranked, row);
      if j == 0 {
        Irreflexive(before, row);
      } else {
        assert !before(ranked[j], ranked[0]);
      }
    }
  }

  /** A cell that did not fail, has at least 30 trades in sample and 10 out of sample, and made
      money in both. */
  predicate Admissible(row: Row) {
    && !row.failed && row.ins.totalTrades >= 30 && row.oos.totalTrades >= 10
    && row.ins.netProfitPct > 0.0 && row.oos.netProfitPct > 0.0
  }

  /** The smaller of a cell's two profit factors. */
  function Weaker(row: Row): real {
    if row.ins.profitFactor <= row.oos.profitFactor then row.ins.profitFactor else row.oos.profitFactor
  }

  /** The first ranking lists the admissible cells by falling out-of-sample profit factor, then
      by the weaker of the two profit factors, then by out-of-sample profit. */
  lemma RankedByOutOfSample(rows: seq<Row>, i: nat, j: nat)
    requires i < j < |Rank(rows)|
    ensures var a, b := Rank(rows)[i], Rank(rows)[j];
            && Admissible(a) && a in rows
            && a.oos.profitFactor >= b.oos.profitFactor
            && (a.oos.profitFactor == b.oos.profitFactor ==> Weaker(a) >= Weaker(b))
            && (a.oos.profitFactor == b.oos.profitFactor && Weaker(a) == Weaker(b) ==>
                  a.oos.netProfitPct >= b.oos.netProfitPct)
  {
    hide RankBy;
    RankMeans(OosKey, rows);
    assert !Descending(OosKey)(Rank(rows)[j], Rank(rows)[i]);
    assert Rank(rows)[i] in Rank(rows);
  }

  /** The balanced ranking looks at the weaker profit factor first. */
  lemma RankedByWeaker(rows: seq<Row>, i: nat, j: nat)
    requires i < j < |BalancedRank(rows)|
    ensures var a, b := BalancedRank(rows)[i], BalancedRank(rows)[j];
            && Admissible(a) && a in rows
            && Weaker(a) >= Weaker(b)
            && (Weaker(a) == Weaker(b) ==> a.oos.profitFactor >= b.oos.profitFactor)
            && (Weaker(a) == Weaker(b) && a.oos.profitFactor == b.oos.profitFactor ==>
                  a.oos.netProfitPct >= b.oos.netProfitPct)
  {
    hide RankBy;
    RankMeans(BalancedKey, rows);
    assert !Descending(BalancedKey)(BalancedRank(rows)[j], BalancedRank(rows)[i]);
    assert BalancedRank(rows)[i] in BalancedRank(rows);
  }

  /** Both list exactly the admissible cells, each as often as the grid does. */
  lemma {:induction false} RankedAre(rows: seq<Row>)
    ensures forall row :: multiset(Rank(rows))[row] == (if Admissible(row) then multiset(rows)[row] else 0)
    ensures multiset(Rank(rows)) == multiset(BalancedRank(rows))
  {
    hide *;
    RankMultisets(rows);
    ValidCounts(rows);
  }

  lemma RankMultisets(rows: seq<Row>)
    ensures multiset(Rank(rows)) == multiset(BalancedRank(rows)) == multiset(ValidRows(rows))
  {
    hide Sort, ValidRows;
    SortMultiset(Descending(OosKey), ValidRows(rows));
    SortMultiset(Descending(BalancedKey), ValidRows(rows));
  }

  lemma {:induction false} ValidCounts(rows: seq<Row>)
    ensures forall row :: multiset(ValidRows(rows))[row] == (if Admissible(row) then multiset(rows)[row] else 0)
    decreases |rows|
  {
    if rows != [] {
      ValidCounts(rows[1..]);
      assert rows == [rows[0]] + rows[1..];
    }
  }

  /** The sharded and the unsharded run publish the same rankings. */
  lemma SameRankings(
    items: seq<Item>, evaluate: Evaluator, count: nat, runs: seq<seq<Row>>, files: seq<seq<Row>>, unsharded: seq<Row>)
    requires count >= 1 && Distinct(ItemIds(items)) && KeepsIds(items, evaluate)
    requires |runs| == count && AllShardsCompleted(runs, items, count, evaluate)
    requires multiset(files) == multiset(Written(runs))
    requires Completed(unsharded, items, evaluate)
    ensures VerifyShardRows(Flatten(files), items).Success?
    ensures Rank(VerifyShardRows(Flatten(files), items).value) == Rank(Sort(ById(), unsharded))
    ensures BalancedRank(VerifyShardRows(Flatten(files), items).value) == BalancedRank(Sort(ById(), unsharded))
  {
    hide *;
    ShardingIsInvisible(items, evaluate, count, runs, files, unsharded);
  }
}
