/** The length-bucketed batch sampler (training/dataloader.py, `LengthBucketedBatchSampler`):
    sort by document length, cut into fixed-size batches, shuffle the batches, deal them to ranks. */
module Sampler {
  import opened Arith
  import opened Lists

  // ----- Vocabulary

  ghost predicate IsPermutation(p: seq<nat>, n: nat) {
    |p| == n && Distinct(p) && forall i :: 0 <= i < n ==> p[i] < n
  }

  ghost predicate SortedByKey(keys: seq<nat>, order: seq<nat>)
    requires InRange(order, |keys|)
  {
    forall i, j :: 0 <= i < j < |order| ==> keys[order[i]] <= keys[order[j]]
  }

  /** Samples of equal length keep their order, as Python's sort promises. */
  ghost predicate Stable(keys: seq<nat>, order: seq<nat>)
    requires InRange(order, |keys|)
  {
    forall i, j :: 0 <= i < j < |order| && keys[order[i]] == keys[order[j]] ==> order[i] < order[j]
  }

  // ----- Step 1: `sorted(range(n), key=...)`, a stable sort of the sample numbers

  function InsertByKey(keys: seq<nat>, order: seq<nat>, i: nat): (r: seq<nat>)
    requires i < |keys| && InRange(order, |keys|)
    ensures InRange(r, |keys|) && |r| == |order| + 1
  {
    if order == [] then [i]
    else if keys[i] < keys[order[0]] then [i] + order
    else [order[0]] + InsertByKey(keys, order[1..], i)
  }

  function SortFirst(keys: seq<nat>, n: nat): (order: seq<nat>)
    requires n <= |keys|
    ensures InRange(order, |keys|) && |order| == n
  {
    if n == 0 then [] else InsertByKey(keys, SortFirst(keys, n - 1), n - 1)
  }

  function SortIndices(keys: seq<nat>): (order: seq<nat>)
    ensures InRange(order, |keys|) && |order| == |keys|
  {
    SortFirst(keys, |keys|)
  }

  /** Insertion puts `i` somewhere and keeps the rest as it was. */
  lemma {:induction false} InsertShape(keys: seq<nat>, order: seq<nat>, i: nat) returns (k: nat)
    requires i < |keys| && InRange(order, |keys|)
    ensures k <= |order| && InsertByKey(keys, order, i) == order[..k] + [i] + order[k..]
  {
    if order == [] || keys[i] < keys[order[0]] {
      k := 0;
      assert order[..0] + [i] + order[0..] == [i] + order;
    } else {
      var rest := order[1..];
      var j := InsertShape(keys, rest, i);
      k := j + 1;
      assert order[..k] == [order[0]] + rest[..j] && order[k..] == rest[j..];
    }
  }

  lemma SortedCons(keys: seq<nat>, head: nat, rest: seq<nat>)
    requires head < |keys| && InRange(rest, |keys|) && SortedByKey(keys, rest)
    requires forall j :: 0 <= j < |rest| ==> keys[head] <= keys[rest[j]]
    ensures InRange([head] + rest, |keys|) && SortedByKey(keys, [head] + rest)
  {
    var all := [head] + rest;
    assert forall j :: 1 <= j < |all| ==> all[j] == rest[j - 1];
  }

  lemma {:induction false} InsertKeepsSorted(keys: seq<nat>, order: seq<nat>, i: nat)
    requires i < |keys| && InRange(order, |keys|) && SortedByKey(keys, order)
    ensures SortedByKey(keys, InsertByKey(keys, order, i))
  {
    if order != [] && keys[i] >= keys[order[0]] {
      var tail := order[1..];
      InsertKeepsSorted(keys, tail, i);
      var k := InsertShape(keys, tail, i);
      var rest := InsertByKey(keys, tail, i);
      forall j | 0 <= j < |rest| ensures keys[order[0]] <= keys[rest[j]] {
        assert rest[j] == if j < k then order[j + 1] else if j == k then i else order[j];
      }
      SortedCons(keys, order[0], rest);
    } else if order != [] {
      SortedCons(keys, i, order);
    }
  }

  lemma StableCons(keys: seq<nat>, head: nat, rest: seq<nat>)
    requires head < |keys| && InRange(rest, |keys|) && Stable(keys, rest)
    requires forall j :: 0 <= j < |rest| && keys[head] == keys[rest[j]] ==> head < rest[j]
    ensures InRange([head] + rest, |keys|) && Stable(keys, [head] + rest)
  {
    var all := [head] + rest;
    assert forall j :: 1 <= j < |all| ==> all[j] == rest[j - 1];
  }

  lemma StableTail(keys: seq<nat>, order: seq<nat>, n: nat)
    requires order != [] && InRange(order, |keys|) && InRange(order, n) && SortedByKey(keys, order) && Stable(keys, order)
    ensures var tail := order[1..];
            InRange(tail, |keys|) && InRange(tail, n) && SortedByKey(keys, tail) && Stable(keys, tail)
  {
    var tail := order[1..];
    assert forall j :: 0 <= j < |tail| ==> tail[j] == order[j + 1];
  }

  lemma {:induction false} InsertKeepsStable(keys: seq<nat>, order: seq<nat>, i: nat)
    requires i < |keys| && InRange(order, |keys|) && InRange(order, i) && SortedByKey(keys, order) && Stable(keys, order)
    ensures Stable(keys, InsertByKey(keys, order, i))
  {
    if order != [] && keys[i] >= keys[order[0]] {
      var tail := order[1..];
      StableTail(keys, order, i);
      InsertKeepsStable(keys, tail, i);
      var k := InsertShape(keys, tail, i);
      var rest := InsertByKey(keys, tail, i);
      forall j | 0 <= j < |rest| && keys[order[0]] == keys[rest[j]] ensures order[0] < rest[j] {
        assert rest[j] == if j < k then order[j + 1] else if j == k then i else order[j];
      }
      StableCons(keys, order[0], rest);
    } else if order != [] {
      StableCons(keys, i, order);
    }
  }

  lemma DistinctInsert(order: seq<nat>, k: nat, i: nat)
    requires Distinct(order) && k <= |order| && i !in order
    ensures Distinct(order[..k] + [i] + order[k..])
  {
    var r := order[..k] + [i] + order[k..];
    assert forall j :: 0 <= j < |r| ==> r[j] == if j < k then order[j] else if j == k then i else order[j - 1];
  }

  lemma {:induction false} SortFirstSorted(keys: seq<nat>, n: nat)
    requires n <= |keys|
    ensures SortedByKey(keys, SortFirst(keys, n)) && Stable(keys, SortFirst(keys, n))
  {
    if n > 0 {
      SortFirstSorted(keys, n - 1);
      SortFirstPermutes(keys, n - 1);
      InsertKeepsSorted(keys, SortFirst(keys, n - 1), n - 1);
      InsertKeepsStable(keys, SortFirst(keys, n - 1), n - 1);
    }
  }

  lemma InsertedRange(order: seq<nat>, k: nat, n: nat)
    requires k <= |order| && InRange(order, n)
    ensures InRange(order[..k] + [n] + order[k..], n + 1) && n !in order
  {
    var r := order[..k] + [n] + order[k..];
    assert forall j :: 0 <= j < |r| ==> r[j] == if j < k then order[j] else if j == k then n else order[j - 1];
  }

  lemma {:induction false} SortFirstPermutes(keys: seq<nat>, n: nat)
    requires n <= |keys|
    ensures Distinct(SortFirst(keys, n)) && InRange(SortFirst(keys, n), n)
  {
    if n > 0 {
      var before := SortFirst(keys, n - 1);
      SortFirstPermutes(keys, n - 1);
      var k := InsertShape(keys, before, n - 1);
      InsertedRange(before, k, n - 1);
      DistinctInsert(before, k, n - 1);
    }
  }

  /** All ranks sort the same global data to the same order: a permutation, ascending in length, stable. */
  lemma SortIndicesCorrect(keys: seq<nat>)
    ensures IsPermutation(SortIndices(keys), |keys|)
    ensures SortedByKey(keys, SortIndices(keys)) && Stable(keys, SortIndices(keys))
  {
    SortFirstSorted(keys, |keys|);
    SortFirstPermutes(keys, |keys|);
  }

  // ----- Step 2: fixed-size batches

  function Cut(order: seq<nat>, batchSize: nat, dropLast: bool): seq<seq<nat>>
    requires batchSize > 0
  {
    if order == [] then []
    else if |order| < batchSize then (if dropLast then [] else [order])
    else [order[..batchSize]] + Cut(order[batchSize..], batchSize, dropLast)
  }

  ghost predicate GroupsOf(keys: seq<nat>, groups: seq<seq<nat>>, b: nat) {
    forall g :: 0 <= g < |groups| ==> |groups[g]| == b && InRange(groups[g], |keys|)
  }

  /** With `drop_last` there are n/b batches, all full, and put end to end they are the start of the
      sorted list: consecutive slices, in order. */
  lemma {:induction false} CutShape(keys: seq<nat>, order: seq<nat>, b: nat)
    requires b > 0 && InRange(order, |keys|)
    ensures |Cut(order, b, true)| == Quotient(|order|, b)
    ensures GroupsOf(keys, Cut(order, b, true), b)
    ensures Flatten(Cut(order, b, true)) <= order
  {
    if |order| >= b {
      var rest := order[b..];
      CutShape(keys, rest, b);
      var c, d := Cut(order, b, true), Cut(rest, b, true);
      assert c[1..] == d;
      assert order == order[..b] + rest;
    }
  }

  // ----- Steps 3 and 4: shuffle the batches, keep a multiple of world_size, take every world_size-th

  function Shuffled(batches: seq<seq<nat>>, p: seq<nat>): (r: seq<seq<nat>>)
    requires IsPermutation(p, |batches|)
  {
    seq(|batches|, i requires 0 <= i < |batches| => batches[p[i]])
  }

  /** Python's `s[:n_full][rank::world]` with `n_full` the largest multiple of `world`: from every full
      stretch of `world` batches, the one at place `rank`. */
  function Deal(batches: seq<seq<nat>>, rank: nat, world: nat): seq<seq<nat>>
    requires rank < world
    decreases |batches|
  {
    if |batches| < world then [] else [batches[rank]] + Deal(batches[world..], rank, world)
  }

  lemma {:induction false} DealShape(batches: seq<seq<nat>>, rank: nat, world: nat)
    requires rank < world
    ensures |Deal(batches, rank, world)| == Quotient(|batches|, world)
    decreases |batches|
  {
    if |batches| >= world {
      DealShape(batches[world..], rank, world);
    }
  }

  lemma {:induction false} DealAt(batches: seq<seq<nat>>, rank: nat, world: nat, j: nat)
    requires rank < world && j < |Deal(batches, rank, world)|
    ensures rank + Times(j, world) < |batches|
    ensures Deal(batches, rank, world)[j] == batches[rank + Times(j, world)]
    decreases j
  {
    if j > 0 {
      DealAt(batches[world..], rank, world, j - 1);
    }
  }

  lemma {:induction false} StrideInjective(j: nat, r: nat, k: nat, q: nat, world: nat)
    requires r < world && q < world && r + Times(j, world) == q + Times(k, world)
    ensures j == k && r == q
  {
    if j > 0 && k > 0 {
      StrideInjective(j - 1, r, k - 1, q, world);
    }
  }

  /** `rng.shuffle` with a fresh generator: the permutation is determined by the seed and the length. */
  type Shuffler = (int, nat) -> seq<nat>

  ghost predicate Shuffles(permute: Shuffler) {
    forall seed: int, n: nat :: IsPermutation(permute(seed, n), n)
  }

  datatype Settings = Settings(keys: seq<nat>, batchSize: nat, shuffle: bool, seed: int, dropLast: bool, world: nat)

  ghost predicate Valid(s: Settings) {
    s.batchSize > 0 && s.world > 0
  }

  function AllBatches(s: Settings, epoch: nat, permute: Shuffler): seq<seq<nat>>
    requires Valid(s) && Shuffles(permute)
  {
    var cut := Cut(SortIndices(s.keys), s.batchSize, s.dropLast);
    if s.shuffle then Shuffled(cut, permute(s.seed + epoch, |cut|)) else cut
  }

  /** What the sampler of `rank` yields in `epoch`. */
  function RankBatches(s: Settings, epoch: nat, permute: Shuffler, rank: nat): seq<seq<nat>>
    requires Valid(s) && Shuffles(permute) && rank < s.world
  {
    Deal(AllBatches(s, epoch, permute), rank, s.world)
  }

  /** How many batches there are before dealing: the full ones, and a short one unless it is dropped. */
  function BatchCount(s: Settings): nat
    requires Valid(s)
  {
    if s.dropLast then Quotient(|s.keys|, s.batchSize) else Quotient(|s.keys| + s.batchSize - 1, s.batchSize)
  }

  lemma BatchCountIs(s: Settings)
    requires Valid(s)
    ensures BatchCount(s) == if s.dropLast then |s.keys| / s.batchSize else (|s.keys| + s.batchSize - 1) / s.batchSize
  {
    QuotientIs(|s.keys|, s.batchSize);
    QuotientIs(|s.keys| + s.batchSize - 1, s.batchSize);
  }

  function Len(s: Settings): nat
    requires Valid(s)
  {
    if |s.keys| == 0 then 0
    else
      var n := |s.keys| / s.batchSize / s.world;
      if n >= 1 then n else 1
  }

  /** Step 2 of `__iter__`: slices of `batchSize`, a short last one kept only without `drop_last`. */
  method CutBatches(indices: seq<nat>, batchSize: nat, dropLast: bool) returns (all: seq<seq<nat>>)
    requires batchSize > 0
    ensures all == Cut(indices, batchSize, dropLast)
  {
    all := [];
    var start := 0;
    assert indices[0..] == indices && [] + Cut(indices, batchSize, dropLast) == Cut(indices, batchSize, dropLast);
    while start < |indices|
      invariant 0 <= start
      invariant CutSoFar(indices, start, batchSize, dropLast, all)
      decreases |indices| - start
    {
      var end := if start + batchSize <= |indices| then start + batchSize else |indices|;
      var batch := indices[start..end];
      CutNext(indices, start, batchSize, dropLast, batch, all);
      if |batch| == batchSize || !dropLast {
        all := all + [batch];
      }
      start := start + batchSize;
    }
  }

  ghost function CutFrom(indices: seq<nat>, start: nat, b: nat, dropLast: bool): seq<seq<nat>>
    requires b > 0
  {
    if start <= |indices| then Cut(indices[start..], b, dropLast) else []
  }

  /** The batches made so far and those still to come are all the batches. */
  ghost predicate CutSoFar(indices: seq<nat>, start: nat, b: nat, dropLast: bool, all: seq<seq<nat>>)
    requires b > 0
  {
    all + CutFrom(indices, start, b, dropLast) == Cut(indices, b, dropLast)
  }

  lemma CutNext(indices: seq<nat>, start: nat, b: nat, dropLast: bool, batch: seq<nat>, all: seq<seq<nat>>)
    requires b > 0 && start < |indices| && CutSoFar(indices, start, b, dropLast, all)
    requires batch == indices[start..if start + b <= |indices| then start + b else |indices|]
    ensures CutSoFar(indices, start + b, b, dropLast, if |batch| == b || !dropLast then all + [batch] else all)
  {
    CutFromNext(indices, start, b, dropLast, batch);
    assert all + ([batch] + CutFrom(indices, start + b, b, dropLast)) == all + [batch] + CutFrom(indices, start + b, b, dropLast);
  }

  lemma CutFromNext(indices: seq<nat>, start: nat, b: nat, dropLast: bool, batch: seq<nat>)
    requires b > 0 && start < |indices|
    requires batch == indices[start..if start + b <= |indices| then start + b else |indices|]
    ensures var rest := CutFrom(indices, start + b, b, dropLast);
            CutFrom(indices, start, b, dropLast) == if |batch| == b || !dropLast then [batch] + rest else rest
  {
    var rest := indices[start..];
    if start + b <= |indices| {
      assert rest[..b] == batch && rest[b..] == indices[start + b..];
    } else {
      assert rest == batch;
    }
  }

  /** `batch` is a slice of the samples sorted by length: the slice whose number stands at place `at` of the
      epoch's shuffle, or is `at` itself without shuffling. */
  ghost predicate IsBatchAt(s: Settings, epoch: nat, permute: Shuffler, at: nat, batch: seq<nat>)
    requires Valid(s)
  {
    var p, order := permute(s.seed + epoch, BatchCount(s)), SortIndices(s.keys);
    && at < BatchCount(s) == |p|
    && var lo := Times(if s.shuffle then p[at] else at, s.batchSize);
    && lo < |order| && batch == order[lo..if lo + s.batchSize <= |order| then lo + s.batchSize else |order|]
  }

  class LengthBucketedBatchSampler {
    const settings: Settings
    const rank: nat
    var epoch: nat

    constructor (settings: Settings, rank: nat)
      ensures this.settings == settings && this.rank == rank && epoch == 0
    {
      this.settings, this.rank, epoch := settings, rank, 0;
    }

    method SetEpoch(epoch: nat)
      modifies this
      ensures this.epoch == epoch
    {
      this.epoch := epoch;
    }

    /** The batches in order; `yield from` becomes the returned list. */
    method Iterate(permute: Shuffler) returns (mine: seq<seq<nat>>)
      requires Valid(settings) && Shuffles(permute) && rank < settings.world
      ensures mine == RankBatches(settings, epoch, permute, rank)
      ensures |mine| == BatchCount(settings) / settings.world
      ensures forall j: nat :: j < |mine| ==> IsBatchAt(settings, epoch, permute, rank + Times(j, settings.world), mine[j])
    {
      var all := Batches(permute);
      mine := Deal(all, rank, settings.world);
      EqualCounts(settings, epoch, permute, rank);
      forall j: nat | j < |mine| ensures IsBatchAt(settings, epoch, permute, rank + Times(j, settings.world), mine[j]) {
        RankBatchAt(settings, epoch, permute, rank, j);
      }
    }

    /** Steps 1 to 3: sort, cut, shuffle. */
    method Batches(permute: Shuffler) returns (all: seq<seq<nat>>)
      requires Valid(settings) && Shuffles(permute)
      ensures all == AllBatches(settings, epoch, permute) && |all| == BatchCount(settings)
      ensures forall at: nat :: at < |all| ==> IsBatchAt(settings, epoch, permute, at, all[at])
    {
      var indices := SortIndices(settings.keys);
      all := CutBatches(indices, settings.batchSize, settings.dropLast);
      if settings.shuffle {
        all := Shuffled(all, permute(settings.seed + epoch, |all|));
      }
      CountBatches(settings, epoch, permute);
      forall at: nat | at < |all| ensures IsBatchAt(settings, epoch, permute, at, all[at]) {
        BatchAt(settings, epoch, permute, at);
      }
    }
  }

  // ----- Sharding: what the ranks get together

  lemma ShuffledGroups(keys: seq<nat>, batches: seq<seq<nat>>, p: seq<nat>, b: nat)
    requires IsPermutation(p, |batches|) && GroupsOf(keys, batches, b)
    ensures GroupsOf(keys, Shuffled(batches, p), b)
  {
    var r := Shuffled(batches, p);
    forall i | 0 <= i < |r| ensures |r[i]| == b && InRange(r[i], |keys|) {
      assert r[i] == batches[p[i]];
    }
  }

  lemma AllBatchesShape(s: Settings, epoch: nat, permute: Shuffler)
    requires Valid(s) && Shuffles(permute) && s.dropLast
    ensures |AllBatches(s, epoch, permute)| == Quotient(|s.keys|, s.batchSize)
    ensures GroupsOf(s.keys, AllBatches(s, epoch, permute), s.batchSize)
  {
    var cut := Cut(SortIndices(s.keys), s.batchSize, true);
    CutShape(s.keys, SortIndices(s.keys), s.batchSize);
    if s.shuffle {
      ShuffledGroups(s.keys, cut, permute(s.seed + epoch, |cut|), s.batchSize);
    }
  }

  lemma {:induction false} CutCount(order: seq<nat>, b: nat)
    requires b > 0
    ensures |Cut(order, b, false)| == Quotient(|order| + b - 1, b)
  {
    if |order| >= b {
      CutCount(order[b..], b);
    } else if order != [] {
      assert Quotient(|order| - 1, b) == 0;
    }
  }

  lemma CountBatches(s: Settings, epoch: nat, permute: Shuffler)
    requires Valid(s) && Shuffles(permute)
    ensures |AllBatches(s, epoch, permute)| == BatchCount(s)
  {
    CutSize(s);
  }

  lemma CutSize(s: Settings)
    requires Valid(s)
    ensures |Cut(SortIndices(s.keys), s.batchSize, s.dropLast)| == BatchCount(s)
  {
    if s.dropLast {
      CutShape(s.keys, SortIndices(s.keys), s.batchSize);
    } else {
      CutCount(SortIndices(s.keys), s.batchSize);
    }
  }

  /** Every rank gets the same number of batches, in every epoch, with or without `drop_last`. */
  lemma EqualCounts(s: Settings, epoch: nat, permute: Shuffler, rank: nat)
    requires Valid(s) && Shuffles(permute) && rank < s.world
    ensures |RankBatches(s, epoch, permute, rank)| == BatchCount(s) / s.world
  {
    CountBatches(s, epoch, permute);
    DealShape(AllBatches(s, epoch, permute), rank, s.world);
    QuotientIs(BatchCount(s), s.world);
  }

  lemma DealGroups(keys: seq<nat>, all: seq<seq<nat>>, b: nat, rank: nat, world: nat)
    requires rank < world && GroupsOf(keys, all, b)
    ensures GroupsOf(keys, Deal(all, rank, world), b)
  {
    var mine := Deal(all, rank, world);
    forall j | 0 <= j < |mine| ensures |mine[j]| == b && InRange(mine[j], |keys|) {
      DealAt(all, rank, world, j);
    }
  }

  /** With `drop_last` every batch is full. */
  lemma EqualShares(s: Settings, epoch: nat, permute: Shuffler, rank: nat)
    requires Valid(s) && Shuffles(permute) && s.dropLast && rank < s.world
    ensures |RankBatches(s, epoch, permute, rank)| == |s.keys| / s.batchSize / s.world
    ensures GroupsOf(s.keys, RankBatches(s, epoch, permute, rank), s.batchSize)
  {
    EqualCounts(s, epoch, permute, rank);
    BatchCountIs(s);
    AllBatchesShape(s, epoch, permute);
    DealGroups(s.keys, AllBatches(s, epoch, permute), s.batchSize, rank, s.world);
  }

  /** No sample occurs at two places. */
  ghost predicate Apart(batches: seq<seq<nat>>) {
    forall x: nat, a: nat, y: nat, b: nat ::
      x < |batches| && a < |batches[x]| && y < |batches| && b < |batches[y]| && batches[x][a] == batches[y][b] ==>
        x == y && a == b
  }

  lemma {:induction false} FlattenMember(groups: seq<seq<nat>>, x: nat, a: nat)
    requires x < |groups| && a < |groups[x]|
    ensures groups[x][a] in Flatten(groups)
  {
    if x > 0 {
      FlattenMember(groups[1..], x - 1, a);
    }
  }

  lemma {:induction false} FlattenPlaces(groups: seq<seq<nat>>, x: nat, a: nat, y: nat, b: nat)
    requires Distinct(Flatten(groups))
    requires x < |groups| && a < |groups[x]| && y < |groups| && b < |groups[y]|
    requires groups[x][a] == groups[y][b]
    ensures x == y && a == b
  {
    var head, rest := groups[0], Flatten(groups[1..]);
    assert Flatten(groups) == head + rest;
    assert Distinct(rest) by {
      assert forall i :: 0 <= i < |rest| ==> rest[i] == Flatten(groups)[|head| + i];
    }
    assert Distinct(head) by {
      assert forall i :: 0 <= i < |head| ==> head[i] == Flatten(groups)[i];
    }
    if x > 0 && y > 0 {
      FlattenPlaces(groups[1..], x - 1, a, y - 1, b);
    } else if x > 0 {
      FlattenMember(groups[1..], x - 1, a);
      HeadApart(head, rest, b);
    } else if y > 0 {
      FlattenMember(groups[1..], y - 1, b);
      HeadApart(head, rest, a);
    }
  }

  lemma HeadApart(head: seq<nat>, rest: seq<nat>, a: nat)
    requires Distinct(head + rest) && a < |head|
    ensures head[a] !in rest
  {
    var all := head + rest;
    forall i | 0 <= i < |rest| ensures rest[i] != head[a] {
      assert all[a] != all[|head| + i];
    }
  }

  lemma CutApart(keys: seq<nat>, b: nat, dropLast: bool)
    requires b > 0
    ensures Apart(Cut(SortIndices(keys), b, dropLast))
  {
    var order := SortIndices(keys);
    var cut := Cut(order, b, dropLast);
    var kept := Flatten(cut);
    SortIndicesCorrect(keys);
    if dropLast {
      CutShape(keys, order, b);
    } else {
      CutKeepsAll(order, b);
    }
    assert forall i :: 0 <= i < |kept| ==> kept[i] == order[i];
    forall x: nat, a: nat, y: nat, c: nat |
      x < |cut| && a < |cut[x]| && y < |cut| && c < |cut[y]| && cut[x][a] == cut[y][c]
      ensures x == y && a == c
    {
      FlattenPlaces(cut, x, a, y, c);
    }
  }

  lemma ShuffledApart(batches: seq<seq<nat>>, p: seq<nat>)
    requires IsPermutation(p, |batches|) && Apart(batches)
    ensures Apart(Shuffled(batches, p))
  {
    var r := Shuffled(batches, p);
    forall x: nat, a: nat, y: nat, b: nat | x < |r| && a < |r[x]| && y < |r| && b < |r[y]| && r[x][a] == r[y][b]
      ensures x == y && a == b
    {
      assert batches[p[x]][a] == batches[p[y]][b];
    }
  }

  /** Dealing to ranks keeps samples apart: equal samples mean the same rank, batch and place. */
  lemma DealApart(all: seq<seq<nat>>, world: nat, r: nat, j: nat, a: nat, q: nat, k: nat, b: nat)
    requires Apart(all) && r < world && q < world
    requires j < |Deal(all, r, world)| && k < |Deal(all, q, world)|
    requires a < |Deal(all, r, world)[j]| && b < |Deal(all, q, world)[k]|
    requires Deal(all, r, world)[j][a] == Deal(all, q, world)[k][b]
    ensures r == q && j == k && a == b
  {
    DealAt(all, r, world, j);
    DealAt(all, q, world, k);
    var x, y := r + Times(j, world), q + Times(k, world);
    assert all[x][a] == all[y][b];
    StrideInjective(j, r, k, q, world);
  }

  /** No sample is dealt twice: equal samples mean the same rank, the same batch and the same place. */
  lemma NoSampleTwice(s: Settings, epoch: nat, permute: Shuffler, mine: seq<seq<nat>>, theirs: seq<seq<nat>>,
                      r: nat, j: nat, a: nat, q: nat, k: nat, b: nat)
    requires Valid(s) && Shuffles(permute) && r < s.world && q < s.world
    requires mine == RankBatches(s, epoch, permute, r) && theirs == RankBatches(s, epoch, permute, q)
    requires j < |mine| && k < |theirs| && a < |mine[j]| && b < |theirs[k]| && mine[j][a] == theirs[k][b]
    ensures r == q && j == k && a == b
  {
    var all := AllBatches(s, epoch, permute);
    AllBatchesApart(s, epoch, permute);
    DealApart(all, s.world, r, j, a, q, k, b);
  }

  lemma AllBatchesApart(s: Settings, epoch: nat, permute: Shuffler)
    requires Valid(s) && Shuffles(permute)
    ensures Apart(AllBatches(s, epoch, permute))
  {
    var cut := Cut(SortIndices(s.keys), s.batchSize, s.dropLast);
    CutApart(s.keys, s.batchSize, s.dropLast);
    if s.shuffle {
      ShuffledApart(cut, permute(s.seed + epoch, |cut|));
    }
  }

  /** Together the ranks cover all but fewer than batch_size * world_size samples. */
  lemma FewDropped(s: Settings, epoch: nat, permute: Shuffler, rank: nat)
    requires Valid(s) && Shuffles(permute) && s.dropLast && rank < s.world
    ensures var dealt := |RankBatches(s, epoch, permute, rank)| * s.world * s.batchSize;
            dealt <= |s.keys| < dealt + s.world * s.batchSize
  {
    var n, b, w := |s.keys|, s.batchSize, s.world;
    var full := Quotient(n, b);
    var per := Quotient(full, w);
    EqualCounts(s, epoch, permute, rank);
    QuotientIs(n, b);
    QuotientIs(full, w);
    QuotientBounds(n, b);
    QuotientBounds(full, w);
    var kept := Times(per, w);
    TimesMono(kept, full, b);
    TimesMono(full + 1, kept + w, b);
    TimesAdd(kept, w, b);
    TimesIs(per, w);
    TimesIs(kept, b);
    TimesIs(w, b);
  }

  lemma LastBatch(n: nat, b: nat)
    requires b > 0
    ensures n / b <= (n + b - 1) / b <= n / b + 1
    ensures n == 0 ==> (n + b - 1) / b == 0
    ensures n > 0 ==> (n + b - 1) / b > 0
  {
    QuotientIs(n, b);
    QuotientIs(n + b - 1, b);
    QuotientMono(n, n + b - 1, b);
    QuotientMono(n + b - 1, n + b, b);
  }

  /** `__len__` is the number of batches yielded exactly when there is no data at all, or every rank gets a
      batch and a short batch, if there is one and it is kept, does not give every rank a further one.
      Otherwise it promises one batch that never comes, or misses the last one. */
  lemma LenExact(s: Settings, epoch: nat, permute: Shuffler, rank: nat)
    requires Valid(s) && Shuffles(permute) && rank < s.world
    ensures var yielded, all := |RankBatches(s, epoch, permute, rank)|, BatchCount(s);
            && (Len(s) == yielded <==>
                  |s.keys| == 0 || (all >= s.world && (all == |s.keys| / s.batchSize || all == s.world || all % s.world != 0)))
            && (Len(s) > yielded ==> Len(s) == 1 && yielded == 0)
            && (Len(s) < yielded ==> yielded == Len(s) + 1 && !s.dropLast)
  {
    EqualCounts(s, epoch, permute, rank);
    LenAgainst(s);
  }

  lemma LenAgainst(s: Settings)
    requires Valid(s)
    ensures var yielded, all := BatchCount(s) / s.world, BatchCount(s);
            && (Len(s) == yielded <==>
                  |s.keys| == 0 || (all >= s.world && (all == |s.keys| / s.batchSize || all == s.world || all % s.world != 0)))
            && (Len(s) > yielded ==> Len(s) == 1 && yielded == 0)
            && (Len(s) < yielded ==> yielded == Len(s) + 1 && !s.dropLast)
  {
    var n, b, w := |s.keys|, s.batchSize, s.world;
    BatchCountIs(s);
    LastBatch(n, b);
    DivNext(n / b, w);
    LenCases(n, n / b, BatchCount(s), w);
  }

  /** Five samples in batches of two on one rank: two promised, three yielded with the short batch kept. One
      sample: one promised, none yielded with it dropped. */
  lemma LenCanBeWrong(permute: Shuffler)
    requires Shuffles(permute)
    ensures var s := Settings([1, 1, 1, 1, 1], 2, true, 0, false, 1);
            Valid(s) && Len(s) == 2 && |RankBatches(s, 0, permute, 0)| == 3
    ensures var s := Settings([1], 2, true, 0, true, 1); Valid(s) && Len(s) == 1 && RankBatches(s, 0, permute, 0) == []
  {
    EqualCounts(Settings([1, 1, 1, 1, 1], 2, true, 0, false, 1), 0, permute, 0);
    BatchCountIs(Settings([1, 1, 1, 1, 1], 2, true, 0, false, 1));
    EqualCounts(Settings([1], 2, true, 0, true, 1), 0, permute, 0);
    BatchCountIs(Settings([1], 2, true, 0, true, 1));
  }

  lemma LenCases(n: nat, full: nat, all: nat, w: nat)
    requires w > 0 && full <= all <= full + 1 && (n == 0 ==> all == 0) && (n == 0 || all > 0 || full == 0)
    requires (full + 1) / w == full / w + if (full + 1) % w == 0 then 1 else 0
    requires (full < w ==> full / w == 0) && (full >= w ==> full / w >= 1)
    ensures var len, yielded := if n == 0 then 0 else if full / w >= 1 then full / w else 1, all / w;
            && (len == yielded <==> n == 0 || (all >= w && (all == full || all == w || all % w != 0)))
            && (len > yielded ==> len == 1 && yielded == 0)
            && (len < yielded ==> yielded == len + 1 && all != full)
  {
  }

  /** Without `drop_last`, nothing is cut away: the batches put end to end are the sorted list. */
  lemma {:induction false} CutKeepsAll(order: seq<nat>, b: nat)
    requires b > 0
    ensures Flatten(Cut(order, b, false)) == order
  {
    if |order| >= b {
      CutKeepsAll(order[b..], b);
      assert order == order[..b] + order[b..];
      var c := Cut(order[b..], b, false);
      assert ([order[..b]] + c)[1..] == c;
    } else if order != [] {
      assert Cut(order, b, false)[1..] == [];
    }
  }

  // ----- Which batch a rank gets, without the intermediate lists

  /** Slice `q` of `b` samples, the last one possibly short. */
  function SliceOf(order: seq<nat>, b: nat, q: nat): seq<nat>
    requires Times(q, b) <= |order|
  {
    var lo := Times(q, b);
    order[lo..if lo + b <= |order| then lo + b else |order|]
  }

  lemma SliceOfRest(order: seq<nat>, b: nat, q: nat)
    requires q > 0 && b <= |order| && Times(q - 1, b) <= |order| - b
    ensures Times(q, b) <= |order| && SliceOf(order[b..], b, q - 1) == SliceOf(order, b, q)
  {
    var lo := Times(q - 1, b);
    var hi := if b + lo + b <= |order| then b + lo + b else |order|;
    assert Times(q, b) == b + lo;
    assert order[b..][lo..hi - b] == order[b + lo..hi];
  }

  lemma {:induction false} CutSlice(order: seq<nat>, b: nat, dropLast: bool, q: nat)
    requires b > 0 && q < |Cut(order, b, dropLast)|
    ensures Times(q, b) < |order| && Cut(order, b, dropLast)[q] == SliceOf(order, b, q)
  {
    if q > 0 {
      var rest := order[b..];
      CutSlice(rest, b, dropLast, q - 1);
      assert Cut(order, b, dropLast)[q] == Cut(rest, b, dropLast)[q - 1];
      SliceOfRest(order, b, q);
    } else if |order| < b {
      assert order[0..|order|] == order;
    }
  }

  lemma BatchAt(s: Settings, epoch: nat, permute: Shuffler, at: nat)
    requires Valid(s) && Shuffles(permute) && at < |AllBatches(s, epoch, permute)|
    ensures IsBatchAt(s, epoch, permute, at, AllBatches(s, epoch, permute)[at])
  {
    CutSize(s);
    var p := permute(s.seed + epoch, BatchCount(s));
    assert IsPermutation(p, BatchCount(s));
    CutSlice(SortIndices(s.keys), s.batchSize, s.dropLast, if s.shuffle then p[at] else at);
  }

  /** Batch `j` of `rank` is the one at place rank + j * world_size of the epoch. */
  lemma RankBatchAt(s: Settings, epoch: nat, permute: Shuffler, rank: nat, j: nat)
    requires Valid(s) && Shuffles(permute) && rank < s.world && j < |RankBatches(s, epoch, permute, rank)|
    ensures IsBatchAt(s, epoch, permute, rank + Times(j, s.world), RankBatches(s, epoch, permute, rank)[j])
  {
    DealAt(AllBatches(s, epoch, permute), rank, s.world, j);
    BatchAt(s, epoch, permute, rank + Times(j, s.world));
  }

  /** Every sample of the one is at most as long as every sample of the other. */
  ghost predicate NoLonger(keys: seq<nat>, x: seq<nat>, y: seq<nat>) {
    forall a: nat, b: nat :: a < |x| && b < |y| && x[a] < |keys| && y[b] < |keys| ==> keys[x[a]] <= keys[y[b]]
  }

  lemma SlicesOrdered(keys: seq<nat>, b: nat, p: nat, q: nat)
    requires p < q && Times(p, b) < |keys| && Times(q, b) < |keys|
    ensures NoLonger(keys, SliceOf(SortIndices(keys), b, p), SliceOf(SortIndices(keys), b, q))
  {
    TimesMono(p + 1, q, b);
    SortIndicesCorrect(keys);
    var order, x, y := SortIndices(keys), SliceOf(SortIndices(keys), b, p), SliceOf(SortIndices(keys), b, q);
    forall i: nat, j: nat | i < |x| && j < |y| && x[i] < |keys| && y[j] < |keys| ensures keys[x[i]] <= keys[y[j]] {
      assert x[i] == order[Times(p, b) + i] && y[j] == order[Times(q, b) + j];
    }
  }

  ghost predicate InLengthOrder(keys: seq<nat>, x: seq<nat>, y: seq<nat>) {
    NoLonger(keys, x, y) || NoLonger(keys, y, x)
  }

  lemma CutOrdered(s: Settings, u: nat, v: nat)
    requires Valid(s) && u < |Cut(SortIndices(s.keys), s.batchSize, s.dropLast)|
    requires v < |Cut(SortIndices(s.keys), s.batchSize, s.dropLast)| && u != v
    ensures var cut := Cut(SortIndices(s.keys), s.batchSize, s.dropLast); InLengthOrder(s.keys, cut[u], cut[v])
  {
    CutSlice(SortIndices(s.keys), s.batchSize, s.dropLast, u);
    CutSlice(SortIndices(s.keys), s.batchSize, s.dropLast, v);
    if u < v {
      SlicesOrdered(s.keys, s.batchSize, u, v);
    } else {
      SlicesOrdered(s.keys, s.batchSize, v, u);
    }
  }

  lemma PlacesOrdered(s: Settings, epoch: nat, permute: Shuffler, i: nat, k: nat)
    requires Valid(s) && Shuffles(permute) && i < |AllBatches(s, epoch, permute)| && k < |AllBatches(s, epoch, permute)| && i != k
    ensures InLengthOrder(s.keys, AllBatches(s, epoch, permute)[i], AllBatches(s, epoch, permute)[k])
  {
    var n := |Cut(SortIndices(s.keys), s.batchSize, s.dropLast)|;
    var p := permute(s.seed + epoch, n);
    assert IsPermutation(p, n);
    if s.shuffle {
      CutOrdered(s, p[i], p[k]);
    } else {
      CutOrdered(s, i, k);
    }
  }

  lemma DealtDiffer(all: seq<seq<nat>>, world: nat, r: nat, j: nat, q: nat, k: nat) returns (u: nat, v: nat)
    requires r < world && q < world && j < |Deal(all, r, world)| && k < |Deal(all, q, world)| && (r != q || j != k)
    ensures u < |all| && v < |all| && u != v && Deal(all, r, world)[j] == all[u] && Deal(all, q, world)[k] == all[v]
  {
    DealAt(all, r, world, j);
    DealAt(all, q, world, k);
    u, v := r + Times(j, world), q + Times(k, world);
    if u == v {
      StrideInjective(j, r, k, q, world);
    }
  }

  /** The batches the ranks get are apart in length: of any two of an epoch, no sample of the one is longer than
      any sample of the other. */
  lemma BatchesOrdered(s: Settings, epoch: nat, permute: Shuffler, r: nat, j: nat, q: nat, k: nat)
    requires Valid(s) && Shuffles(permute) && r < s.world && q < s.world
    requires j < |RankBatches(s, epoch, permute, r)| && k < |RankBatches(s, epoch, permute, q)| && (r != q || j != k)
    ensures var x, y := RankBatches(s, epoch, permute, r)[j], RankBatches(s, epoch, permute, q)[k];
            NoLonger(s.keys, x, y) || NoLonger(s.keys, y, x)
  {
    var u, v := DealtDiffer(AllBatches(s, epoch, permute), s.world, r, j, q, k);
    PlacesOrdered(s, epoch, permute, u, v);
  }

  // ----- Padding: the cut of the sorted list minimises the total of the batch maxima

  function MaxKey(keys: seq<nat>, batch: seq<nat>): (m: nat)
    requires batch != [] && InRange(batch, |keys|)
    ensures forall i :: 0 <= i < |batch| ==> keys[batch[i]] <= m
    ensures exists i :: 0 <= i < |batch| && keys[batch[i]] == m
  {
    if |batch| == 1 then keys[batch[0]]
    else
      var rest := MaxKey(keys, batch[1..]);
      if keys[batch[0]] >= rest then keys[batch[0]] else rest
  }

  /** Total padded length per row slot: the sum of the batch maxima. */
  function SumOfMaxima(keys: seq<nat>, groups: seq<seq<nat>>, b: nat): nat
    requires b > 0 && GroupsOf(keys, groups, b)
  {
    if groups == [] then 0
    else
      var last := |groups| - 1;
      SumOfMaxima(keys, groups[..last], b) + MaxKey(keys, groups[last])
  }

  /** How many of the listed samples have length at most `v`. */
  function CountUpTo(keys: seq<nat>, samples: seq<nat>, v: nat): (n: nat)
    requires InRange(samples, |keys|)
    ensures n <= |samples|
  {
    if samples == [] then 0
    else (if keys[samples[0]] <= v then 1 else 0) + CountUpTo(keys, samples[1..], v)
  }

  lemma {:induction false} CountAppend(keys: seq<nat>, x: seq<nat>, y: seq<nat>, v: nat)
    requires InRange(x, |keys|) && InRange(y, |keys|)
    ensures CountUpTo(keys, x + y, v) == CountUpTo(keys, x, v) + CountUpTo(keys, y, v)
  {
    if x == [] {
      assert x + y == y;
    } else {
      assert (x + y)[1..] == x[1..] + y;
      CountAppend(keys, x[1..], y, v);
    }
  }

  lemma {:induction false} CountFull(keys: seq<nat>, samples: seq<nat>, v: nat)
    requires InRange(samples, |keys|)
    requires forall i :: 0 <= i < |samples| ==> keys[samples[i]] <= v
    ensures CountUpTo(keys, samples, v) == |samples|
  {
    if samples != [] {
      CountFull(keys, samples[1..], v);
    }
  }

  /** In a sorted list the short samples come first, so a prefix counts min(length, total). */
  lemma {:induction false} CountPrefix(keys: seq<nat>, order: seq<nat>, t: nat, v: nat)
    requires InRange(order, |keys|) && SortedByKey(keys, order) && t <= |order|
    ensures var c := CountUpTo(keys, order, v);
            CountUpTo(keys, order[..t], v) == if c <= t then c else t
  {
    if t < |order| {
      var p, q := order[..t], order[t..];
      assert order == p + q;
      CountAppend(keys, p, q, v);
      if keys[order[t]] <= v {
        CountFull(keys, p, v);
        assert keys[q[0]] <= v;
      } else {
        CountNone(keys, q, v);
      }
    } else {
      assert order[..t] == order;
    }
  }

  lemma {:induction false} CountNone(keys: seq<nat>, samples: seq<nat>, v: nat)
    requires InRange(samples, |keys|)
    requires forall i :: 0 <= i < |samples| ==> keys[samples[i]] > v
    ensures CountUpTo(keys, samples, v) == 0
  {
    if samples != [] {
      CountNone(keys, samples[1..], v);
    }
  }

  /** Counting distinct samples is the size of a set, so fewer samples count no more. */
  lemma {:induction false} CountIsCardinality(keys: seq<nat>, samples: seq<nat>, v: nat)
    requires InRange(samples, |keys|) && Distinct(samples)
    ensures CountUpTo(keys, samples, v) == |set x | x in samples && keys[x] <= v|
  {
    if samples != [] {
      var rest := samples[1..];
      CountIsCardinality(keys, rest, v);
      ShortSetFirst(keys, samples, v);
    }
  }

  lemma ShortSetFirst(keys: seq<nat>, samples: seq<nat>, v: nat)
    requires InRange(samples, |keys|) && Distinct(samples) && samples != []
    ensures var all, less := set x | x in samples && keys[x] <= v, set x | x in samples[1..] && keys[x] <= v;
            |all| == |less| + (if keys[samples[0]] <= v then 1 else 0)
  {
    var rest := samples[1..];
    var all, less := set x | x in samples && keys[x] <= v, set x | x in rest && keys[x] <= v;
    assert samples == [samples[0]] + rest;
    assert samples[0] !in rest;
    if keys[samples[0]] <= v {
      assert all == less + {samples[0]};
    } else {
      assert all == less;
    }
  }

  lemma CountSubset(keys: seq<nat>, some: seq<nat>, all: seq<nat>, v: nat)
    requires InRange(some, |keys|) && Distinct(some) && IsPermutation(all, |keys|)
    ensures CountUpTo(keys, some, v) <= CountUpTo(keys, all, v)
  {
    CountIsCardinality(keys, some, v);
    CountIsCardinality(keys, all, v);
    var a, b := set x | x in some && keys[x] <= v, set x | x in all && keys[x] <= v;
    forall x | x in a ensures x in b {
      Covers(all, |keys|, x);
    }
    CardinalityMono(a, b);
  }

  lemma CardinalityMono<T>(a: set<T>, b: set<T>)
    requires a <= b
    ensures |a| <= |b|
  {
    assert b == a + (b - a);
  }

  function Without(groups: seq<seq<nat>>, g: nat): seq<seq<nat>>
    requires g < |groups|
  {
    groups[..g] + groups[g + 1..]
  }

  lemma {:induction false} FlattenInRange(keys: seq<nat>, groups: seq<seq<nat>>, b: nat)
    requires GroupsOf(keys, groups, b)
    ensures InRange(Flatten(groups), |keys|) && |Flatten(groups)| == Times(|groups|, b)
  {
    if groups != [] {
      FlattenInRange(keys, groups[1..], b);
    }
  }

  lemma CountWithout(keys: seq<nat>, groups: seq<seq<nat>>, b: nat, g: nat, v: nat)
    requires GroupsOf(keys, groups, b) && g < |groups|
    ensures GroupsOf(keys, Without(groups, g), b)
    ensures InRange(Flatten(groups), |keys|) && InRange(Flatten(Without(groups, g)), |keys|)
    ensures CountUpTo(keys, Flatten(Without(groups, g)), v) <= CountUpTo(keys, Flatten(groups), v)
  {
    var x, m, y := groups[..g], [groups[g]], groups[g + 1..];
    assert groups == x + m + y;
    FlattenAppend(x + m, y);
    FlattenAppend(x, m);
    FlattenAppend(x, y);
    assert Flatten(m) == groups[g];
    FlattenInRange(keys, x, b);
    FlattenInRange(keys, m, b);
    FlattenInRange(keys, y, b);
    CountAppend(keys, Flatten(x) + Flatten(m), Flatten(y), v);
    CountAppend(keys, Flatten(x), Flatten(m), v);
    CountAppend(keys, Flatten(x), Flatten(y), v);
  }

  lemma WithoutGroups(keys: seq<nat>, groups: seq<seq<nat>>, b: nat, g: nat)
    requires GroupsOf(keys, groups, b) && g < |groups|
    ensures GroupsOf(keys, Without(groups, g), b)
  {
    var w := Without(groups, g);
    forall i | 0 <= i < |w| ensures |w[i]| == b && InRange(w[i], |keys|) {
      assert w[i] == groups[if i < g then i else i + 1];
    }
  }

  lemma WithoutFront(groups: seq<seq<nat>>, g: nat)
    requires g < |groups| - 1
    ensures var w := Without(groups, g);
            && w != [] && w[..|w| - 1] == Without(groups[..|groups| - 1], g) && w[|w| - 1] == groups[|groups| - 1]
  {
  }

  lemma {:induction false} SumWithout(keys: seq<nat>, groups: seq<seq<nat>>, b: nat, g: nat)
    requires b > 0 && GroupsOf(keys, groups, b) && g < |groups| && GroupsOf(keys, Without(groups, g), b)
    ensures SumOfMaxima(keys, groups, b) == SumOfMaxima(keys, Without(groups, g), b) + MaxKey(keys, groups[g])
  {
    var last := |groups| - 1;
    var front, w := groups[..last], Without(groups, g);
    if g == last {
      assert w == front;
    } else {
      var v := Without(front, g);
      WithoutGroups(keys, front, b, g);
      SumWithout(keys, front, b, g);
      WithoutFront(groups, g);
    }
  }

  /** A group with the largest maximum: no sample of any group is longer. */
  lemma {:induction false} LargestGroup(keys: seq<nat>, groups: seq<seq<nat>>, b: nat) returns (g: nat)
    requires b > 0 && groups != [] && GroupsOf(keys, groups, b)
    ensures g < |groups|
    ensures InRange(Flatten(groups), |keys|)
    ensures forall i :: 0 <= i < |Flatten(groups)| ==> keys[Flatten(groups)[i]] <= MaxKey(keys, groups[g])
  {
    FlattenInRange(keys, groups, b);
    if |groups| == 1 {
      g := 0;
      assert Flatten(groups) == groups[0] + Flatten(groups[1..]) == groups[0];
    } else {
      var h := LargestGroup(keys, groups[1..], b);
      g := if MaxKey(keys, groups[0]) >= MaxKey(keys, groups[1..][h]) then 0 else h + 1;
    }
  }

  /** The heart of the argument: `batches` put end to end are sorted; groups whose samples are, length by
      length, no more numerous than theirs cannot have smaller maxima in total. */
  lemma {:induction false} SlicesAreOptimal(keys: seq<nat>, batches: seq<seq<nat>>, groups: seq<seq<nat>>, b: nat)
    requires b > 0 && |batches| == |groups| && GroupsOf(keys, batches, b) && GroupsOf(keys, groups, b)
    requires InRange(Flatten(batches), |keys|) && InRange(Flatten(groups), |keys|)
    requires SortedByKey(keys, Flatten(batches))
    requires forall v: nat :: CountUpTo(keys, Flatten(groups), v) <= CountUpTo(keys, Flatten(batches), v)
    ensures SumOfMaxima(keys, batches, b) <= SumOfMaxima(keys, groups, b)
    decreases |groups|
  {
    var m := |groups|;
    if m > 0 {
      var g := LargestGroup(keys, groups, b);
      LastIsShort(keys, batches, groups, b, g);
      var front, rest := batches[..m - 1], Without(groups, g);
      WithoutGroups(keys, groups, b, g);
      SumWithout(keys, groups, b, g);
      FrontShape(keys, batches, b);
      FlattenInRange(keys, rest, b);
      forall v: nat ensures CountUpTo(keys, Flatten(rest), v) <= CountUpTo(keys, Flatten(front), v) {
        RestIsFewer(keys, batches, groups, b, g, v);
      }
      SlicesAreOptimal(keys, front, rest, b);
    }
  }

  lemma RestIsFewer(keys: seq<nat>, batches: seq<seq<nat>>, groups: seq<seq<nat>>, b: nat, g: nat, v: nat)
    requires b > 0 && |batches| == |groups| && GroupsOf(keys, batches, b) && GroupsOf(keys, groups, b)
    requires InRange(Flatten(batches), |keys|) && InRange(Flatten(groups), |keys|)
    requires SortedByKey(keys, Flatten(batches)) && g < |groups|
    requires CountUpTo(keys, Flatten(groups), v) <= CountUpTo(keys, Flatten(batches), v)
    ensures InRange(Flatten(Without(groups, g)), |keys|) && InRange(Flatten(batches[..|batches| - 1]), |keys|)
    ensures CountUpTo(keys, Flatten(Without(groups, g)), v) <= CountUpTo(keys, Flatten(batches[..|batches| - 1]), v)
  {
    var front := batches[..|batches| - 1];
    FrontShape(keys, batches, b);
    CountWithout(keys, groups, b, g, v);
    FlattenInRange(keys, Without(groups, g), b);
    CountPrefix(keys, Flatten(batches), |Flatten(front)|, v);
  }

  lemma FrontShape(keys: seq<nat>, batches: seq<seq<nat>>, b: nat)
    requires batches != [] && GroupsOf(keys, batches, b) && InRange(Flatten(batches), |keys|)
    requires SortedByKey(keys, Flatten(batches))
    ensures var front := batches[..|batches| - 1];
            && GroupsOf(keys, front, b)
            && InRange(Flatten(front), |keys|)
            && Flatten(batches) == Flatten(front) + batches[|batches| - 1]
            && Flatten(batches)[..|Flatten(front)|] == Flatten(front)
            && |Flatten(front)| == Times(|batches| - 1, b)
            && SortedByKey(keys, Flatten(front))
  {
    var m := |batches| - 1;
    var front, last := batches[..m], [batches[m]];
    assert batches == front + last;
    FlattenAppend(front, last);
    assert Flatten(last) == batches[m] + Flatten(last[1..]) == batches[m];
    FlattenInRange(keys, front, b);
    assert forall i :: 0 <= i < |Flatten(front)| ==> Flatten(front)[i] == Flatten(batches)[i];
  }

  /** The last slice's maximum does not exceed the maximum of a largest group. */
  lemma LastIsShort(keys: seq<nat>, batches: seq<seq<nat>>, groups: seq<seq<nat>>, b: nat, g: nat)
    requires b > 0 && |batches| == |groups| && GroupsOf(keys, batches, b) && GroupsOf(keys, groups, b)
    requires InRange(Flatten(batches), |keys|) && InRange(Flatten(groups), |keys|)
    requires SortedByKey(keys, Flatten(batches)) && g < |groups|
    requires forall i :: 0 <= i < |Flatten(groups)| ==> keys[Flatten(groups)[i]] <= MaxKey(keys, groups[g])
    requires forall v: nat :: CountUpTo(keys, Flatten(groups), v) <= CountUpTo(keys, Flatten(batches), v)
    ensures MaxKey(keys, batches[|batches| - 1]) <= MaxKey(keys, groups[g])
  {
    var top, all := MaxKey(keys, groups[g]), Flatten(batches);
    FlattenInRange(keys, groups, b);
    FlattenInRange(keys, batches, b);
    CountFull(keys, Flatten(groups), top);
    EnoughShort(keys, all, top);
    FrontShape(keys, batches, b);
    LastAtMost(keys, Flatten(batches[..|batches| - 1]), batches[|batches| - 1], all, top);
  }

  lemma LastAtMost(keys: seq<nat>, front: seq<nat>, last: seq<nat>, all: seq<nat>, v: nat)
    requires last != [] && InRange(last, |keys|) && InRange(all, |keys|) && all == front + last
    requires forall i :: 0 <= i < |all| ==> keys[all[i]] <= v
    ensures MaxKey(keys, last) <= v
  {
    var i :| 0 <= i < |last| && keys[last[i]] == MaxKey(keys, last);
    assert all[|front| + i] == last[i];
  }

  /** If every sample of a sorted list counts, the list stays within the bound. */
  lemma {:induction false} EnoughShort(keys: seq<nat>, samples: seq<nat>, v: nat)
    requires InRange(samples, |keys|) && CountUpTo(keys, samples, v) == |samples|
    ensures forall i :: 0 <= i < |samples| ==> keys[samples[i]] <= v
  {
    if samples != [] {
      EnoughShort(keys, samples[1..], v);
      assert samples == [samples[0]] + samples[1..];
    }
  }

  /** Among all ways to pick n/b disjoint groups of b samples, the sampler's cut of the sorted list has
      the smallest total of group maxima. When b divides n these are all the partitions into groups
      of size b. */
  lemma PaddingOptimal(keys: seq<nat>, b: nat, groups: seq<seq<nat>>)
    requires b > 0 && GroupsOf(keys, groups, b) && |groups| == |keys| / b
    requires Distinct(Flatten(groups))
    ensures GroupsOf(keys, Cut(SortIndices(keys), b, true), b)
    ensures SumOfMaxima(keys, Cut(SortIndices(keys), b, true), b) <= SumOfMaxima(keys, groups, b)
  {
    var order := SortIndices(keys);
    SortIndicesCorrect(keys);
    CutShape(keys, order, b);
    QuotientIs(|keys|, b);
    var batches := Cut(order, b, true);
    var kept := Flatten(batches);
    FlattenInRange(keys, batches, b);
    FlattenInRange(keys, groups, b);
    assert order[..|kept|] == kept;
    assert forall i :: 0 <= i < |kept| ==> kept[i] == order[i];
    forall v: nat ensures CountUpTo(keys, Flatten(groups), v) <= CountUpTo(keys, kept, v) {
      CountSubset(keys, Flatten(groups), order, v);
      CountPrefix(keys, order, |kept|, v);
    }
    SlicesAreOptimal(keys, batches, groups, b);
  }
}
