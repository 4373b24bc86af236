/** Labels in compressed sparse rows, the sample index, and the choice of positives and negatives
    (training/dataloader.py, `IndexerDataset` and `JointLayerIndexerDataset`). */
module Labels {
  import opened Arith
  import opened Lists
  import opened Wrappers

  /** `ptrs` has one entry per decode token and one more; `idxs` lists the labelled blocks. */
  datatype Doc = Doc(ptrs: seq<nat>, idxs: seq<nat>, nBlocks: nat) {
    function Tokens(): nat {
      if |ptrs| == 0 then 0 else |ptrs| - 1
    }
  }

  ghost predicate WellFormed(d: Doc) {
    && |d.ptrs| > 0
    && (forall i, j :: 0 <= i <= j < |d.ptrs| ==> d.ptrs[i] <= d.ptrs[j])
    && d.ptrs[|d.ptrs| - 1] <= |d.idxs|
  }

  /** The labels between two tokens: one slice of the flat list. */
  function Slice(d: Doc, from: nat, to: nat): seq<nat>
    requires WellFormed(d) && from <= to <= d.Tokens()
  {
    d.idxs[d.ptrs[from]..d.ptrs[to]]
  }

  function Row(d: Doc, t: nat): seq<nat>
    requires WellFormed(d) && t < d.Tokens()
  {
    Slice(d, t, t + 1)
  }

  function WindowEnd(d: Doc, t: nat, interval: nat): nat {
    if t + interval <= d.Tokens() then t + interval else d.Tokens()
  }

  function Window(d: Doc, t: nat, interval: nat): seq<nat>
    requires WellFormed(d) && t <= d.Tokens()
  {
    Slice(d, t, WindowEnd(d, t, interval))
  }

  /** The rows of the tokens [from, to), end to end. */
  function Rows(d: Doc, from: nat, to: nat): seq<nat>
    requires WellFormed(d) && from <= to <= d.Tokens()
  {
    if from == to then [] else Rows(d, from, to - 1) + Row(d, to - 1)
  }

  /** The flat slice is the per-token rows put end to end. */
  lemma {:induction false} SliceIsRows(d: Doc, from: nat, to: nat)
    requires WellFormed(d) && from <= to <= d.Tokens()
    ensures Slice(d, from, to) == Rows(d, from, to)
  {
    if from < to {
      SliceIsRows(d, from, to - 1);
      assert d.ptrs[from] <= d.ptrs[to - 1] <= d.ptrs[to];
    }
  }

  lemma {:induction false} RowsMembers(d: Doc, from: nat, to: nat, b: nat)
    requires WellFormed(d) && from <= to <= d.Tokens()
    ensures b in Rows(d, from, to) <==> exists t: nat :: from <= t < to && b in Row(d, t)
  {
    if from < to {
      RowsMembers(d, from, to - 1, b);
    }
  }

  /** Some entry of token `u`'s stretch of the flat list names block `b`. */
  ghost predicate LabelledAt(d: Doc, u: nat, b: nat)
    requires WellFormed(d) && u < d.Tokens()
  {
    exists j: nat :: d.ptrs[u] <= j < d.ptrs[u + 1] && d.idxs[j] == b
  }

  lemma RowMeans(d: Doc, u: nat, b: nat)
    requires WellFormed(d) && u < d.Tokens()
    ensures b in Row(d, u) <==> LabelledAt(d, u, b)
  {
    var row, lo := Row(d, u), d.ptrs[u];
    if b in row {
      var i :| 0 <= i < |row| && row[i] == b;
      assert d.idxs[lo + i] == b;
    }
    if LabelledAt(d, u, b) {
      var j: nat :| lo <= j < d.ptrs[u + 1] && d.idxs[j] == b;
      assert row[j - lo] == b;
    }
  }

  /** Block `b` is labelled at one of the tokens from `t` up to, but not including, `t + interval`. */
  ghost predicate InWindow(d: Doc, t: nat, interval: nat, b: nat)
    requires WellFormed(d)
  {
    exists u: nat :: t <= u < t + interval && u < d.Tokens() && LabelledAt(d, u, b)
  }

  /** A window's labels are the union of the labels of its tokens. */
  lemma WindowIsUnion(d: Doc, t: nat, interval: nat, b: nat)
    requires WellFormed(d) && t <= d.Tokens()
    ensures b in Window(d, t, interval) <==> exists u: nat :: t <= u < t + interval && u < d.Tokens() && b in Row(d, u)
    ensures b in Window(d, t, interval) <==> InWindow(d, t, interval, b)
  {
    var end := WindowEnd(d, t, interval);
    SliceIsRows(d, t, end);
    RowsMembers(d, t, end, b);
    forall u: nat | u < d.Tokens() ensures b in Row(d, u) <==> LabelledAt(d, u, b) {
      RowMeans(d, u, b);
    }
  }

  lemma WindowMembers(d: Doc, t: nat, interval: nat)
    requires WellFormed(d) && t <= d.Tokens()
    ensures forall b: nat :: b in Window(d, t, interval) <==> InWindow(d, t, interval, b)
    ensures Window(d, t, interval) != [] <==> exists b: nat :: InWindow(d, t, interval, b)
  {
    forall b: nat ensures b in Window(d, t, interval) <==> InWindow(d, t, interval, b) {
      WindowIsUnion(d, t, interval, b);
    }
    var w := Window(d, t, interval);
    assert w != [] ==> w[0] in w;
  }

  // ----- The sample index

  datatype SampleId = SampleId(doc: nat, token: nat)

  lemma {:induction false} MultipleGap(t: nat, step: nat, r: nat)
    requires step > 0 && Multiple(t, step) && 0 < r < step
    ensures !Multiple(t + r, step)
  {
    if t > 0 {
      MultipleGap(t - step, step, r);
    }
  }

  /** A token whose number is a multiple of `step` and whose window holds some label. */
  ghost predicate IsSample(docs: seq<Doc>, step: nat, interval: nat, s: SampleId)
    requires step > 0 && forall i :: 0 <= i < |docs| ==> WellFormed(docs[i])
  {
    && s.doc < |docs| && s.token < docs[s.doc].Tokens()
    && s.token % step == 0 && exists b: nat :: InWindow(docs[s.doc], s.token, interval, b)
  }

  /** The same, as the loop finds it. */
  ghost predicate Strided(docs: seq<Doc>, step: nat, interval: nat, s: SampleId)
    requires step > 0 && forall i :: 0 <= i < |docs| ==> WellFormed(docs[i])
  {
    && s.doc < |docs| && s.token < docs[s.doc].Tokens()
    && Multiple(s.token, step) && Window(docs[s.doc], s.token, interval) != []
  }

  lemma StridedIsSample(docs: seq<Doc>, step: nat, interval: nat, s: SampleId)
    requires step > 0 && forall i :: 0 <= i < |docs| ==> WellFormed(docs[i])
    ensures Strided(docs, step, interval, s) <==> IsSample(docs, step, interval, s)
  {
    if s.doc < |docs| && s.token < docs[s.doc].Tokens() {
      MultipleIs(s.token, step);
      WindowMembers(docs[s.doc], s.token, interval);
    }
  }

  ghost predicate Before(a: SampleId, b: SampleId) {
    a.doc < b.doc || (a.doc == b.doc && a.token < b.token)
  }

  ghost predicate InOrder(s: seq<SampleId>) {
    forall i, j :: 0 <= i < j < |s| ==> Before(s[i], s[j])
  }

  /** The index lists exactly the samples before (doc, token), in order. */
  ghost predicate IndexUpTo(docs: seq<Doc>, step: nat, interval: nat, samples: seq<SampleId>, bound: SampleId)
    requires step > 0 && forall i :: 0 <= i < |docs| ==> WellFormed(docs[i])
  {
    && InOrder(samples)
    && forall s :: s in samples <==> Strided(docs, step, interval, s) && Before(s, bound)
  }

  /** Strided tokens with a nonempty window, document by document. */
  method BuildSamples(docs: seq<Doc>, step: nat, interval: nat) returns (samples: seq<SampleId>)
    requires step > 0 && forall i :: 0 <= i < |docs| ==> WellFormed(docs[i])
    ensures InOrder(samples)
    ensures forall s :: s in samples <==> IsSample(docs, step, interval, s)
  {
    samples := [];
    for i := 0 to |docs|
      invariant IndexUpTo(docs, step, interval, samples, SampleId(i, 0))
    {
      samples := AddDoc(docs, step, interval, samples, i);
    }
    forall s ensures s in samples <==> IsSample(docs, step, interval, s) {
      StridedIsSample(docs, step, interval, s);
      assert Strided(docs, step, interval, s) ==> Before(s, SampleId(|docs|, 0));
    }
  }

  method AddDoc(docs: seq<Doc>, step: nat, interval: nat, before: seq<SampleId>, i: nat) returns (samples: seq<SampleId>)
    requires step > 0 && (forall k :: 0 <= k < |docs| ==> WellFormed(docs[k])) && i < |docs|
    requires IndexUpTo(docs, step, interval, before, SampleId(i, 0))
    ensures IndexUpTo(docs, step, interval, samples, SampleId(i + 1, 0))
  {
    samples := before;
    var t := 0;
    while t < docs[i].Tokens()
      invariant Multiple(t, step)
      invariant IndexUpTo(docs, step, interval, samples, SampleId(i, t))
      decreases docs[i].Tokens() - t
    {
      AddToken(docs, step, interval, samples, i, t);
      var flat := Window(docs[i], t, interval);
      if |flat| > 0 {
        samples := samples + [SampleId(i, t)];
      }
      t := t + step;
    }
    DocDone(docs, step, interval, samples, i, t);
  }

  lemma AddToken(docs: seq<Doc>, step: nat, interval: nat, samples: seq<SampleId>, i: nat, t: nat)
    requires step > 0 && (forall k :: 0 <= k < |docs| ==> WellFormed(docs[k])) && i < |docs| && t < docs[i].Tokens()
    requires Multiple(t, step) && IndexUpTo(docs, step, interval, samples, SampleId(i, t))
    ensures var more := if Window(docs[i], t, interval) != [] then samples + [SampleId(i, t)] else samples;
            IndexUpTo(docs, step, interval, more, SampleId(i, t + step))
  {
    var x := SampleId(i, t);
    var more := if Window(docs[i], t, interval) != [] then samples + [x] else samples;
    assert forall k :: 0 <= k < |samples| ==> samples[k] in samples;
    assert InOrder(more);
    forall s ensures s in more <==> Strided(docs, step, interval, s) && Before(s, SampleId(i, t + step)) {
      NextSample(docs, step, interval, i, t, s);
      assert s in more <==> s in samples || (s == x && Window(docs[i], t, interval) != []);
    }
  }

  lemma NextSample(docs: seq<Doc>, step: nat, interval: nat, i: nat, t: nat, s: SampleId)
    requires step > 0 && (forall k :: 0 <= k < |docs| ==> WellFormed(docs[k])) && i < |docs| && t < docs[i].Tokens()
    requires Multiple(t, step)
    ensures Strided(docs, step, interval, s) && Before(s, SampleId(i, t + step)) <==>
              || (Strided(docs, step, interval, s) && Before(s, SampleId(i, t)))
              || (s == SampleId(i, t) && Window(docs[i], t, interval) != [])
  {
    if s.doc == i && t < s.token < t + step {
      MultipleGap(t, step, s.token - t);
    }
  }

  lemma DocDone(docs: seq<Doc>, step: nat, interval: nat, samples: seq<SampleId>, i: nat, t: nat)
    requires step > 0 && (forall k :: 0 <= k < |docs| ==> WellFormed(docs[k])) && i < |docs| && t >= docs[i].Tokens()
    requires IndexUpTo(docs, step, interval, samples, SampleId(i, t))
    ensures IndexUpTo(docs, step, interval, samples, SampleId(i + 1, 0))
  {
    forall s | Strided(docs, step, interval, s) ensures Before(s, SampleId(i, t)) <==> Before(s, SampleId(i + 1, 0)) {
    }
  }

  // ----- Library functions on block numbers

  function InsertOnce(s: seq<nat>, b: nat): (r: seq<nat>)
    requires Ascending(s)
    ensures Ascending(r) && forall x :: x in r <==> x in s || x == b
  {
    if s == [] then [b]
    else if b < s[0] then [b] + s
    else if b == s[0] then s
    else
      AscendingTail(s);
      var r := InsertOnce(s[1..], b);
      AscendingCons(s[0], r);
      [s[0]] + r
  }

  lemma AscendingTail(s: seq<nat>)
    requires Ascending(s) && s != []
    ensures Ascending(s[1..]) && s == [s[0]] + s[1..] && forall x :: x in s[1..] ==> s[0] < x
  {
    assert forall k :: 0 <= k < |s[1..]| ==> s[1..][k] == s[k + 1];
  }

  lemma AscendingCons(head: nat, rest: seq<nat>)
    requires Ascending(rest) && forall x :: x in rest ==> head < x
    ensures Ascending([head] + rest)
  {
    assert forall k :: 0 <= k < |rest| ==> rest[k] in rest;
  }

  /** np.unique: the different values in ascending order. */
  function Unique(s: seq<nat>): (r: seq<nat>)
    ensures Ascending(r) && forall x :: x in r <==> x in s
  {
    if s == [] then []
    else
      assert s == s[..|s| - 1] + [s[|s| - 1]];
      InsertOnce(Unique(s[..|s| - 1]), s[|s| - 1])
  }

  /** `s[s < n]`. */
  function Below(s: seq<nat>, n: nat): (r: seq<nat>)
    requires Ascending(s)
    ensures Ascending(r) && forall x :: x in r <==> x in s && x < n
  {
    if s == [] then []
    else
      var k := |s| - 1;
      assert s == s[..k] + [s[k]];
      var r := Below(s[..k], n);
      assert forall i :: 0 <= i < |r| ==> r[i] in s[..k];
      if s[k] < n then r + [s[k]] else r
  }

  /** np.setdiff1d(np.arange(n), s). */
  function Others(n: nat, s: seq<nat>): (r: seq<nat>)
    ensures Ascending(r) && forall x: nat :: x in r <==> x < n && x !in s
  {
    if n == 0 then []
    else
      var r := Others(n - 1, s);
      assert forall i :: 0 <= i < |r| ==> r[i] in r;
      if n - 1 in s then r else r + [n - 1]
  }

  /** rng.choice(pool, k, replace=False): some `k` different members. */
  type Chooser = (seq<nat>, nat) -> seq<nat>

  ghost predicate IsChoice(r: seq<nat>, pool: seq<nat>, k: nat) {
    |r| == k && Distinct(r) && forall i :: 0 <= i < |r| ==> r[i] in pool
  }

  ghost predicate Chooses(choose: Chooser) {
    forall pool: seq<nat>, k: nat :: Distinct(pool) && k <= |pool| ==> IsChoice(choose(pool, k), pool, k)
  }

  function Choose(choose: Chooser, pool: seq<nat>, k: nat): (r: seq<nat>)
    requires Chooses(choose) && Ascending(pool) && k <= |pool|
    ensures IsChoice(r, pool, k)
  {
    assert Distinct(pool);
    choose(pool, k)
  }

  /** How many numbers below `n` are listed. */
  function BelowCount(s: seq<nat>, n: nat): nat {
    if n == 0 then 0 else BelowCount(s, n - 1) + (if n - 1 in s then 1 else 0)
  }

  lemma {:induction false} OthersCount(n: nat, s: seq<nat>)
    ensures |Others(n, s)| + BelowCount(s, n) == n
  {
    if n > 0 {
      OthersCount(n - 1, s);
      var r := Others(n - 1, s);
      assert Others(n, s) == if n - 1 in s then r else r + [n - 1];
    }
  }

  lemma {:induction false} CountIgnores(s: seq<nat>, t: seq<nat>, n: nat)
    requires forall x: nat :: x < n ==> (x in s <==> x in t)
    ensures BelowCount(s, n) == BelowCount(t, n)
  {
    if n > 0 {
      CountIgnores(s, t, n - 1);
    }
  }

  lemma {:induction false} CountNone(n: nat)
    ensures BelowCount([], n) == 0
  {
    if n > 0 {
      CountNone(n - 1);
    }
  }

  /** An ascending list of numbers below `n` is counted in full. */
  lemma {:induction false} CountAll(s: seq<nat>, n: nat)
    requires Ascending(s) && forall x :: x in s ==> x < n
    ensures BelowCount(s, n) == |s|
    decreases n
  {
    if s == [] {
      CountNone(n);
    } else if n - 1 in s {
      var t := s[..|s| - 1];
      LastIsLargest(s, n - 1);
      assert s == t + [n - 1];
      assert forall i :: 0 <= i < |t| ==> t[i] < s[|s| - 1];
      CountIgnores(s, t, n - 1);
      CountAll(t, n - 1);
    } else {
      assert s[0] in s;
      CountAll(s, n - 1);
    }
  }

  /** A list and its complement below n have n members together. */
  lemma SplitCount(n: nat, s: seq<nat>)
    requires Ascending(s) && forall x :: x in s ==> x < n
    ensures |Others(n, s)| + |s| == n
  {
    OthersCount(n, s);
    CountAll(s, n);
  }

  lemma LastIsLargest(s: seq<nat>, m: nat)
    requires Ascending(s) && m in s && forall x :: x in s ==> x <= m
    ensures s[|s| - 1] == m
  {
    var i :| 0 <= i < |s| && s[i] == m;
    assert s[|s| - 1] in s;
  }

  // ----- Choosing positives and negatives

  datatype Picked = Picked(pos: seq<nat>, neg: seq<nat>, labels: seq<real>)

  function Min(a: int, b: int): int {
    if a <= b then a else b
  }

  /** An in-range block labelled in the window, or the drawn block when there is no such block. */
  ghost predicate IsPositive(d: Doc, t: nat, interval: nat, pseudo: nat, b: nat)
    requires WellFormed(d)
  {
    if exists x: nat :: x < d.nBlocks && InWindow(d, t, interval, x) then b < d.nBlocks && InWindow(d, t, interval, b)
    else b == pseudo
  }

  lemma PositivesAre(d: Doc, t: nat, interval: nat, pseudo: nat)
    requires WellFormed(d) && t < d.Tokens() && pseudo < d.nBlocks
    ensures var p := Below(Unique(Window(d, t, interval)), d.nBlocks);
            forall x :: IsPositive(d, t, interval, pseudo, x) <==> x in if p == [] then [pseudo] else p
  {
    var p := Below(Unique(Window(d, t, interval)), d.nBlocks);
    WindowMembers(d, t, interval);
    assert forall x: nat :: x in p <==> x < d.nBlocks && InWindow(d, t, interval, x);
    assert p != [] ==> p[0] in p;
  }

  /** The in-range labels of the window, or one arbitrary block when there are none. */
  function PosAll(d: Doc, t: nat, interval: nat, pseudo: nat): (p: seq<nat>)
    requires WellFormed(d) && t < d.Tokens() && pseudo < d.nBlocks
    ensures Ascending(p) && p != [] && forall x :: x in p <==> IsPositive(d, t, interval, pseudo, x)
  {
    var p := Below(Unique(Window(d, t, interval)), d.nBlocks);
    PositivesAre(d, t, interval, pseudo);
    if p == [] then [pseudo] else p
  }

  /** What a returned sample promises about its block numbers. */
  ghost predicate PickedOk(d: Doc, posAll: seq<nat>, maxPos: nat, negRatio: nat, r: Picked) {
    && Distinct(r.pos + r.neg)
    && (forall x :: x in r.pos ==> x in posAll && x < d.nBlocks)
    && (forall x :: x in r.neg ==> x !in posAll && x < d.nBlocks)
    && |r.pos| == Min(|posAll|, maxPos)
    && |r.neg| == Min(|r.pos| * negRatio, d.nBlocks - |posAll|)
    && (|posAll| <= maxPos ==> r.pos == posAll)
    && r.labels == seq(|r.pos|, _ => 1.0) + seq(|r.neg|, _ => 0.0)
  }

  /** `__getitem__`, block selection. `pseudo` is the draw for a window without in-range labels; the two
      choosers stand for rng.choice. It fails exactly for a document without blocks. */
  method PickBlocks(d: Doc, t: nat, interval: nat, maxPos: nat, negRatio: nat,
                    pseudo: nat, choosePos: Chooser, chooseNeg: Chooser) returns (r: Result<Picked>)
    requires WellFormed(d) && t < d.Tokens() && (d.nBlocks > 0 ==> pseudo < d.nBlocks)
    requires Chooses(choosePos) && Chooses(chooseNeg)
    ensures r.Err? <==> d.nBlocks == 0
    ensures r.Ok? ==> PickedOk(d, PosAll(d, t, interval, pseudo), maxPos, negRatio, r.value)
    ensures r.Ok? ==> forall x :: x in r.value.pos ==> IsPositive(d, t, interval, pseudo, x)
    ensures r.Ok? ==> forall x :: x in r.value.neg ==> x < d.nBlocks && !IsPositive(d, t, interval, pseudo, x)
  {
    var posAll := Below(Unique(Window(d, t, interval)), d.nBlocks);
    if posAll == [] {
      if d.nBlocks == 0 {
        return Err;
      }
      posAll := [pseudo];
    }
    assert posAll == PosAll(d, t, interval, pseudo) by {
      assert posAll[0] in posAll;
    }
    var picked := PickFrom(d, posAll, maxPos, negRatio, choosePos, chooseNeg);
    r := Ok(picked);
  }

  method PickFrom(d: Doc, posAll: seq<nat>, maxPos: nat, negRatio: nat, choosePos: Chooser, chooseNeg: Chooser)
    returns (r: Picked)
    requires Ascending(posAll) && (forall x :: x in posAll ==> x < d.nBlocks)
    requires Chooses(choosePos) && Chooses(chooseNeg)
    ensures PickedOk(d, posAll, maxPos, negRatio, r)
  {
    var pos := if |posAll| > maxPos then Choose(choosePos, posAll, maxPos) else posAll;
    var pool := Others(d.nBlocks, posAll);
    var wanted := |pos| * negRatio;
    var neg := Choose(chooseNeg, pool, Min(wanted, |pool|));
    r := Picked(pos, neg, seq(|pos|, _ => 1.0) + seq(|neg|, _ => 0.0));
    PickIsOk(d, posAll, maxPos, negRatio, wanted, pos, neg, r.labels);
  }

  lemma PickIsOk(d: Doc, posAll: seq<nat>, maxPos: nat, negRatio: nat, wanted: nat,
                 pos: seq<nat>, neg: seq<nat>, labels: seq<real>)
    requires Ascending(posAll) && forall x :: x in posAll ==> x < d.nBlocks
    requires wanted == |pos| * negRatio
    requires if |posAll| > maxPos then IsChoice(pos, posAll, maxPos) else pos == posAll
    requires IsChoice(neg, Others(d.nBlocks, posAll), Min(wanted, |Others(d.nBlocks, posAll)|))
    requires labels == seq(|pos|, _ => 1.0) + seq(|neg|, _ => 0.0)
    ensures PickedOk(d, posAll, maxPos, negRatio, Picked(pos, neg, labels))
  {
    SplitCount(d.nBlocks, posAll);
    Disjoint(d, posAll, pos, Others(d.nBlocks, posAll), neg, maxPos);
  }

  lemma Disjoint(d: Doc, posAll: seq<nat>, pos: seq<nat>, pool: seq<nat>, neg: seq<nat>, maxPos: nat)
    requires Ascending(posAll) && pool == Others(d.nBlocks, posAll) && forall x :: x in posAll ==> x < d.nBlocks
    requires IsChoice(neg, pool, |neg|)
    requires if |posAll| > maxPos then IsChoice(pos, posAll, maxPos) else pos == posAll
    ensures Distinct(pos + neg)
    ensures forall x :: x in pos ==> x in posAll && x < d.nBlocks
    ensures forall x :: x in neg ==> x !in posAll && x < d.nBlocks
  {
    assert Distinct(pos);
    assert forall i :: 0 <= i < |pos| ==> pos[i] in posAll;
    var all := pos + neg;
    forall i, j | 0 <= i < j < |all| ensures all[i] != all[j] {
      if i < |pos| <= j {
        assert pos[i] in posAll && neg[j - |pos|] in pool;
      }
    }
  }

  /** The positives are the true ones whenever the window has any in range; otherwise the sample holds
      the single drawn block, which the labels do not support. */
  lemma PosAllMeans(d: Doc, t: nat, interval: nat, pseudo: nat, b: nat)
    requires WellFormed(d) && t < d.Tokens() && pseudo < d.nBlocks
    ensures var labelled := exists x: nat, u: nat :: t <= u < t + interval && u < d.Tokens() && LabelledAt(d, u, x) && x < d.nBlocks;
            b in PosAll(d, t, interval, pseudo) <==>
              if labelled then b < d.nBlocks && exists u: nat :: t <= u < t + interval && u < d.Tokens() && LabelledAt(d, u, b)
              else b == pseudo
  {
    forall x: nat, u: nat | t <= u < t + interval && u < d.Tokens() && LabelledAt(d, u, x) ensures InWindow(d, t, interval, x) {
    }
  }

  // ----- Block frequencies

  function Get(m: map<nat, nat>, b: nat): nat {
    if b in m then m[b] else 0
  }

  /** The share of label entries per token that name block `b`. */
  function Frequency(d: Doc, b: nat): real
    requires WellFormed(d) && d.Tokens() > 0
  {
    multiset(Slice(d, 0, d.Tokens()))[b] as real / d.Tokens() as real
  }

  /** Counting the label entries, token by token, then dividing by the number of tokens. */
  method BlockFreq(d: Doc) returns (freq: map<nat, real>)
    requires WellFormed(d)
    ensures forall b: nat :: b in freq <==> b in Slice(d, 0, d.Tokens())
    ensures d.Tokens() > 0 ==> forall b: nat :: b in freq ==> freq[b] == Frequency(d, b)
  {
    var counts := CountLabels(d);
    var n := d.Tokens();
    if n == 0 {
      return map[];
    }
    freq := map b | b in counts :: counts[b] as real / n as real;
    forall b: nat | b in freq ensures freq[b] == Frequency(d, b) {
      CountMember(Slice(d, 0, n), b);
      assert Get(counts, b) == Count(Slice(d, 0, n), b);
    }
  }

  method CountLabels(d: Doc) returns (counts: map<nat, nat>)
    requires WellFormed(d)
    ensures Counts(counts, Slice(d, 0, d.Tokens()))
  {
    counts := map[];
    for t := 0 to d.Tokens()
      invariant Counts(counts, Rows(d, 0, t))
    {
      var row := Row(d, t);
      ghost var before := Rows(d, 0, t);
      assert before + row[..0] == before;
      for i := 0 to |row|
        invariant Counts(counts, before + row[..i])
      {
        var b := row[i];
        CountsNext(counts, before + row[..i], b);
        assert before + row[..i + 1] == before + row[..i] + [b];
        counts := counts[b := (if b in counts then counts[b] else 0) + 1];
      }
      assert row[..|row|] == row;
    }
    SliceIsRows(d, 0, d.Tokens());
  }

  ghost predicate Counts(freq: map<nat, nat>, s: seq<nat>) {
    && (forall b: nat :: Get(freq, b) == Count(s, b))
    && (forall b: nat :: b in freq <==> b in s)
  }

  lemma CountsNext(freq: map<nat, nat>, s: seq<nat>, b: nat)
    requires Counts(freq, s)
    ensures Counts(freq[b := (if b in freq then freq[b] else 0) + 1], s + [b])
  {
    var next := freq[b := (if b in freq then freq[b] else 0) + 1];
    assert (s + [b])[..|s|] == s;
    forall x: nat ensures Get(next, x) == Count(s + [b], x) {
      assert Get(freq, x) == Count(s, x);
    }
  }

  /** How many of the first `n` tokens are labelled with block `b`. */
  function TokensWith(d: Doc, b: nat, n: nat): nat
    requires WellFormed(d) && n <= d.Tokens()
  {
    if n == 0 then 0 else TokensWith(d, b, n - 1) + (if b in Row(d, n - 1) then 1 else 0)
  }

  ghost function TokensNaming(d: Doc, b: nat, n: nat): set<nat>
    requires WellFormed(d) && n <= d.Tokens()
  {
    set t: nat | t < n && b in Row(d, t)
  }

  lemma {:induction false} TokensWithIs(d: Doc, b: nat, n: nat)
    requires WellFormed(d) && n <= d.Tokens()
    ensures TokensWith(d, b, n) == |TokensNaming(d, b, n)|
  {
    if n > 0 {
      TokensWithIs(d, b, n - 1);
      OneMore(TokensNaming(d, b, n - 1), TokensNaming(d, b, n), n - 1, b in Row(d, n - 1));
    }
  }

  /** The share of tokens labelled with block `b`. */
  ghost function Share(d: Doc, b: nat): real
    requires WellFormed(d) && d.Tokens() > 0
  {
    |TokensNaming(d, b, d.Tokens())| as real / d.Tokens() as real
  }

  lemma {:induction false} DistinctOnce(s: seq<nat>, b: nat)
    requires Distinct(s)
    ensures Count(s, b) <= 1
  {
    if s != [] {
      var k := |s| - 1;
      DistinctOnce(s[..k], b);
      CountMember(s[..k], s[k]);
      assert s[k] !in s[..k];
    }
  }

  lemma {:induction false} RepeatedTwice(s: seq<nat>) returns (b: nat)
    requires !Distinct(s)
    ensures Count(s, b) > 1
  {
    var k := |s| - 1;
    if Distinct(s[..k]) {
      b := s[k];
      CountMember(s[..k], b);
      assert b in s[..k];
    } else {
      b := RepeatedTwice(s[..k]);
    }
  }

  /** A list repeats nothing exactly if it counts nothing twice. */
  lemma DistinctIsOnce(s: seq<nat>)
    ensures Distinct(s) <==> forall b: nat :: Count(s, b) <= 1
  {
    if Distinct(s) {
      forall b: nat ensures Count(s, b) <= 1 {
        DistinctOnce(s, b);
      }
    } else {
      var b := RepeatedTwice(s);
    }
  }

  /** Entries are at least as many as the tokens they label, and as many only if no row repeats the block. */
  lemma {:induction false} EntriesAndTokens(d: Doc, b: nat, n: nat)
    requires WellFormed(d) && n <= d.Tokens()
    ensures Count(Rows(d, 0, n), b) >= TokensWith(d, b, n)
    ensures Count(Rows(d, 0, n), b) == TokensWith(d, b, n) <==> forall t: nat :: t < n ==> Count(Row(d, t), b) <= 1
  {
    if n > 0 {
      EntriesAndTokens(d, b, n - 1);
      CountAppend(Rows(d, 0, n - 1), Row(d, n - 1), b);
      CountMember(Row(d, n - 1), b);
    }
  }

  lemma SameShare(x: nat, y: nat, n: nat)
    requires n > 0
    ensures x as real / n as real == y as real / n as real <==> x == y
  {
  }

  /** The frequency of every block is the share of tokens labelled with it if and only if no token's row
      repeats a block. */
  lemma FrequencyIsShare(d: Doc)
    requires WellFormed(d) && d.Tokens() > 0
    ensures (forall b: nat :: Frequency(d, b) == Share(d, b)) <==> (forall t: nat :: t < d.Tokens() ==> Distinct(Row(d, t)))
  {
    var n := d.Tokens();
    SliceIsRows(d, 0, n);
    forall b: nat
      ensures Frequency(d, b) == Share(d, b) <==> forall t: nat :: t < n ==> Count(Row(d, t), b) <= 1
    {
      EntriesAndTokens(d, b, n);
      TokensWithIs(d, b, n);
      CountMember(Rows(d, 0, n), b);
      SameShare(Count(Rows(d, 0, n), b), TokensWith(d, b, n), n);
    }
    forall t: nat | t < n ensures Distinct(Row(d, t)) <==> forall b: nat :: Count(Row(d, t), b) <= 1 {
      DistinctIsOnce(Row(d, t));
    }
    if forall b: nat :: Frequency(d, b) == Share(d, b) {
      forall t: nat, b: nat | t < n ensures Count(Row(d, t), b) <= 1 {
        assert Frequency(d, b) == Share(d, b);
      }
    }
  }

  /** One token labelled twice with the same block: frequency 2, though its share is 1. */
  lemma FrequencyCanExceedShare()
    ensures var d := Doc([0, 2], [0, 0], 1);
            WellFormed(d) && d.Tokens() == 1 && Frequency(d, 0) == 2.0 && Share(d, 0) == 1.0
  {
    var d := Doc([0, 2], [0, 0], 1);
    var row := Slice(d, 0, 1);
    assert row == [0, 0] && row[..1] == [0] && [0][..0] == [];
    assert TokensNaming(d, 0, 1) == {0};
  }
}
