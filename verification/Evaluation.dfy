/** Full-set evaluation (training/eval.py, `evaluate_full_spec` and `evaluate_full_spec_ensemble`):
    aggregation of layer scores, threshold counts, and recall@K. */
module Evaluation {
  import Labels

  import opened Arith
  import opened Lists

  function Larger(a: real, b: real): real {
    if a >= b then a else b
  }

  function Smaller(a: real, b: real): real {
    if a <= b then a else b
  }

  // ----- Aggregating the layers

  /** Scores by layer, token and block. */
  type Scores = seq<seq<seq<real>>>

  ghost predicate Shaped(scores: Scores, tokens: nat, blocks: nat) {
    forall l :: 0 <= l < |scores| ==> LayerShaped(scores[l], tokens, blocks)
  }

  ghost predicate LayerShaped(layer: seq<seq<real>>, tokens: nat, blocks: nat) {
    |layer| == tokens && forall i :: 0 <= i < tokens ==> |layer[i]| == blocks
  }

  /** The scores of one token and block in all layers. */
  function Cell(scores: Scores, i: nat, b: nat): (c: seq<real>)
    requires forall l :: 0 <= l < |scores| ==> i < |scores[l]| && b < |scores[l][i]|
    ensures |c| == |scores| && forall l :: 0 <= l < |scores| ==> c[l] == scores[l][i][b]
  {
    seq(|scores|, l requires 0 <= l < |scores| => scores[l][i][b])
  }

  /** The maximum of zero and the listed scores. */
  function RunningMax(cell: seq<real>): (m: real)
    ensures m >= 0.0 && (m == 0.0 || m in cell) && forall i :: 0 <= i < |cell| ==> cell[i] <= m
  {
    if cell == [] then 0.0 else Larger(RunningMax(cell[..|cell| - 1]), cell[|cell| - 1])
  }

  function MinOf(cell: seq<real>): (m: real)
    requires cell != []
    ensures m in cell && forall i :: 0 <= i < |cell| ==> m <= cell[i]
  {
    if |cell| == 1 then cell[0] else Smaller(MinOf(cell[..|cell| - 1]), cell[|cell| - 1])
  }

  function Sum(cell: seq<real>): real {
    if cell == [] then 0.0 else Sum(cell[..|cell| - 1]) + cell[|cell| - 1]
  }

  /** One layer, batch by batch: `agg[s:s+B] = maximum(agg[s:s+B], scores)`. */
  method AccumulateLayer(agg: array2<real>, layer: seq<seq<real>>, batchSize: nat)
    requires batchSize > 0 && LayerShaped(layer, agg.Length0, agg.Length1)
    modifies agg
    ensures forall i: nat, b: nat :: i < agg.Length0 && b < agg.Length1 ==> agg[i, b] == Larger(old(agg[i, b]), layer[i][b])
  {
    var start := 0;
    while start < agg.Length0
      invariant 0 <= start
      invariant forall i: nat, b: nat :: i < agg.Length0 && b < agg.Length1 ==>
        agg[i, b] == if i < start then Larger(old(agg[i, b]), layer[i][b]) else old(agg[i, b])
      decreases agg.Length0 - start
    {
      var end := if start + batchSize <= agg.Length0 then start + batchSize else agg.Length0;
      forall i, b | start <= i < end && 0 <= b < agg.Length1 {
        agg[i, b] := Larger(agg[i, b], layer[i][b]);
      }
      start := start + batchSize;
    }
  }

  lemma CellNext(scores: Scores, l: nat, i: nat, b: nat)
    requires l < |scores| && forall k :: 0 <= k < |scores| ==> i < |scores[k]| && b < |scores[k][i]|
    ensures Larger(RunningMax(Cell(scores[..l], i, b)), scores[l][i][b]) == RunningMax(Cell(scores[..l + 1], i, b))
  {
    assert Cell(scores[..l + 1], i, b)[..l] == Cell(scores[..l], i, b);
  }

  /** The accumulated matrix is, for every batch size, the pointwise maximum of zero and the layers. */
  method Aggregate(scores: Scores, tokens: nat, blocks: nat, batchSize: nat) returns (agg: array2<real>)
    requires batchSize > 0 && Shaped(scores, tokens, blocks)
    ensures agg.Length0 == tokens && agg.Length1 == blocks
    ensures forall i: nat, b: nat :: i < tokens && b < blocks ==> agg[i, b] == RunningMax(Cell(scores, i, b))
  {
    agg := new real[tokens, blocks]((_, _) => 0.0);
    for l := 0 to |scores|
      invariant forall i: nat, b: nat :: i < tokens && b < blocks ==> agg[i, b] == RunningMax(Cell(scores[..l], i, b))
    {
      AccumulateLayer(agg, scores[l], batchSize);
      forall i: nat, b: nat | i < tokens && b < blocks
        ensures Larger(RunningMax(Cell(scores[..l], i, b)), scores[l][i][b]) == RunningMax(Cell(scores[..l + 1], i, b))
      {
        CellNext(scores, l, i, b);
      }
    }
    assert scores[..|scores|] == scores;
  }

  ghost predicate IsMaximum(cell: seq<real>, m: real) {
    m in cell && forall i :: 0 <= i < |cell| ==> cell[i] <= m
  }

  /** For scores that are not negative (sigmoid outputs) the accumulated value is the layers' maximum. */
  lemma {:induction false} RunningMaxIsMaximum(cell: seq<real>)
    requires cell != [] && forall i :: 0 <= i < |cell| ==> cell[i] >= 0.0
    ensures IsMaximum(cell, RunningMax(cell))
  {
    var k := |cell| - 1;
    assert cell == cell[..k] + [cell[k]];
    if k > 0 {
      RunningMaxIsMaximum(cell[..k]);
    }
  }

  const THRESHOLD := 0.5

  /** Thresholding the maximum is the union of the layers' predictions. */
  lemma {:induction false} MaxIsUnion(cell: seq<real>)
    ensures RunningMax(cell) >= THRESHOLD <==> exists i :: 0 <= i < |cell| && cell[i] >= THRESHOLD
  {
    if cell != [] {
      var k := |cell| - 1;
      MaxIsUnion(cell[..k]);
      if i :| 0 <= i < k && cell[..k][i] >= THRESHOLD {
        assert cell[i] >= THRESHOLD;
      }
      if i :| 0 <= i < |cell| && cell[i] >= THRESHOLD {
        assert i < k ==> cell[..k][i] >= THRESHOLD;
      }
    }
  }

  /** Thresholding the minimum is their intersection. */
  lemma {:induction false} MinIsIntersection(cell: seq<real>)
    requires cell != []
    ensures MinOf(cell) >= THRESHOLD <==> forall i :: 0 <= i < |cell| ==> cell[i] >= THRESHOLD
  {
    var k := |cell| - 1;
    if k > 0 {
      MinIsIntersection(cell[..k]);
      assert forall i :: 0 <= i < k ==> cell[..k][i] == cell[i];
    }
  }

  /** The sum over layers is what adding up means: one score is itself, and parts add up to the whole. */
  lemma {:induction false} SumAddsUp(a: seq<real>, b: seq<real>, x: real)
    ensures Sum(a + b) == Sum(a) + Sum(b) && Sum([x]) == x
  {
    if b == [] {
      assert a + b == a && [x][..0] == [];
    } else {
      var k := |b| - 1;
      SumAddsUp(a, b[..k], x);
      assert (a + b)[..|a| + k] == a + b[..k];
    }
  }

  /** The mean ensemble predicts at least what all layers predict and at most what some layer predicts. */
  lemma MeanBetween(cell: seq<real>)
    requires cell != []
    ensures MinOf(cell) >= THRESHOLD ==> Sum(cell) / |cell| as real >= THRESHOLD
    ensures Sum(cell) / |cell| as real >= THRESHOLD ==> exists i :: 0 <= i < |cell| && cell[i] >= THRESHOLD
  {
    MinIsIntersection(cell);
    var n := |cell| as real;
    if MinOf(cell) >= THRESHOLD {
      SumAtLeast(cell);
      DivideBound(Sum(cell), n);
    }
    if forall i :: 0 <= i < |cell| ==> cell[i] < THRESHOLD {
      SumBelow(cell);
      DivideBound(Sum(cell), n);
    }
  }

  lemma {:induction false} SumAtLeast(cell: seq<real>)
    requires forall i :: 0 <= i < |cell| ==> cell[i] >= THRESHOLD
    ensures 2.0 * Sum(cell) >= |cell| as real
  {
    if cell != [] {
      SumAtLeast(cell[..|cell| - 1]);
    }
  }

  lemma {:induction false} SumBelow(cell: seq<real>)
    requires cell != [] && forall i :: 0 <= i < |cell| ==> cell[i] < THRESHOLD
    ensures 2.0 * Sum(cell) < |cell| as real
  {
    var k := |cell| - 1;
    if k > 0 {
      SumBelow(cell[..k]);
    } else {
      assert cell[..0] == [];
    }
  }

  lemma DivideBound(x: real, n: real)
    requires n > 0.0
    ensures 2.0 * x >= n <==> x / n >= THRESHOLD
  {
    var q := x / n;
    assert q * n == x;
  }

  // ----- Threshold counts

  /** Among the first `n` blocks: predicted and positive, predicted only, positive only. */
  function Tp(score: seq<real>, pos: seq<nat>, n: nat): nat
    requires n <= |score|
  {
    if n == 0 then 0 else Tp(score, pos, n - 1) + One(score[n - 1] >= THRESHOLD && n - 1 in pos)
  }

  function Fp(score: seq<real>, pos: seq<nat>, n: nat): nat
    requires n <= |score|
  {
    if n == 0 then 0 else Fp(score, pos, n - 1) + One(score[n - 1] >= THRESHOLD && n - 1 !in pos)
  }

  function Fn(score: seq<real>, pos: seq<nat>, n: nat): nat
    requires n <= |score|
  {
    if n == 0 then 0 else Fn(score, pos, n - 1) + One(score[n - 1] < THRESHOLD && n - 1 in pos)
  }

  function Predicted(score: seq<real>, n: nat): nat
    requires n <= |score|
  {
    if n == 0 then 0 else Predicted(score, n - 1) + One(score[n - 1] >= THRESHOLD)
  }

  // The blocks behind the three counts.

  ghost function TpBlocks(score: seq<real>, pos: seq<nat>, n: nat): set<nat>
    requires n <= |score|
  {
    set b: nat | b < n && score[b] >= THRESHOLD && b in pos
  }

  ghost function FpBlocks(score: seq<real>, pos: seq<nat>, n: nat): set<nat>
    requires n <= |score|
  {
    set b: nat | b < n && score[b] >= THRESHOLD && b !in pos
  }

  ghost function FnBlocks(score: seq<real>, pos: seq<nat>, n: nat): set<nat>
    requires n <= |score|
  {
    set b: nat | b < n && score[b] < THRESHOLD && b in pos
  }

  /** Each block is counted once, in the right place. */
  lemma {:induction false} CountsAre(score: seq<real>, pos: seq<nat>, n: nat)
    requires n <= |score|
    ensures Tp(score, pos, n) == |set b: nat | b < n && score[b] >= 0.5 && b in pos|
    ensures Fp(score, pos, n) == |set b: nat | b < n && score[b] >= 0.5 && b !in pos|
    ensures Fn(score, pos, n) == |set b: nat | b < n && score[b] < 0.5 && b in pos|
  {
    if n > 0 {
      CountsAre(score, pos, n - 1);
      var k := n - 1;
      var high, member := score[k] >= THRESHOLD, k in pos;
      OneMore(TpBlocks(score, pos, k), TpBlocks(score, pos, n), k, high && member);
      OneMore(FpBlocks(score, pos, k), FpBlocks(score, pos, n), k, high && !member);
      OneMore(FnBlocks(score, pos, k), FnBlocks(score, pos, n), k, !high && member);
    }
  }

  lemma {:induction false} CountsSplit(score: seq<real>, pos: seq<nat>, n: nat)
    requires n <= |score|
    ensures Tp(score, pos, n) + Fn(score, pos, n) == Labels.BelowCount(pos, n)
    ensures Tp(score, pos, n) + Fp(score, pos, n) == Predicted(score, n)
  {
    if n > 0 {
      CountsSplit(score, pos, n - 1);
    }
  }

  /** True positives and misses add up to the positives of the token. */
  lemma TpFnIsPositives(score: seq<real>, pos: seq<nat>)
    requires Ascending(pos) && forall x :: x in pos ==> x < |score|
    ensures Tp(score, pos, |score|) + Fn(score, pos, |score|) == |pos|
  {
    CountsSplit(score, pos, |score|);
    Labels.CountAll(pos, |score|);
  }

  // ----- recall@K

  /** What np.argpartition followed by np.argsort gives: `m` different blocks with the highest scores, best
      first. Ties may fall either way. */
  ghost predicate IsRanking(score: seq<real>, top: seq<nat>, m: nat) {
    && |top| == m <= |score| && Distinct(top)
    && (forall i :: 0 <= i < m ==> top[i] < |score|)
    && (forall i, j :: 0 <= i < j < m ==> score[top[i]] >= score[top[j]])
    && (forall b: nat, i :: b < |score| && b !in top && 0 <= i < m ==> score[b] <= score[top[i]])
  }

  /** A true top set: no block left out beats one taken. */
  ghost predicate IsTopSet(score: seq<real>, taken: seq<nat>) {
    && Distinct(taken) && (forall i :: 0 <= i < |taken| ==> taken[i] < |score|)
    && forall b: nat, i :: b < |score| && b !in taken && 0 <= i < |taken| ==> score[b] <= score[taken[i]]
  }

  /** Every prefix of the ranking is a true top set of its size, so one partition serves all K. */
  lemma PrefixIsTop(score: seq<real>, top: seq<nat>, m: nat, k: nat)
    requires IsRanking(score, top, m) && k <= m
    ensures IsTopSet(score, top[..k]) && |top[..k]| == k
  {
    var taken := top[..k];
    forall b: nat, i | b < |score| && b !in taken && 0 <= i < k ensures score[b] <= score[taken[i]] {
      if b in top {
        assert top == taken + top[k..];
        var j :| 0 <= j < m - k && top[k..][j] == b;
        assert top[k + j] == b;
      }
    }
  }

  /** The places among the first `m` that hold a positive. */
  ghost function HitPlaces(top: seq<nat>, pos: seq<nat>, m: nat): set<nat> {
    set i: nat | i < m && i < |top| && top[i] in pos
  }

  /** The positives among the listed blocks. */
  ghost function HitBlocks(taken: seq<nat>, pos: seq<nat>): set<nat> {
    set x | x in taken && x in pos
  }

  /** How many of the listed blocks are positive. */
  function Hits(taken: seq<nat>, pos: seq<nat>): nat {
    if taken == [] then 0 else Hits(taken[..|taken| - 1], pos) + One(taken[|taken| - 1] in pos)
  }

  lemma {:induction false} HitsArePlaces(top: seq<nat>, pos: seq<nat>, m: nat)
    requires m <= |top|
    ensures Hits(top[..m], pos) == |HitPlaces(top, pos, m)|
  {
    if m > 0 {
      HitsArePlaces(top, pos, m - 1);
      assert top[..m][..m - 1] == top[..m - 1];
      OneMore(HitPlaces(top, pos, m - 1), HitPlaces(top, pos, m), m - 1, top[m - 1] in pos);
    }
  }

  lemma {:induction false} HitsAreBlocks(taken: seq<nat>, pos: seq<nat>)
    requires Distinct(taken)
    ensures Hits(taken, pos) == |HitBlocks(taken, pos)|
  {
    if taken != [] {
      var k := |taken| - 1;
      HitsAreBlocks(taken[..k], pos);
      assert taken == taken[..k] + [taken[k]];
      OneMore(HitBlocks(taken[..k], pos), HitBlocks(taken, pos), taken[k], taken[k] in pos);
    }
  }

  lemma {:induction false} HitsGrow(top: seq<nat>, pos: seq<nat>, j: nat, k: nat)
    requires j <= k <= |top|
    ensures Hits(top[..j], pos) <= Hits(top[..k], pos)
  {
    if j < k {
      HitsGrow(top, pos, j, k - 1);
      assert top[..k][..k - 1] == top[..k - 1];
    }
  }

  /** Different blocks hit at most every positive once. */
  lemma {:induction false} HitsBounded(taken: seq<nat>, pos: seq<nat>)
    requires Distinct(taken)
    ensures Hits(taken, pos) <= |pos|
    decreases |taken|
  {
    if taken != [] {
      var k := |taken| - 1;
      var x := taken[k];
      if x in pos {
        var i :| 0 <= i < |pos| && pos[i] == x;
        var rest := pos[..i] + pos[i + 1..];
        HitsAvoid(taken[..k], pos, rest, x);
        HitsBounded(taken[..k], rest);
      } else {
        HitsBounded(taken[..k], pos);
      }
    }
  }

  lemma {:induction false} HitsAvoid(taken: seq<nat>, pos: seq<nat>, rest: seq<nat>, x: nat)
    requires x !in taken && forall y :: y != x && y in pos ==> y in rest
    ensures Hits(taken, pos) <= Hits(taken, rest)
    decreases |taken|
  {
    if taken != [] {
      HitsAvoid(taken[..|taken| - 1], pos, rest, x);
    }
  }

  lemma {:induction false} HitsAll(pos: seq<nat>, taken: seq<nat>)
    requires Distinct(pos) && forall x :: x in pos ==> x in taken
    ensures Hits(taken, pos) >= |pos|
    decreases |pos|
  {
    if pos != [] {
      var k := |pos| - 1;
      var x := pos[k];
      assert pos == pos[..k] + [x];
      assert x in pos && forall y :: y in pos[..k] ==> y in pos;
      HitsAll(pos[..k], taken);
      HitsMore(taken, pos[..k], pos, x);
    }
  }

  lemma {:induction false} HitsMore(taken: seq<nat>, less: seq<nat>, pos: seq<nat>, x: nat)
    requires x !in less && forall y :: y in pos <==> y in less || y == x
    ensures Hits(taken, pos) >= Hits(taken, less) + One(x in taken)
    decreases |taken|
  {
    if taken != [] {
      var k := |taken| - 1;
      assert taken == taken[..k] + [taken[k]];
      HitsMore(taken[..k], less, pos, x);
    }
  }

  function RecallAt(top: seq<nat>, pos: seq<nat>, k: nat, blocks: nat): real
    requires pos != []
  {
    var actual := if k <= blocks then k else blocks;
    Hits(if actual <= |top| then top[..actual] else top, pos) as real / |pos| as real
  }

  function Least(a: nat, b: nat): nat {
    if a <= b then a else b
  }

  /** Every hit place counts once. */
  lemma RecallIsPlaces(top: seq<nat>, pos: seq<nat>, k: nat, blocks: nat)
    requires pos != []
    ensures RecallAt(top, pos, k, blocks) == |HitPlaces(top, pos, Least(k, blocks))| as real / |pos| as real
  {
    var m := Least(k, blocks);
    HitsArePlaces(top, pos, Least(m, |top|));
    assert HitPlaces(top, pos, Least(m, |top|)) == HitPlaces(top, pos, m);
    assert top[..|top|] == top;
  }

  lemma MeanTimesCount(a: nat, n: nat)
    requires n > 0
    ensures a as real / n as real * n as real == a as real
  {
  }

  /** In a ranking every hit is a different block. */
  lemma RecallIsBlocks(top: seq<nat>, pos: seq<nat>, k: nat, blocks: nat)
    requires pos != [] && Distinct(top) && Least(k, blocks) <= |top|
    ensures RecallAt(top, pos, k, blocks) == |HitBlocks(top[..Least(k, blocks)], pos)| as real / |pos| as real
  {
    HitsAreBlocks(top[..Least(k, blocks)], pos);
  }

  /** recall@K times the number of positives is the number of positives in a true top set of min(K, blocks)
      blocks. */
  lemma RecallIsHitRate(score: seq<real>, top: seq<nat>, m: nat, pos: seq<nat>, k: nat)
    requires IsRanking(score, top, m) && pos != [] && Least(k, |score|) <= m
    ensures var taken := top[..Least(k, |score|)];
            && IsTopSet(score, taken) && |taken| == Least(k, |score|)
            && RecallAt(top, pos, k, |score|) * |pos| as real == |HitBlocks(taken, pos)| as real
  {
    var taken := top[..Least(k, |score|)];
    PrefixIsTop(score, top, m, Least(k, |score|));
    RecallIsBlocks(top, pos, k, |score|);
    MeanTimesCount(|HitBlocks(taken, pos)|, |pos|);
  }

  lemma Ratio(a: nat, b: nat, n: nat)
    requires n > 0 && a <= b <= n
    ensures 0.0 <= a as real / n as real <= b as real / n as real <= 1.0
    ensures b == n ==> b as real / n as real == 1.0
  {
    DivideMono(0.0, a as real, n as real);
    DivideMono(a as real, b as real, n as real);
    DivideMono(b as real, n as real, n as real);
    DivideSelf(n as real);
  }

  lemma DivideSelf(n: real)
    requires n > 0.0
    ensures n / n == 1.0
  {
  }

  lemma DivideMono(x: real, y: real, n: real)
    requires n > 0.0 && x <= y
    ensures x / n <= y / n
  {
    var p, q := x / n, y / n;
    assert p * n == x && q * n == y;
    if p > q {
      MultiplyMono(q, p, n);
    }
  }

  lemma MultiplyMono(p: real, q: real, n: real)
    requires n > 0.0 && p < q
    ensures p * n < q * n
  {
  }

  /** recall@K is the hit rate of a true top-K set, lies in [0, 1], never decreases with K, and is 1 once K
      covers all blocks. */
  lemma RecallTheorem(score: seq<real>, top: seq<nat>, m: nat, pos: seq<nat>, j: nat, k: nat)
    requires IsRanking(score, top, m) && pos != [] && Ascending(pos) && forall x :: x in pos ==> x < |score|
    requires j <= k && Least(k, |score|) <= m
    ensures IsTopSet(score, top[..Least(k, |score|)])
    ensures 0.0 <= RecallAt(top, pos, j, |score|) <= RecallAt(top, pos, k, |score|) <= 1.0
    ensures k >= |score| ==> RecallAt(top, pos, k, |score|) == 1.0
  {
    var n := |score|;
    var a, b := Least(j, n), Least(k, n);
    PrefixIsTop(score, top, m, b);
    HitsGrow(top, pos, a, b);
    HitsBounded(top[..b], pos);
    Ratio(Hits(top[..a], pos), Hits(top[..b], pos), |pos|);
    if k >= n {
      assert top[..b] == top;
      forall x | x in pos ensures x in top {
        Covers(top, n, x);
      }
      HitsAll(pos, top);
      Ratio(Hits(top, pos), Hits(top, pos), |pos|);
    }
  }

  // ----- The loop over the tokens of a document

  datatype Totals = Totals(tp: nat, fp: nat, fn: nat, recall: seq<real>, count: nat)

  /** np.argpartition with np.argsort: the best `m` blocks of a score row, best first. */
  type Ranker = (seq<real>, nat) -> seq<nat>

  ghost predicate RanksBest(rank: Ranker, score: seq<real>, m: nat) {
    m <= |score| ==> IsRanking(score, rank(score, m), m)
  }

  ghost predicate Ranks(rank: Ranker) {
    forall score: seq<real>, m: nat :: RanksBest(rank, score, m)
  }

  /** A document, the aggregated scores of its strided tokens, and the values of K. */
  datatype Job = Job(doc: Labels.Doc, interval: nat, step: nat, scores: seq<seq<real>>, ks: seq<nat>, rank: Ranker)

  /** One score per block for every `step`-th token. */
  ghost predicate JobOk(e: Job) {
    && Labels.WellFormed(e.doc) && e.step > 0 && e.ks != []
    && (forall i :: 0 <= i < |e.scores| ==> |e.scores[i]| == e.doc.nBlocks)
    && (forall i: nat :: i < |e.scores| ==> Times(i, e.step) < e.doc.Tokens()) && Times(|e.scores|, e.step) >= e.doc.Tokens()
  }

  /** The in-range labels of the window at token `t`. */
  function PositivesAt(e: Job, t: nat): (pos: seq<nat>)
    requires Labels.WellFormed(e.doc) && t < e.doc.Tokens()
    ensures Ascending(pos) && forall x: nat :: x in pos <==> Labels.InWindow(e.doc, t, e.interval, x) && x < e.doc.nBlocks
  {
    Labels.WindowMembers(e.doc, t, e.interval);
    Labels.Below(Labels.Unique(Labels.Window(e.doc, t, e.interval)), e.doc.nBlocks)
  }

  function Largest(ks: seq<nat>): (m: nat)
    requires ks != []
    ensures forall i :: 0 <= i < |ks| ==> ks[i] <= m
  {
    if |ks| == 1 then ks[0]
    else
      var m := Largest(ks[..|ks| - 1]);
      if ks[|ks| - 1] > m then ks[|ks| - 1] else m
  }

  /** The strided tokens: scores, in-range positives, the values of K, and the ranking. */
  datatype Tokens = Tokens(scores: seq<seq<real>>, pos: seq<seq<nat>>, ks: seq<nat>, rank: Ranker)

  ghost predicate TokensOk(e: Tokens) {
    && |e.scores| == |e.pos| && e.ks != []
    && forall i :: 0 <= i < |e.pos| ==> Ascending(e.pos[i]) && forall x :: x in e.pos[i] ==> x < |e.scores[i]|
  }

  /** What the loop finds for a document: for every strided token the in-range labels of its window. */
  ghost function TokensOf(e: Job): (d: Tokens)
    requires JobOk(e)
    ensures |d.pos| == |e.scores|
  {
    Tokens(e.scores, seq(|e.scores|, i requires 0 <= i < |e.scores| => PositivesAt(e, Times(i, e.step))), e.ks, e.rank)
  }

  lemma TokensOfOk(e: Job)
    requires JobOk(e)
    ensures TokensOk(TokensOf(e))
    ensures forall i: nat, x: nat :: i < |e.scores| ==>
              (x in TokensOf(e).pos[i] <==> Labels.InWindow(e.doc, Times(i, e.step), e.interval, x) && x < e.doc.nBlocks)
  {
  }

  /** The ranking of one token, as long as the largest K asks for and there are blocks. */
  function TopOf(ks: seq<nat>, rank: Ranker, score: seq<real>): seq<nat>
    requires ks != []
  {
    rank(score, if Largest(ks) <= |score| then Largest(ks) else |score|)
  }

  // What the first `n` strided tokens add up to.

  ghost function TpSum(e: Tokens, n: nat): nat
    requires TokensOk(e) && n <= |e.scores|
  {
    if n == 0 then 0
    else
      var score, pos := e.scores[n - 1], e.pos[n - 1];
      TpSum(e, n - 1) + if pos == [] then 0 else |TpBlocks(score, pos, |score|)|
  }

  ghost function FpSum(e: Tokens, n: nat): nat
    requires TokensOk(e) && n <= |e.scores|
  {
    if n == 0 then 0
    else
      var score, pos := e.scores[n - 1], e.pos[n - 1];
      FpSum(e, n - 1) + if pos == [] then 0 else |FpBlocks(score, pos, |score|)|
  }

  ghost function FnSum(e: Tokens, n: nat): nat
    requires TokensOk(e) && n <= |e.scores|
  {
    if n == 0 then 0
    else
      var score, pos := e.scores[n - 1], e.pos[n - 1];
      FnSum(e, n - 1) + if pos == [] then 0 else |FnBlocks(score, pos, |score|)|
  }

  ghost function RecallSum(e: Tokens, n: nat, k: nat): real
    requires TokensOk(e) && n <= |e.scores|
  {
    if n == 0 then 0.0
    else
      var score, pos := e.scores[n - 1], e.pos[n - 1];
      var top := TopOf(e.ks, e.rank, score);
      RecallSum(e, n - 1, k) + if pos == [] then 0.0 else |HitPlaces(top, pos, Least(k, |score|))| as real / |pos| as real
  }

  ghost function Counted(e: Tokens, n: nat): nat
    requires TokensOk(e) && n <= |e.scores|
  {
    if n == 0 then 0 else Counted(e, n - 1) + One(e.pos[n - 1] != [])
  }

  /** All in-range positives of those tokens. */
  ghost function Positives(e: Tokens, n: nat): nat
    requires TokensOk(e) && n <= |e.scores|
  {
    if n == 0 then 0 else Positives(e, n - 1) + |e.pos[n - 1]|
  }

  /** `recall` holds the sums for all K. */
  ghost predicate RecallsAre(e: Tokens, n: nat, recall: seq<real>)
    requires TokensOk(e) && n <= |e.scores|
  {
    |recall| == |e.ks| && forall i :: 0 <= i < |e.ks| ==> recall[i] == RecallSum(e, n, e.ks[i])
  }

  ghost predicate TotalsAre(e: Tokens, n: nat, r: Totals)
    requires TokensOk(e) && n <= |e.scores|
  {
    && r.tp == TpSum(e, n) && r.fp == FpSum(e, n) && r.fn == FnSum(e, n)
    && r.count == Counted(e, n) && RecallsAre(e, n, r.recall)
  }

  /** The blocks recall@K looks at: a true top set of min(K, blocks) blocks of token `i`. */
  ghost function Taken(e: Tokens, i: nat, k: nat): (r: seq<nat>)
    requires TokensOk(e) && Ranks(e.rank) && i < |e.scores| && k <= Largest(e.ks)
    ensures IsTopSet(e.scores[i], r) && |r| == Least(k, |e.scores[i]|)
  {
    var score := e.scores[i];
    var m := Least(Largest(e.ks), |score|);
    assert RanksBest(e.rank, score, m);
    PrefixIsTop(score, e.rank(score, m), m, Least(k, |score|));
    e.rank(score, m)[..Least(k, |score|)]
  }

  /** The share of a token's positives that its top set holds, summed over the tokens that have positives. */
  ghost function HitRateSum(e: Tokens, n: nat, k: nat): real
    requires TokensOk(e) && Ranks(e.rank) && n <= |e.scores| && k <= Largest(e.ks)
  {
    if n == 0 then 0.0
    else
      var pos := e.pos[n - 1];
      HitRateSum(e, n - 1, k) + if pos == [] then 0.0 else |HitBlocks(Taken(e, n - 1, k), pos)| as real / |pos| as real
  }

  ghost predicate HitRatesAre(e: Tokens, n: nat, recall: seq<real>)
    requires TokensOk(e) && Ranks(e.rank) && n <= |e.scores|
  {
    |recall| == |e.ks| && forall i :: 0 <= i < |e.ks| ==> recall[i] == HitRateSum(e, n, e.ks[i])
  }

  lemma TokenHits(e: Tokens, i: nat, k: nat)
    requires TokensOk(e) && Ranks(e.rank) && i < |e.scores| && k <= Largest(e.ks) && e.pos[i] != []
    ensures var top, m := TopOf(e.ks, e.rank, e.scores[i]), Least(k, |e.scores[i]|);
            |HitPlaces(top, e.pos[i], m)| == |HitBlocks(Taken(e, i, k), e.pos[i])|
  {
    var score := e.scores[i];
    var top, m := TopOf(e.ks, e.rank, score), Least(k, |score|);
    assert RanksBest(e.rank, score, Least(Largest(e.ks), |score|));
    HitsArePlaces(top, e.pos[i], m);
    HitsAreBlocks(top[..m], e.pos[i]);
  }

  lemma {:induction false} RecallSumMeans(e: Tokens, n: nat, k: nat)
    requires TokensOk(e) && Ranks(e.rank) && n <= |e.scores| && k <= Largest(e.ks)
    ensures RecallSum(e, n, k) == HitRateSum(e, n, k)
  {
    if n > 0 {
      RecallSumMeans(e, n - 1, k);
      if e.pos[n - 1] != [] {
        TokenHits(e, n - 1, k);
      }
    }
  }

  /** The recall sums are hit rates of true top sets. */
  lemma RecallsMean(e: Tokens, n: nat, recall: seq<real>)
    requires TokensOk(e) && Ranks(e.rank) && n <= |e.scores| && RecallsAre(e, n, recall)
    ensures HitRatesAre(e, n, recall)
  {
    forall i | 0 <= i < |e.ks| ensures recall[i] == HitRateSum(e, n, e.ks[i]) {
      RecallSumMeans(e, n, e.ks[i]);
    }
  }

  /** The inner loop over the values of K. */
  method AddRecalls(ghost e: Tokens, n: nat, score: seq<real>, pos: seq<nat>, top: seq<nat>, ks: seq<nat>, recall: seq<real>)
    returns (r: seq<real>)
    requires TokensOk(e) && n < |e.scores| && score == e.scores[n] && pos == e.pos[n] != [] && ks == e.ks
    requires top == TopOf(ks, e.rank, score) && RecallsAre(e, n, recall)
    ensures RecallsAre(e, n + 1, r)
  {
    r := [];
    for i := 0 to |ks|
      invariant |r| == i && forall j :: 0 <= j < i ==> r[j] == RecallSum(e, n + 1, ks[j])
    {
      RecallIsPlaces(top, pos, ks[i], |score|);
      r := r + [recall[i] + RecallAt(top, pos, ks[i], |score|)];
    }
  }

  /** One token's counts and recalls; a token without in-range positives is skipped. */
  method CountToken(ghost e: Tokens, n: nat, score: seq<real>, pos: seq<nat>, ks: seq<nat>, rank: Ranker, r: Totals)
    returns (s: Totals)
    requires TokensOk(e) && n < |e.scores| && score == e.scores[n] && pos == e.pos[n] && ks == e.ks && rank == e.rank
    requires TotalsAre(e, n, r)
    ensures TotalsAre(e, n + 1, s)
  {
    if |pos| == 0 {
      return r;
    }
    var recall := AddRecalls(e, n, score, pos, TopOf(ks, rank, score), ks, r.recall);
    var blocks := |score|;
    CountsAre(score, pos, blocks);
    s := Totals(r.tp + Tp(score, pos, blocks), r.fp + Fp(score, pos, blocks), r.fn + Fn(score, pos, blocks), recall, r.count + 1);
  }

  /** `all` is what the loop finds for the document. */
  ghost predicate Finds(e: Job, all: Tokens) {
    && TokensOk(all) && all.scores == e.scores && all.ks == e.ks && all.rank == e.rank
    && JobOk(e) && forall i: nat :: i < |all.pos| ==> FindsAt(e, all, i)
  }

  ghost predicate FindsAt(e: Job, all: Tokens, i: nat)
    requires JobOk(e) && i < |all.pos| == |e.scores|
  {
    all.pos[i] == PositivesAt(e, Times(i, e.step))
  }

  lemma FindsTokens(e: Job)
    requires JobOk(e)
    ensures Finds(e, TokensOf(e))
  {
    TokensOfOk(e);
    forall i: nat | i < |e.scores| ensures FindsAt(e, TokensOf(e), i) {
    }
  }

  method CountNext(e: Job, ghost all: Tokens, i: nat, t: nat, r: Totals) returns (s: Totals)
    requires Finds(e, all) && i < |all.scores| && t == Times(i, e.step) && TotalsAre(all, i, r)
    ensures TotalsAre(all, i + 1, s)
  {
    var pos := PositivesAt(e, t);
    assert FindsAt(e, all, i);
    s := CountToken(all, i, e.scores[i], pos, e.ks, e.rank, r);
  }

  /** The whole evaluation of a document: the in-range labels of each window, then its counts. */
  method EvaluateTokens(e: Job) returns (r: Totals)
    requires JobOk(e)
    ensures TokensOk(TokensOf(e)) && TotalsAre(TokensOf(e), |e.scores|, r)
    ensures Ranks(e.rank) ==> HitRatesAre(TokensOf(e), |e.scores|, r.recall)
  {
    FindsTokens(e);
    r := SumTokens(e, TokensOf(e));
    if Ranks(e.rank) {
      RecallsMean(TokensOf(e), |e.scores|, r.recall);
    }
  }

  /** The loop over the tokens. */
  method SumTokens(e: Job, ghost all: Tokens) returns (r: Totals)
    requires Finds(e, all)
    ensures TotalsAre(all, |all.scores|, r)
  {
    r := Totals(0, 0, 0, seq(|e.ks|, _ => 0.0), 0);
    var t := 0;
    for i := 0 to |e.scores|
      invariant t == Times(i, e.step) && TotalsAre(all, i, r)
    {
      r := CountNext(e, all, i, t, r);
      t := t + e.step;
    }
  }

  lemma {:induction false} HitsAndMisses(e: Tokens, n: nat)
    requires TokensOk(e) && n <= |e.scores|
    ensures TpSum(e, n) + FnSum(e, n) == Positives(e, n) && Counted(e, n) <= n
  {
    if n > 0 {
      HitsAndMisses(e, n - 1);
      TpFnIsPositives(e.scores[n - 1], e.pos[n - 1]);
      CountsAre(e.scores[n - 1], e.pos[n - 1], |e.scores[n - 1]|);
    }
  }

  lemma TokenRecall(e: Tokens, score: seq<real>, pos: seq<nat>, j: nat, k: nat)
    requires e.ks != [] && Ranks(e.rank) && j <= k <= Largest(e.ks)
    requires pos != [] && Ascending(pos) && forall x :: x in pos ==> x < |score|
    ensures 0.0 <= RecallAt(TopOf(e.ks, e.rank, score), pos, j, |score|) <= RecallAt(TopOf(e.ks, e.rank, score), pos, k, |score|) <= 1.0
  {
    var m := if Largest(e.ks) <= |score| then Largest(e.ks) else |score|;
    assert RanksBest(e.rank, score, m);
    RecallTheorem(score, TopOf(e.ks, e.rank, score), m, pos, j, k);
  }

  lemma {:induction false} RecallGrows(e: Tokens, n: nat, j: nat, k: nat)
    requires TokensOk(e) && Ranks(e.rank) && n <= |e.scores| && j <= k <= Largest(e.ks)
    ensures 0.0 <= RecallSum(e, n, j) <= RecallSum(e, n, k) <= Counted(e, n) as real
  {
    if n > 0 {
      RecallGrows(e, n - 1, j, k);
      if e.pos[n - 1] != [] {
        TokenRecall(e, e.scores[n - 1], e.pos[n - 1], j, k);
        var top, blocks := TopOf(e.ks, e.rank, e.scores[n - 1]), |e.scores[n - 1]|;
        RecallIsPlaces(top, e.pos[n - 1], j, blocks);
        RecallIsPlaces(top, e.pos[n - 1], k, blocks);
      }
    }
  }

  ghost predicate RecallsOk(r: Totals, ks: seq<nat>) {
    && |r.recall| == |ks|
    && (forall i :: 0 <= i < |ks| ==> 0.0 <= r.recall[i] <= r.count as real)
    && (forall i, j :: 0 <= i < |ks| && 0 <= j < |ks| && ks[i] <= ks[j] ==> r.recall[i] <= r.recall[j])
  }

  /** Over all tokens: true positives and misses add up to all in-range positives, and for every K the
      summed recall, hence the reported mean, lies between 0 and the number of tokens counted and never
      decreases with K. */
  lemma TotalsTheorem(e: Tokens, n: nat, r: Totals)
    requires TokensOk(e) && Ranks(e.rank) && n <= |e.scores| && TotalsAre(e, n, r)
    ensures r.tp + r.fn == Positives(e, n) && r.count <= n && RecallsOk(r, e.ks)
  {
    HitsAndMisses(e, n);
    forall i, j | 0 <= i < |e.ks| && 0 <= j < |e.ks| && e.ks[i] <= e.ks[j]
      ensures 0.0 <= r.recall[i] <= r.recall[j] <= r.count as real
    {
      RecallGrows(e, n, e.ks[i], e.ks[j]);
    }
  }
}
