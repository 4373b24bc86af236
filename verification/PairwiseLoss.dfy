/** The chunked pairwise ranking loss over a padded batch (training/train.py, the pairwise branch of the
    training loops). */
module PairwiseLoss {
  import opened Arith
  import opened Collate

  const CHUNK := 64

  /** Elementwise loss of a score difference: -logsigmoid(d), or relu(margin - d). */
  type Loss = real -> real

  /** One padded row of scores, labels and mask. */
  datatype Row = Row(logits: seq<real>, labels: seq<real>, mask: seq<bool>)

  ghost predicate RowOk(r: Row, n: nat) {
    |r.logits| == |r.labels| == |r.mask| == n
  }

  predicate IsPos(r: Row, i: nat)
    requires i < |r.labels| == |r.mask|
  {
    r.labels[i] == 1.0 && r.mask[i]
  }

  predicate IsNeg(r: Row, i: nat)
    requires i < |r.labels| == |r.mask|
  {
    r.labels[i] == 0.0 && r.mask[i]
  }

  /** Sum over j < m of the pair (i, j), zero where the pair mask is zero. */
  function PairsOf(r: Row, elem: Loss, i: nat, m: nat): real
    requires RowOk(r, |r.logits|) && i < |r.logits| && m <= |r.logits|
  {
    if m == 0 then 0.0
    else
      PairsOf(r, elem, i, m - 1)
      + (if IsPos(r, i) && IsNeg(r, m - 1) then elem(r.logits[i] - r.logits[m - 1]) else 0.0)
  }

  function RowLoss(r: Row, elem: Loss, k: nat, m: nat): real
    requires RowOk(r, |r.logits|) && k <= |r.logits| && m <= |r.logits|
  {
    if k == 0 then 0.0 else RowLoss(r, elem, k - 1, m) + PairsOf(r, elem, k - 1, m)
  }

  function CountPairsOf(r: Row, i: nat, m: nat): nat
    requires RowOk(r, |r.logits|) && i < |r.logits| && m <= |r.logits|
  {
    if m == 0 then 0 else CountPairsOf(r, i, m - 1) + (if IsPos(r, i) && IsNeg(r, m - 1) then 1 else 0)
  }

  function RowCount(r: Row, k: nat, m: nat): nat
    requires RowOk(r, |r.logits|) && k <= |r.logits| && m <= |r.logits|
  {
    if k == 0 then 0 else RowCount(r, k - 1, m) + CountPairsOf(r, k - 1, m)
  }

  ghost predicate RowsOk(rows: seq<Row>, n: nat) {
    forall i :: 0 <= i < |rows| ==> RowOk(rows[i], n)
  }

  /** `.sum()` over a stretch of rows of the [rows, N, N] tensor. */
  function SumLoss(rows: seq<Row>, elem: Loss, n: nat): real
    requires RowsOk(rows, n)
  {
    if rows == [] then 0.0
    else SumLoss(rows[..|rows| - 1], elem, n) + RowLoss(rows[|rows| - 1], elem, n, n)
  }

  function SumCount(rows: seq<Row>, n: nat): nat
    requires RowsOk(rows, n)
  {
    if rows == [] then 0 else SumCount(rows[..|rows| - 1], n) + RowCount(rows[|rows| - 1], n, n)
  }

  lemma {:induction false} SumAppend(x: seq<Row>, y: seq<Row>, elem: Loss, n: nat)
    requires RowsOk(x, n) && RowsOk(y, n) && RowsOk(x + y, n)
    ensures SumLoss(x + y, elem, n) == SumLoss(x, elem, n) + SumLoss(y, elem, n)
    ensures SumCount(x + y, n) == SumCount(x, n) + SumCount(y, n)
  {
    if y == [] {
      assert x + y == x;
    } else {
      var k := |y| - 1;
      assert (x + y)[..|x| + k] == x + y[..k];
      SumAppend(x, y[..k], elem, n);
    }
  }

  // ----- The same sums over lists of positive and negative scores

  /** One positive score against a list of negative scores. */
  function Against(p: real, neg: seq<real>, elem: Loss): real {
    if neg == [] then 0.0 else Against(p, neg[..|neg| - 1], elem) + elem(p - neg[|neg| - 1])
  }

  /** The sum of `elem(p - q)` over all scores `p` of the one list and `q` of the other. */
  function AllPairs(pos: seq<real>, neg: seq<real>, elem: Loss): real {
    if pos == [] then 0.0 else AllPairs(pos[..|pos| - 1], neg, elem) + Against(pos[|pos| - 1], neg, elem)
  }

  lemma {:induction false} AgainstAddsUp(p: real, b: seq<real>, c: seq<real>, elem: Loss)
    ensures Against(p, b + c, elem) == Against(p, b, elem) + Against(p, c, elem)
  {
    if c == [] {
      assert b + c == b;
    } else {
      var k := |c| - 1;
      AgainstAddsUp(p, b, c[..k], elem);
      assert (b + c)[..|b| + k] == b + c[..k];
    }
  }

  /** One pair counts its own loss, and splitting either list splits the sum: the sum over all pairs and no
      other has these properties. */
  lemma AllPairsAddsUp(a: seq<real>, b: seq<real>, c: seq<real>, p: real, q: real, elem: Loss)
    ensures AllPairs([p], [q], elem) == elem(p - q)
    ensures AllPairs(a + b, c, elem) == AllPairs(a, c, elem) + AllPairs(b, c, elem)
    ensures AllPairs(a, b + c, elem) == AllPairs(a, b, elem) + AllPairs(a, c, elem)
  {
    SplitPositives(a, b, c, elem);
    SplitNegatives(a, b, c, elem);
    assert [p][..0] == [] && [q][..0] == [];
    assert Against(p, [q], elem) == Against(p, [], elem) + elem(p - q);
    assert AllPairs([p], [q], elem) == AllPairs([], [q], elem) + Against(p, [q], elem);
  }

  lemma {:induction false} SplitPositives(a: seq<real>, b: seq<real>, c: seq<real>, elem: Loss)
    ensures AllPairs(a + b, c, elem) == AllPairs(a, c, elem) + AllPairs(b, c, elem)
  {
    if b == [] {
      assert a + b == a;
    } else {
      var k := |b| - 1;
      SplitPositives(a, b[..k], c, elem);
      assert (a + b)[..|a| + k] == a + b[..k];
    }
  }

  lemma {:induction false} SplitNegatives(a: seq<real>, b: seq<real>, c: seq<real>, elem: Loss)
    ensures AllPairs(a, b + c, elem) == AllPairs(a, b, elem) + AllPairs(a, c, elem)
  {
    if a != [] {
      SplitNegatives(a[..|a| - 1], b, c, elem);
      AgainstAddsUp(a[|a| - 1], b, c, elem);
    }
  }

  /** The scores of the unmasked entries labelled `v`, among the first `m`. */
  function Picked(r: Row, v: real, m: nat): seq<real>
    requires RowOk(r, |r.logits|) && m <= |r.logits|
  {
    if m == 0 then []
    else if r.labels[m - 1] == v && r.mask[m - 1] then Picked(r, v, m - 1) + [r.logits[m - 1]]
    else Picked(r, v, m - 1)
  }

  /** Row by row, every unmasked positive score against every unmasked negative score. */
  function PairLoss(rows: seq<Row>, elem: Loss, n: nat): real
    requires RowsOk(rows, n)
  {
    if rows == [] then 0.0
    else
      var k := |rows| - 1;
      PairLoss(rows[..k], elem, n) + AllPairs(Picked(rows[k], 1.0, n), Picked(rows[k], 0.0, n), elem)
  }

  function PairCount(rows: seq<Row>, n: nat): nat
    requires RowsOk(rows, n)
  {
    if rows == [] then 0
    else
      var k := |rows| - 1;
      PairCount(rows[..k], n) + |Picked(rows[k], 1.0, n)| * |Picked(rows[k], 0.0, n)|
  }

  lemma {:induction false} PairsAre(r: Row, elem: Loss, i: nat, m: nat)
    requires RowOk(r, |r.logits|) && i < |r.logits| && m <= |r.logits|
    ensures CountPairsOf(r, i, m) == if IsPos(r, i) then |Picked(r, 0.0, m)| else 0
    ensures PairsOf(r, elem, i, m) == if IsPos(r, i) then Against(r.logits[i], Picked(r, 0.0, m), elem) else 0.0
  {
    if m > 0 {
      PairsAre(r, elem, i, m - 1);
      var neg := Picked(r, 0.0, m);
      assert IsNeg(r, m - 1) ==> neg[..|neg| - 1] == Picked(r, 0.0, m - 1);
    }
  }

  lemma {:induction false} RowIsPairs(r: Row, elem: Loss, k: nat)
    requires RowOk(r, |r.logits|) && k <= |r.logits|
    ensures RowLoss(r, elem, k, |r.logits|) == AllPairs(Picked(r, 1.0, k), Picked(r, 0.0, |r.logits|), elem)
    ensures RowCount(r, k, |r.logits|) == Times(|Picked(r, 1.0, k)|, |Picked(r, 0.0, |r.logits|)|)
  {
    if k > 0 {
      RowIsPairs(r, elem, k - 1);
      PairsAre(r, elem, k - 1, |r.logits|);
      var pos := Picked(r, 1.0, k);
      assert IsPos(r, k - 1) ==> pos[..|pos| - 1] == Picked(r, 1.0, k - 1);
    }
  }

  /** Masking the square of score differences is pairing the positive scores with the negative ones. */
  lemma {:induction false} SumsArePairs(rows: seq<Row>, elem: Loss, n: nat)
    requires RowsOk(rows, n)
    ensures SumLoss(rows, elem, n) == PairLoss(rows, elem, n)
    ensures SumCount(rows, n) == PairCount(rows, n)
  {
    if rows != [] {
      var k := |rows| - 1;
      SumsArePairs(rows[..k], elem, n);
      RowIsPairs(rows[k], elem, n);
      TimesIs(|Picked(rows[k], 1.0, n)|, |Picked(rows[k], 0.0, n)|);
    }
  }

  /** The accumulators hold the sums of the first `k` rows. */
  ghost predicate SumsUpTo(rows: seq<Row>, elem: Loss, n: nat, k: nat, loss: real, count: nat)
    requires RowsOk(rows, n)
  {
    var done := if k <= |rows| then rows[..k] else rows;
    loss == SumLoss(done, elem, n) && count == SumCount(done, n)
  }

  lemma ChunkStep(rows: seq<Row>, elem: Loss, n: nat, cs: nat, ce: nat, loss: real, count: nat)
    requires RowsOk(rows, n) && cs <= ce <= |rows| && SumsUpTo(rows, elem, n, cs, loss, count)
    ensures RowsOk(rows[cs..ce], n)
    ensures SumsUpTo(rows, elem, n, ce, loss + SumLoss(rows[cs..ce], elem, n), count + SumCount(rows[cs..ce], n))
  {
    assert rows[..ce] == rows[..cs] + rows[cs..ce];
    SumAppend(rows[..cs], rows[cs..ce], elem, n);
  }

  /** The loop over chunks of 64 rows: the chunks only bound memory, the sums are those of all rows. */
  method ChunkedSums(rows: seq<Row>, elem: Loss, n: nat) returns (loss: real, count: nat)
    requires RowsOk(rows, n)
    ensures loss == SumLoss(rows, elem, n) && count == SumCount(rows, n)
    ensures loss == PairLoss(rows, elem, n) && count == PairCount(rows, n)
  {
    loss, count := 0.0, 0;
    var cs := 0;
    while cs < |rows|
      invariant 0 <= cs && SumsUpTo(rows, elem, n, cs, loss, count)
      decreases |rows| - cs
    {
      var ce := if cs + CHUNK <= |rows| then cs + CHUNK else |rows|;
      ChunkStep(rows, elem, n, cs, ce, loss, count);
      var chunk := rows[cs..ce];
      loss := loss + SumLoss(chunk, elem, n);
      count := count + SumCount(chunk, n);
      cs := cs + CHUNK;
      assert rows[..|rows|] == rows;
    }
    assert rows[..|rows|] == rows;
    SumsArePairs(rows, elem, n);
  }

  // ----- The same sums straight from the unpadded samples

  /** Unpadded scores and labels of one sample. */
  datatype Item = Item(logits: seq<real>, labels: seq<real>)

  ghost predicate ItemOk(s: Item) {
    |s.logits| == |s.labels|
  }

  /** `r` is `s` padded to some width, with anything as the scores of the padding. */
  ghost predicate IsPadded(s: Item, r: Row) {
    && ItemOk(s) && |s.logits| <= |r.logits| && RowOk(r, |r.logits|)
    && r.logits[..|s.logits|] == s.logits
    && r.labels == PadRow(s.labels, |r.logits|, 0.0)
    && r.mask == MaskRow(|s.logits|, |r.logits|)
  }

  /** The scores of the blocks labelled `v`, among the first `m`. */
  function ScoresOf(s: Item, v: real, m: nat): seq<real>
    requires ItemOk(s) && m <= |s.logits|
  {
    if m == 0 then []
    else if s.labels[m - 1] == v then ScoresOf(s, v, m - 1) + [s.logits[m - 1]]
    else ScoresOf(s, v, m - 1)
  }

  function Positives(s: Item): seq<real>
    requires ItemOk(s)
  {
    ScoresOf(s, 1.0, |s.logits|)
  }

  function Negatives(s: Item): seq<real>
    requires ItemOk(s)
  {
    ScoresOf(s, 0.0, |s.logits|)
  }

  /** All pairs of a positive and a negative score of the same sample, summed over the samples. */
  function DirectLoss(items: seq<Item>, elem: Loss): real
    requires forall i :: 0 <= i < |items| ==> ItemOk(items[i])
  {
    if items == [] then 0.0
    else
      var last := items[|items| - 1];
      DirectLoss(items[..|items| - 1], elem) + AllPairs(Positives(last), Negatives(last), elem)
  }

  /** Positives times negatives, summed over the samples. */
  function DirectCount(items: seq<Item>): nat
    requires forall i :: 0 <= i < |items| ==> ItemOk(items[i])
  {
    if items == [] then 0
    else
      var last := items[|items| - 1];
      DirectCount(items[..|items| - 1]) + |Positives(last)| * |Negatives(last)|
  }

  lemma {:induction false} PaddingPicksNothing(s: Item, r: Row, v: real, m: nat)
    requires IsPadded(s, r) && m <= |r.logits|
    ensures Picked(r, v, m) == ScoresOf(s, v, if m < |s.logits| then m else |s.logits|)
  {
    if m > 0 {
      PaddingPicksNothing(s, r, v, m - 1);
      assert m - 1 < |s.logits| ==> r.logits[m - 1] == s.logits[m - 1];
    }
  }

  lemma {:induction false} ItemLoss(items: seq<Item>, rows: seq<Row>, elem: Loss, n: nat)
    requires |items| == |rows| && RowsOk(rows, n)
    requires forall i :: 0 <= i < |items| ==> IsPadded(items[i], rows[i])
    ensures forall i :: 0 <= i < |items| ==> ItemOk(items[i])
    ensures PairLoss(rows, elem, n) == DirectLoss(items, elem)
  {
    if items != [] {
      var k := |items| - 1;
      ItemLoss(items[..k], rows[..k], elem, n);
      assert IsPadded(items[k], rows[k]);
      PaddingPicksNothing(items[k], rows[k], 1.0, n);
      PaddingPicksNothing(items[k], rows[k], 0.0, n);
    }
  }

  lemma {:induction false} ItemCount(items: seq<Item>, rows: seq<Row>, n: nat)
    requires |items| == |rows| && RowsOk(rows, n)
    requires forall i :: 0 <= i < |items| ==> IsPadded(items[i], rows[i])
    ensures forall i :: 0 <= i < |items| ==> ItemOk(items[i])
    ensures PairCount(rows, n) == DirectCount(items)
  {
    if items != [] {
      var k := |items| - 1;
      ItemCount(items[..k], rows[..k], n);
      assert IsPadded(items[k], rows[k]);
      PaddingPicksNothing(items[k], rows[k], 1.0, n);
      PaddingPicksNothing(items[k], rows[k], 0.0, n);
    }
  }

  /** Padding and chunking change nothing: the accumulated loss is the sum over all (positive, negative)
      pairs of every unpadded sample, and the count is the number of such pairs. */
  lemma PaddingIndependent(items: seq<Item>, rows: seq<Row>, elem: Loss, n: nat)
    requires |items| == |rows| && RowsOk(rows, n)
    requires forall i :: 0 <= i < |items| ==> IsPadded(items[i], rows[i])
    ensures forall i :: 0 <= i < |items| ==> ItemOk(items[i])
    ensures SumLoss(rows, elem, n) == DirectLoss(items, elem)
    ensures SumCount(rows, n) == DirectCount(items)
  {
    SumsArePairs(rows, elem, n);
    ItemLoss(items, rows, elem, n);
    ItemCount(items, rows, n);
  }

  /** The rows the loss sees: the model's scores beside the collated labels and mask. */
  function RowsOf(logits: seq<seq<real>>, labels: seq<seq<real>>, mask: seq<seq<bool>>): seq<Row>
    requires |logits| == |labels| == |mask|
  {
    seq(|logits|, i requires 0 <= i < |logits| => Row(logits[i], labels[i], mask[i]))
  }

  ghost predicate Scored(batch: seq<Sample>, logits: seq<seq<real>>, n: nat) {
    |logits| == |batch| && forall i :: 0 <= i < |batch| ==> |batch[i].labels| <= |logits[i]| == n
  }

  /** The samples with the scores of their own blocks. */
  function ItemsOf(batch: seq<Sample>, logits: seq<seq<real>>, n: nat): seq<Item>
    requires Scored(batch, logits, n)
  {
    seq(|batch|, i requires 0 <= i < |batch| => Item(logits[i][..|batch[i].labels|], batch[i].labels))
  }

  /** From collation to loss: for any scores the model gives a collated batch, padding included, the chunked
      sums are the sums over all (positive, negative) pairs of the samples that were collated. */
  lemma CollatedLoss(b: Batch, batch: seq<Sample>, layers: nat, logits: seq<seq<real>>, elem: Loss)
    requires BatchOk(batch, layers) && BatchFilled(b, batch, layers, Width(LabelRows(batch)), |batch|)
    requires Scored(batch, logits, Width(LabelRows(batch)))
    ensures var n := Width(LabelRows(batch));
            var rows, items := RowsOf(logits, ValuesOf(b.labels), ValuesOf(b.mask)), ItemsOf(batch, logits, n);
            && RowsOk(rows, n) && (forall i :: 0 <= i < |items| ==> ItemOk(items[i]))
            && SumLoss(rows, elem, n) == DirectLoss(items, elem) && SumCount(rows, n) == DirectCount(items)
  {
    var n := Width(LabelRows(batch));
    FilledValues(b.labels, LabelRows(batch), 0.0);
    FilledValues(b.mask, MaskRows(batch), false);
    MaskValues(LabelRows(batch), MaskRows(batch), n);
    var rows, items := RowsOf(logits, ValuesOf(b.labels), ValuesOf(b.mask)), ItemsOf(batch, logits, n);
    forall i | 0 <= i < |items| ensures IsPadded(items[i], rows[i]) && RowOk(rows[i], n) {
      assert LabelRows(batch)[i] == batch[i].labels;
    }
    PaddingIndependent(items, rows, elem, n);
  }

  lemma {:induction false} NoPairsNoLoss(r: Row, elem: Loss, k: nat, m: nat)
    requires RowOk(r, |r.logits|) && k <= |r.logits| && m <= |r.logits| && RowCount(r, k, m) == 0
    ensures RowLoss(r, elem, k, m) == 0.0
  {
    if k > 0 {
      NoPairsNoLoss(r, elem, k - 1, m);
      NoPairsInRow(r, elem, k - 1, m);
    }
  }

  lemma {:induction false} NoPairsInRow(r: Row, elem: Loss, i: nat, m: nat)
    requires RowOk(r, |r.logits|) && i < |r.logits| && m <= |r.logits| && CountPairsOf(r, i, m) == 0
    ensures PairsOf(r, elem, i, m) == 0.0
  {
    if m > 0 {
      NoPairsInRow(r, elem, i, m - 1);
    }
  }

  /** `loss_sum / count_sum.clamp(min=1)`. */
  function Mean(loss: real, count: nat): real {
    loss / (if count < 1 then 1.0 else count as real)
  }

  /** The reported loss, times the number of pairs or 1 if there are none, is the sum over the pairs. */
  lemma MeanUndone(loss: real, count: nat)
    ensures Mean(loss, count) * (if count < 1 then 1.0 else count as real) == loss
  {
  }

  // ----- When the margin loss vanishes

  /** `F.relu(margin - d)`. */
  function MarginLoss(margin: real): Loss {
    d => if margin - d > 0.0 then margin - d else 0.0
  }

  /** Every positive of the sample scores above every negative by the margin. */
  ghost predicate Separated(s: Item, margin: real)
    requires ItemOk(s)
  {
    forall i, j :: 0 <= i < |s.labels| && 0 <= j < |s.labels| && s.labels[i] == 1.0 && s.labels[j] == 0.0 ==>
      s.logits[i] - s.logits[j] >= margin
  }

  ghost predicate Above(pos: seq<real>, neg: seq<real>, margin: real) {
    forall i, j :: 0 <= i < |pos| && 0 <= j < |neg| ==> pos[i] - neg[j] >= margin
  }

  lemma {:induction false} AgainstZero(p: real, neg: seq<real>, margin: real)
    ensures Against(p, neg, MarginLoss(margin)) >= 0.0
    ensures Against(p, neg, MarginLoss(margin)) == 0.0 <==> forall j :: 0 <= j < |neg| ==> p - neg[j] >= margin
  {
    if neg != [] {
      var k := |neg| - 1;
      AgainstZero(p, neg[..k], margin);
      assert forall j :: 0 <= j < k ==> neg[..k][j] == neg[j];
    }
  }

  lemma {:induction false} AllPairsZero(pos: seq<real>, neg: seq<real>, margin: real)
    ensures AllPairs(pos, neg, MarginLoss(margin)) >= 0.0
    ensures AllPairs(pos, neg, MarginLoss(margin)) == 0.0 <==> Above(pos, neg, margin)
  {
    if pos != [] {
      var k := |pos| - 1;
      AllPairsZero(pos[..k], neg, margin);
      AgainstZero(pos[k], neg, margin);
      assert forall i :: 0 <= i < k ==> pos[..k][i] == pos[i];
    }
  }

  lemma {:induction false} ScoresMean(s: Item, v: real, m: nat, x: real)
    requires ItemOk(s) && m <= |s.logits|
    ensures x in ScoresOf(s, v, m) <==> exists i :: 0 <= i < m && s.labels[i] == v && s.logits[i] == x
  {
    if m > 0 {
      ScoresMean(s, v, m - 1, x);
    }
  }

  lemma SeparatedMeans(s: Item, margin: real)
    requires ItemOk(s)
    ensures Separated(s, margin) <==> Above(Positives(s), Negatives(s), margin)
  {
    var pos, neg := Positives(s), Negatives(s);
    if Separated(s, margin) {
      forall i, j | 0 <= i < |pos| && 0 <= j < |neg| ensures pos[i] - neg[j] >= margin {
        ScoresMean(s, 1.0, |s.logits|, pos[i]);
        ScoresMean(s, 0.0, |s.logits|, neg[j]);
      }
    }
    if Above(pos, neg, margin) {
      forall i, j | 0 <= i < |s.labels| && 0 <= j < |s.labels| && s.labels[i] == 1.0 && s.labels[j] == 0.0
        ensures s.logits[i] - s.logits[j] >= margin
      {
        ScoresMean(s, 1.0, |s.logits|, s.logits[i]);
        ScoresMean(s, 0.0, |s.logits|, s.logits[j]);
      }
    }
  }

  lemma {:induction false} MarginVanishes(items: seq<Item>, margin: real)
    requires forall i :: 0 <= i < |items| ==> ItemOk(items[i])
    ensures DirectLoss(items, MarginLoss(margin)) >= 0.0
    ensures DirectLoss(items, MarginLoss(margin)) == 0.0 <==> forall i :: 0 <= i < |items| ==> Separated(items[i], margin)
  {
    if items != [] {
      var k := |items| - 1;
      MarginVanishes(items[..k], margin);
      AllPairsZero(Positives(items[k]), Negatives(items[k]), margin);
      SeparatedMeans(items[k], margin);
    }
  }

  /** The margin loss of a padded batch is never negative, and zero exactly if in every sample every positive
      scores above every negative by the margin. */
  lemma MarginLossVanishes(items: seq<Item>, rows: seq<Row>, margin: real, n: nat)
    requires |items| == |rows| && RowsOk(rows, n)
    requires forall i :: 0 <= i < |items| ==> IsPadded(items[i], rows[i])
    ensures SumLoss(rows, MarginLoss(margin), n) >= 0.0 && forall i :: 0 <= i < |items| ==> ItemOk(items[i])
    ensures SumLoss(rows, MarginLoss(margin), n) == 0.0 <==> forall i :: 0 <= i < |items| ==> Separated(items[i], margin)
  {
    PaddingIndependent(items, rows, MarginLoss(margin), n);
    MarginVanishes(items, margin);
  }

  /** Clamping the denominator is harmless: a batch without any pair has loss zero, so a rank without
      pairs still takes part in the step with a zero loss. */
  lemma {:induction false} NoPairsZeroMean(rows: seq<Row>, elem: Loss, n: nat)
    requires RowsOk(rows, n) && SumCount(rows, n) == 0
    ensures Mean(SumLoss(rows, elem, n), SumCount(rows, n)) == 0.0
    ensures SumLoss(rows, elem, n) == 0.0
  {
    if rows != [] {
      var k := |rows| - 1;
      NoPairsZeroMean(rows[..k], elem, n);
      NoPairsNoLoss(rows[k], elem, n, n);
    }
  }
}
