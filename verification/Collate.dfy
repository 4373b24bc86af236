/** Padded batches (training/dataloader.py, `joint_collate_fn` and `collate_fn`). */
module Collate {
  import opened Lists
  import opened Wrappers

  /** One compressed key, 132 bytes in the source. */
  type Block = seq<int>

  /** What `__getitem__` returns for one token: per layer the selected keys, and shared labels and
      weights. `collate_fn` is the case of a single layer. */
  datatype Sample = Sample(compk: seq<seq<Block>>, labels: seq<real>, weights: seq<real>)

  /** The shapes `__getitem__` guarantees. */
  ghost predicate BatchOk(batch: seq<Sample>, layers: nat) {
    layers > 0 && forall i :: 0 <= i < |batch| ==>
      |batch[i].compk| == layers && |batch[i].labels| == |batch[i].weights| == |batch[i].compk[0]|
  }

  /** Every layer of the sample selected as many keys as the first one. */
  predicate LayersAgree(s: Sample) {
    forall l :: 0 <= l < |s.compk| ==> |s.compk[l]| == |s.compk[0]|
  }

  /** A collated batch: B rows of the same width, zero-padded. */
  datatype Batch = Batch(compk: array3<Block>, labels: array2<real>, weights: array2<real>, mask: array2<bool>)

  /** The length of the longest row. */
  function Width<T>(rows: seq<seq<T>>): (n: nat)
    ensures forall i :: 0 <= i < |rows| ==> |rows[i]| <= n
    ensures rows != [] ==> exists i :: 0 <= i < |rows| && |rows[i]| == n
  {
    if rows == [] then 0
    else
      var k := |rows| - 1;
      var n := Width(rows[..k]);
      if |rows[k]| > n || k == 0 then |rows[k]| else n
  }

  const ZERO_BLOCK: Block := seq(132, _ => 0)

  /** Entry `j` of a row padded with `zero`. */
  function Padded<T>(row: seq<T>, j: nat, zero: T): T {
    if j < |row| then row[j] else zero
  }

  function LabelRows(batch: seq<Sample>): seq<seq<real>> {
    seq(|batch|, i requires 0 <= i < |batch| => batch[i].labels)
  }

  function WeightRows(batch: seq<Sample>): seq<seq<real>> {
    seq(|batch|, i requires 0 <= i < |batch| => batch[i].weights)
  }

  function MaskRows(batch: seq<Sample>): seq<seq<bool>> {
    seq(|batch|, i requires 0 <= i < |batch| => seq(|batch[i].labels|, _ => true))
  }

  /** The first `i` rows hold `rows`, padded; the others are still zero. */
  ghost predicate Filled<T>(a: array2<T>, rows: seq<seq<T>>, i: nat, zero: T)
    reads a
  {
    && a.Length0 == |rows|
    && forall k: nat, j: nat :: k < a.Length0 && j < a.Length1 ==>
         a[k, j] == if k < i then Padded(rows[k], j, zero) else zero
  }

  ghost predicate KeysFilled(a: array3<Block>, batch: seq<Sample>, layers: nat, i: nat)
    reads a
  {
    && a.Length0 == layers && a.Length1 == |batch|
    && forall l: nat, k: nat, j: nat :: l < a.Length0 && k < a.Length1 && j < a.Length2 ==>
         a[l, k, j] == if k < i && l < |batch[k].compk| then Padded(batch[k].compk[l], j, ZERO_BLOCK) else ZERO_BLOCK
  }

  /** The slice assignment `a[i, :n] = row`. */
  method FillRow<T>(a: array2<T>, rows: seq<seq<T>>, i: nat, zero: T)
    requires i < |rows| && |rows[i]| <= a.Length1 && Filled(a, rows, i, zero)
    modifies a
    ensures Filled(a, rows, i + 1, zero)
  {
    var row := rows[i];
    forall j | 0 <= j < |row| {
      a[i, j] := row[j];
    }
  }

  method FillKeys(a: array3<Block>, batch: seq<Sample>, layers: nat, i: nat)
    requires BatchOk(batch, layers) && i < |batch| && LayersAgree(batch[i]) && |batch[i].compk[0]| <= a.Length2
    requires KeysFilled(a, batch, layers, i)
    modifies a
    ensures KeysFilled(a, batch, layers, i + 1)
  {
    var keys := batch[i].compk;
    forall l, j | 0 <= l < layers && 0 <= j < |keys[0]| {
      a[l, i, j] := keys[l][j];
    }
  }

  /** The first `i` samples are written into `b`; the rest is zero. */
  ghost predicate BatchFilled(b: Batch, batch: seq<Sample>, layers: nat, n: nat, i: nat)
    reads b.compk, b.labels, b.weights, b.mask
  {
    && b.labels.Length1 == b.weights.Length1 == b.mask.Length1 == b.compk.Length2 == n
    && Filled(b.labels, LabelRows(batch), i, 0.0)
    && Filled(b.weights, WeightRows(batch), i, 0.0)
    && Filled(b.mask, MaskRows(batch), i, false)
    && KeysFilled(b.compk, batch, layers, i)
  }

  method Allocate(batch: seq<Sample>, layers: nat, n: nat) returns (b: Batch)
    ensures BatchFilled(b, batch, layers, n, 0) && b.labels != b.weights
    ensures fresh(b.labels) && fresh(b.weights) && fresh(b.mask) && fresh(b.compk)
  {
    var labels := new real[|batch|, n]((_, _) => 0.0);
    var weights := new real[|batch|, n]((_, _) => 0.0);
    var mask := new bool[|batch|, n]((_, _) => false);
    var compk := new Block[layers, |batch|, n]((_, _, _) => ZERO_BLOCK);
    b := Batch(compk, labels, weights, mask);
  }

  method FillSample(b: Batch, batch: seq<Sample>, layers: nat, n: nat, i: nat)
    requires BatchOk(batch, layers) && i < |batch| && LayersAgree(batch[i]) && |batch[i].labels| <= n
    requires BatchFilled(b, batch, layers, n, i) && b.labels != b.weights
    modifies b.compk, b.labels, b.weights, b.mask
    ensures BatchFilled(b, batch, layers, n, i + 1)
  {
    FillKeys(b.compk, batch, layers, i);
    FillRow(b.labels, LabelRows(batch), i, 0.0);
    FillRow(b.weights, WeightRows(batch), i, 0.0);
    FillRow(b.mask, MaskRows(batch), i, false);
  }

  /** Preallocate zeros, then write each sample's rows. It fails on an empty batch and on a sample whose
      layers selected different numbers of keys, and on nothing else. */
  method JointCollate(batch: seq<Sample>, layers: nat) returns (r: Result<Batch>)
    requires BatchOk(batch, layers)
    ensures r.Err? <==> batch == [] || exists i :: 0 <= i < |batch| && !LayersAgree(batch[i])
    ensures r.Ok? ==> BatchFilled(r.value, batch, layers, Width(LabelRows(batch)), |batch|)
  {
    if batch == [] {
      return Err;
    }
    var rows := LabelRows(batch);
    var n := Width(rows);
    var b := Allocate(batch, layers, n);
    for i := 0 to |batch|
      invariant forall k :: 0 <= k < i ==> LayersAgree(batch[k])
      invariant BatchFilled(b, batch, layers, n, i)
    {
      if !LayersAgree(batch[i]) {
        return Err;
      }
      assert |rows[i]| == |batch[i].labels|;
      FillSample(b, batch, layers, n, i);
    }
    r := Ok(b);
  }

  // ----- Selecting by mask undoes the padding

  /** The rows of a padded matrix, as values. */
  function PadRow<T>(row: seq<T>, n: nat, zero: T): (r: seq<T>)
    ensures |r| == n
  {
    seq(n, j requires 0 <= j < n => Padded(row, j, zero))
  }

  function MaskRow(m: nat, n: nat): (r: seq<bool>)
    ensures |r| == n
  {
    seq(n, j requires 0 <= j < n => j < m)
  }

  /** `values[mask]` for one row. */
  function SelectRow<T>(values: seq<T>, mask: seq<bool>): seq<T>
    requires |values| == |mask|
  {
    if values == [] then []
    else
      var k := |values| - 1;
      SelectRow(values[..k], mask[..k]) + (if mask[k] then [values[k]] else [])
  }

  /** `values[mask]` for the matrix: the rows' selections end to end. */
  function Select<T>(values: seq<seq<T>>, mask: seq<seq<bool>>): seq<T>
    requires |values| == |mask| && forall i :: 0 <= i < |values| ==> |values[i]| == |mask[i]|
  {
    if values == [] then []
    else
      var k := |values| - 1;
      Select(values[..k], mask[..k]) + SelectRow(values[k], mask[k])
  }

  function PadAll<T>(rows: seq<seq<T>>, n: nat, zero: T): seq<seq<T>> {
    seq(|rows|, i requires 0 <= i < |rows| => PadRow(rows[i], n, zero))
  }

  function MaskAll<T>(rows: seq<seq<T>>, n: nat): seq<seq<bool>> {
    seq(|rows|, i requires 0 <= i < |rows| => MaskRow(|rows[i]|, n))
  }

  lemma {:induction false} SelectRowPadded<T>(row: seq<T>, n: nat, zero: T)
    ensures SelectRow(PadRow(row, n, zero), MaskRow(|row|, n)) == row[..if n <= |row| then n else |row|]
  {
    var p, m := PadRow(row, n, zero), MaskRow(|row|, n);
    if n > 0 {
      assert p[..n - 1] == PadRow(row, n - 1, zero) && m[..n - 1] == MaskRow(|row|, n - 1);
      SelectRowPadded(row, n - 1, zero);
      if n <= |row| {
        assert row[..n] == row[..n - 1] + [row[n - 1]];
      }
    }
  }

  /** Selecting by mask after collation gives back the unpadded values of all samples, in order, for any
      width that fits them. */
  lemma {:induction false} SelectRecovers<T>(rows: seq<seq<T>>, n: nat, zero: T)
    requires forall i :: 0 <= i < |rows| ==> |rows[i]| <= n
    ensures Select(PadAll(rows, n, zero), MaskAll(rows, n)) == Flatten(rows)
  {
    if rows != [] {
      var k := |rows| - 1;
      SelectRecovers(rows[..k], n, zero);
      FlattenLast(rows);
      assert PadAll(rows, n, zero)[..k] == PadAll(rows[..k], n, zero);
      assert MaskAll(rows, n)[..k] == MaskAll(rows[..k], n);
      SelectRowPadded(rows[k], n, zero);
      assert rows[k][..|rows[k]|] == rows[k];
    }
  }

  /** A matrix as a value. */
  ghost function ValuesOf<T>(a: array2<T>): (rows: seq<seq<T>>)
    reads a
    ensures |rows| == a.Length0 && forall i :: 0 <= i < a.Length0 ==> |rows[i]| == a.Length1
  {
    seq(a.Length0, i requires 0 <= i < a.Length0 reads a =>
      seq(a.Length1, j requires 0 <= j < a.Length1 reads a => a[i, j]))
  }

  lemma FilledValues<T>(a: array2<T>, rows: seq<seq<T>>, zero: T)
    requires Filled(a, rows, |rows|, zero)
    ensures ValuesOf(a) == PadAll(rows, a.Length1, zero)
  {
    var v, p := ValuesOf(a), PadAll(rows, a.Length1, zero);
    forall i | 0 <= i < |rows| ensures v[i] == p[i] {
      assert forall j :: 0 <= j < a.Length1 ==> v[i][j] == a[i, j] == Padded(rows[i], j, zero);
    }
  }

  lemma MaskValues<T>(rows: seq<seq<T>>, flags: seq<seq<bool>>, n: nat)
    requires |flags| == |rows| && forall i :: 0 <= i < |rows| ==> flags[i] == seq(|rows[i]|, _ => true)
    ensures PadAll(flags, n, false) == MaskAll(rows, n)
  {
    forall i | 0 <= i < |rows| ensures PadRow(flags[i], n, false) == MaskRow(|rows[i]|, n) {
    }
  }

  /** Row `i` of a collated batch holds the labels and weights of sample `i` and then zeros, and its mask tells
      the two apart. */
  lemma CollatedRows(b: Batch, batch: seq<Sample>, layers: nat, i: nat)
    requires BatchOk(batch, layers) && i < |batch|
    requires BatchFilled(b, batch, layers, Width(LabelRows(batch)), |batch|)
    ensures var m, n := |batch[i].labels|, b.labels.Length1;
            && m <= n
            && ValuesOf(b.labels)[i][..m] == batch[i].labels && (forall j :: m <= j < n ==> b.labels[i, j] == 0.0)
            && ValuesOf(b.weights)[i][..m] == batch[i].weights && (forall j :: m <= j < n ==> b.weights[i, j] == 0.0)
            && forall j :: 0 <= j < n ==> (b.mask[i, j] <==> j < m)
  {
    assert |LabelRows(batch)[i]| == |batch[i].labels|;
    assert WeightRows(batch)[i] == batch[i].weights && MaskRows(batch)[i] == seq(|batch[i].labels|, _ => true);
    forall j: nat | j < b.labels.Length1
      ensures b.labels[i, j] == Padded(batch[i].labels, j, 0.0) && b.weights[i, j] == Padded(batch[i].weights, j, 0.0)
    {
    }
  }

  /** Of a collated batch, `labels[mask]` and `weights[mask]` are the labels and weights of all samples,
      unpadded and in order. */
  lemma CollatedSelects(b: Batch, batch: seq<Sample>, layers: nat)
    requires BatchOk(batch, layers)
    requires BatchFilled(b, batch, layers, Width(LabelRows(batch)), |batch|)
    ensures Select(ValuesOf(b.labels), ValuesOf(b.mask)) == Flatten(LabelRows(batch))
    ensures Select(ValuesOf(b.weights), ValuesOf(b.mask)) == Flatten(WeightRows(batch))
  {
    var n := Width(LabelRows(batch));
    FilledValues(b.labels, LabelRows(batch), 0.0);
    FilledValues(b.weights, WeightRows(batch), 0.0);
    FilledValues(b.mask, MaskRows(batch), false);
    MaskValues(LabelRows(batch), MaskRows(batch), n);
    MaskValues(WeightRows(batch), MaskRows(batch), n);
    SelectRecovers(LabelRows(batch), n, 0.0);
    assert forall i :: 0 <= i < |batch| ==> |WeightRows(batch)[i]| == |LabelRows(batch)[i]|;
    SelectRecovers(WeightRows(batch), n, 0.0);
  }
}
