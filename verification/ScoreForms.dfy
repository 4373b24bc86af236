/** The two forms of the block score (training/inference.py, `act_quant_fp8` and the scoring branches of
    `LightningIndexer.forward`; training/train.py, `LightningIndexerTrainable.forward`), over the reals:
    the rounding of the FP8 cast is not modelled. */
module ScoreForms {
  import opened Hadamard

  function Relu(x: real): real {
    if x > 0.0 then x else 0.0
  }

  function Abs(x: real): real {
    if x >= 0.0 then x else -x
  }

  // ----- Block quantisation of one head

  const FP8_MAX := 448.0
  const MIN_AMAX := 0.000000000001

  function AbsMax(x: Vec): (m: real)
    ensures m >= 0.0 && forall i :: 0 <= i < |x| ==> Abs(x[i]) <= m
    ensures if x == [] then m == 0.0 else exists i :: 0 <= i < |x| && Abs(x[i]) == m
  {
    if x == [] then 0.0
    else
      var k := |x| - 1;
      var m := AbsMax(x[..k]);
      if Abs(x[k]) > m then Abs(x[k]) else m
  }

  /** amax clamped from below, over 448. */
  function QuantScale(x: Vec): (s: real)
    ensures s > 0.0
  {
    (if AbsMax(x) < MIN_AMAX then MIN_AMAX else AbsMax(x)) / FP8_MAX
  }

  function Clamp(v: real): (r: real)
    ensures -FP8_MAX <= r <= FP8_MAX && (-FP8_MAX <= v <= FP8_MAX ==> r == v)
    ensures v > FP8_MAX ==> r == FP8_MAX
  {
    if v < -FP8_MAX then -FP8_MAX else if v > FP8_MAX then FP8_MAX else v
  }

  function Quantise(x: Vec): (q: Vec)
    ensures |q| == |x|
  {
    seq(|x|, i requires 0 <= i < |x| => Clamp(x[i] / QuantScale(x)))
  }

  lemma DivideBack(v: real, s: real)
    requires s > 0.0
    ensures Mul(s, v / s) == v
  {
  }

  lemma MulMono(s: real, a: real, b: real)
    requires s > 0.0 && Mul(s, a) <= Mul(s, b)
    ensures a <= b
  {
    if a > b {
      MulStrict(s, b, a);
    }
  }

  lemma MulStrict(s: real, a: real, b: real)
    requires s > 0.0 && a < b
    ensures Mul(s, a) < Mul(s, b)
  {
  }

  /** The clamp to [-448, 448] never changes a value: the scale already brings every entry inside. */
  lemma ClampIdle(x: Vec, i: nat)
    requires i < |x|
    ensures -FP8_MAX <= x[i] / QuantScale(x) <= FP8_MAX
    ensures Quantise(x)[i] == x[i] / QuantScale(x)
  {
    var s := QuantScale(x);
    var a := s * FP8_MAX;
    assert Abs(x[i]) <= a;
    DivideBack(x[i], s);
    assert Mul(s, FP8_MAX) == a && Mul(s, -FP8_MAX) == -a;
    MulMono(s, x[i] / s, FP8_MAX);
    MulMono(s, -FP8_MAX, x[i] / s);
  }

  /** Without rounding, the scale undoes the quantisation. */
  lemma Dequantises(x: Vec)
    ensures Scale(QuantScale(x), Quantise(x)) == x
  {
    forall i | 0 <= i < |x| ensures Scale(QuantScale(x), Quantise(x))[i] == x[i] {
      ClampIdle(x, i);
      DivideBack(x[i], QuantScale(x));
    }
  }

  // ----- The two scores of one block

  /** One head: its query after the Hadamard transform, and its weight times weight_scale. */
  datatype Head = Head(q: Vec, weight: real)

  ghost predicate HeadsOk(heads: seq<Head>, d: nat) {
    forall h :: 0 <= h < |heads| ==> |heads[h].q| == d
  }

  /** The checkpoint branch, and the trainable model: dequantise the key, score, weigh, sum. */
  function DequantScore(heads: seq<Head>, key: Vec, keyScale: real): real
    requires HeadsOk(heads, |key|)
  {
    if heads == [] then 0.0
    else
      var n := |heads| - 1;
      DequantScore(heads[..n], key, keyScale)
      + Mul(Relu(Dot(heads[n].q, Scale(keyScale, key))), heads[n].weight)
  }

  /** The head sum of the original branch: quantised query and key, the query scale in the weight. */
  function QuantSum(heads: seq<Head>, key: Vec): real
    requires HeadsOk(heads, |key|)
  {
    if heads == [] then 0.0
    else
      var n := |heads| - 1;
      QuantSum(heads[..n], key)
      + Mul(Relu(Dot(Quantise(heads[n].q), key)), Mul(heads[n].weight, QuantScale(heads[n].q)))
  }

  function QuantScore(heads: seq<Head>, key: Vec, keyScale: real): real
    requires HeadsOk(heads, |key|)
  {
    Mul(QuantSum(heads, key), keyScale)
  }

  lemma {:induction false} DotScaleLeft(c: real, x: Vec, y: Vec)
    requires |x| == |y|
    ensures Dot(Scale(c, x), y) == Mul(c, Dot(x, y))
  {
    if x != [] {
      DotScaleLeft(c, x[1..], y[1..]);
      ScaleTail(c, x);
      Regroup(c, x[0], y[0]);
      Distribute(c, Mul(x[0], y[0]), Dot(x[1..], y[1..]));
    }
  }

  lemma Regroup(c: real, v: real, w: real)
    ensures Mul(Mul(c, v), w) == Mul(c, Mul(v, w))
    ensures Mul(v, Mul(c, w)) == Mul(c, Mul(v, w))
  {
  }

  lemma {:induction false} DotSymmetric(x: Vec, y: Vec)
    requires |x| == |y|
    ensures Dot(x, y) == Dot(y, x)
  {
    if x != [] {
      DotSymmetric(x[1..], y[1..]);
    }
  }

  lemma ReluScale(c: real, v: real)
    requires c >= 0.0
    ensures Relu(Mul(c, v)) == Mul(c, Relu(v))
  {
  }

  /** The dequantised product, with both scales pulled out. */
  lemma DotBothScales(q: Vec, key: Vec, keyScale: real)
    requires |q| == |key|
    ensures Dot(q, Scale(keyScale, key)) == Mul(keyScale, Mul(QuantScale(q), Dot(Quantise(q), key)))
  {
    var s, x := QuantScale(q), Quantise(q);
    Dequantises(q);
    DotSymmetric(q, Scale(keyScale, key));
    DotScaleLeft(keyScale, key, q);
    DotSymmetric(key, q);
    DotScaleLeft(s, x, key);
  }

  lemma HeadAgrees(h: Head, key: Vec, keyScale: real)
    requires |h.q| == |key| && keyScale >= 0.0
    ensures Mul(Relu(Dot(h.q, Scale(keyScale, key))), h.weight)
         == Mul(Mul(Relu(Dot(Quantise(h.q), key)), Mul(h.weight, QuantScale(h.q))), keyScale)
  {
    var s, v := QuantScale(h.q), Dot(Quantise(h.q), key);
    DotBothScales(h.q, key, keyScale);
    ReluScale(s, v);
    ReluScale(keyScale, Mul(s, v));
    Shuffle(keyScale, s, Relu(v), h.weight);
  }

  lemma Shuffle(a: real, b: real, v: real, w: real)
    ensures Mul(Mul(a, Mul(b, v)), w) == Mul(Mul(v, Mul(w, b)), a)
  {
    assert a * (b * v) * w == v * (w * b) * a;
  }

  lemma DistributeRight(v: real, w: real, c: real)
    ensures Mul(v + w, c) == Mul(v, c) + Mul(w, c)
  {
  }

  /** For key scales that are not negative the two branches give the same score, for every block, every
      number of heads and any weights. */
  lemma {:induction false} ScoreFormsAgree(heads: seq<Head>, key: Vec, keyScale: real)
    requires HeadsOk(heads, |key|) && keyScale >= 0.0
    ensures QuantScore(heads, key, keyScale) == DequantScore(heads, key, keyScale)
  {
    if heads != [] {
      var n := |heads| - 1;
      var h := heads[n];
      ScoreFormsAgree(heads[..n], key, keyScale);
      HeadAgrees(h, key, keyScale);
      DistributeRight(QuantSum(heads[..n], key),
                      Mul(Relu(Dot(Quantise(h.q), key)), Mul(h.weight, QuantScale(h.q))), keyScale);
    }
  }

  ghost predicate IsZero(v: Vec) {
    forall i :: 0 <= i < |v| ==> v[i] == 0.0
  }

  lemma {:induction false} DotZero(x: Vec, z: Vec)
    requires |x| == |z| && IsZero(z)
    ensures Dot(x, z) == 0.0
  {
    if x != [] {
      DotZero(x[1..], z[1..]);
    }
  }

  lemma {:induction false} DotSelf(v: Vec)
    ensures Dot(v, v) >= 0.0
    ensures Dot(v, v) == 0.0 <==> IsZero(v)
  {
    if v != [] {
      DotSelf(v[1..]);
      Square(v[0]);
      assert v == [v[0]] + v[1..];
      if IsZero(v) {
        assert IsZero(v[1..]);
      }
    }
  }

  lemma Square(x: real)
    ensures Mul(x, x) >= 0.0 && (Mul(x, x) == 0.0 <==> x == 0.0)
  {
    if x > 0.0 {
      MulStrict(x, 0.0, x);
    } else if x < 0.0 {
      MulStrict(-x, 0.0, -x);
      assert Mul(-x, -x) == Mul(x, x);
    }
  }

  lemma {:induction false} ZeroKeyScores(heads: seq<Head>, key: Vec, keyScale: real)
    requires HeadsOk(heads, |key|) && IsZero(key)
    ensures QuantScore(heads, key, keyScale) == 0.0 == DequantScore(heads, key, keyScale)
    ensures QuantSum(heads, key) == 0.0
  {
    if heads != [] {
      var n := |heads| - 1;
      ZeroKeyScores(heads[..n], key, keyScale);
      DotZero(heads[n].q, Scale(keyScale, key));
      DotZero(Quantise(heads[n].q), key);
    }
  }

  /** Exactly when the forms agree for every set of heads: a key scale that is not negative, or a zero key. */
  lemma ScoreFormsAgreeIff(key: Vec, keyScale: real)
    ensures (forall heads: seq<Head> :: HeadsOk(heads, |key|) ==>
               QuantScore(heads, key, keyScale) == DequantScore(heads, key, keyScale))
        <==> keyScale >= 0.0 || IsZero(key)
  {
    if keyScale >= 0.0 {
      forall heads: seq<Head> | HeadsOk(heads, |key|)
        ensures QuantScore(heads, key, keyScale) == DequantScore(heads, key, keyScale)
      {
        ScoreFormsAgree(heads, key, keyScale);
      }
    } else if IsZero(key) {
      forall heads: seq<Head> | HeadsOk(heads, |key|)
        ensures QuantScore(heads, key, keyScale) == DequantScore(heads, key, keyScale)
      {
        ZeroKeyScores(heads, key, keyScale);
      }
    } else {
      NegativeScaleDiffers(key, keyScale);
    }
  }

  lemma NegativeScaleDiffers(key: Vec, keyScale: real)
    requires keyScale < 0.0 && !IsZero(key)
    ensures var heads := [Head(key, 1.0)];
            HeadsOk(heads, |key|) && QuantScore(heads, key, keyScale) < 0.0 == DequantScore(heads, key, keyScale)
  {
    var h := Head(key, 1.0);
    var s, v := QuantScale(key), Dot(Quantise(key), key);
    assert [h][..0] == [];
    DotSelf(key);
    DotBothScales(key, key, 1.0);
    assert Scale(1.0, key) == key;
    assert Mul(s, v) == Dot(key, key) > 0.0;
    PositiveFactor(s, v);
    DotBothScales(key, key, keyScale);
    NegativeProduct(keyScale, Mul(s, v));
    assert DequantScore([h], key, keyScale) == 0.0 + Mul(0.0, 1.0);
    assert QuantSum([h], key) == 0.0 + Mul(v, Mul(1.0, s));
    Regroup(1.0, v, s);
    assert Mul(v, Mul(1.0, s)) == Mul(s, v);
    NegativeProduct(keyScale, Mul(s, v));
  }

  lemma PositiveFactor(s: real, v: real)
    requires s > 0.0 && Mul(s, v) > 0.0
    ensures v > 0.0
  {
  }

  lemma NegativeProduct(c: real, v: real)
    requires c < 0.0 && v > 0.0
    ensures Mul(c, v) < 0.0 && Mul(v, c) < 0.0
  {
  }
}
