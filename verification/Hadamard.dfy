/** The normalised Walsh-Hadamard transform (training/utils.py, `hadamard_transform`), over the reals and
    for one vector; the source applies it to each vector of a batch. */
module Hadamard {
  import opened Arith
  import opened Wrappers

  type Vec = seq<real>

  // ----- Specification: the matrix of signs (-1)^popcount(i AND j)

  /** popcount(i AND j). */
  function AndCount(i: nat, j: nat): nat {
    if i == 0 || j == 0 then 0
    else (if i % 2 == 1 && j % 2 == 1 then 1 else 0) + AndCount(i / 2, j / 2)
  }

  predicate Odd(i: nat, j: nat) {
    AndCount(i, j) % 2 == 1
  }

  /** Where a sign matrix has a minus. */
  type Signs = (nat, nat) -> bool

  function Signed(minus: bool, v: real): real {
    if minus then -v else v
  }

  /** Row `i` of the matrix times the first `n` entries of `x`. */
  function RowSum(sg: Signs, x: Vec, i: nat, n: nat): real
    requires n <= |x|
  {
    if n == 0 then 0.0 else RowSum(sg, x, i, n - 1) + Signed(sg(i, n - 1), x[n - 1])
  }

  function TransformBy(sg: Signs, x: Vec): (y: Vec)
    ensures |y| == |x|
  {
    seq(|x|, i requires 0 <= i < |x| => RowSum(sg, x, i, |x|))
  }

  /** Entry i is the sum over j of (-1)^popcount(i AND j) * x[j]. */
  function Transform(x: Vec): (y: Vec)
    ensures |y| == |x|
  {
    TransformBy(Odd, x)
  }

  function Add(x: Vec, y: Vec): (z: Vec)
    requires |x| == |y|
    ensures |z| == |x|
  {
    seq(|x|, i requires 0 <= i < |x| => x[i] + y[i])
  }

  function Sub(x: Vec, y: Vec): (z: Vec)
    requires |x| == |y|
    ensures |z| == |x|
  {
    seq(|x|, i requires 0 <= i < |x| => x[i] - y[i])
  }

  function Mul(c: real, v: real): real {
    c * v
  }

  function Scale(c: real, x: Vec): (z: Vec)
    ensures |z| == |x|
  {
    seq(|x|, i requires 0 <= i < |x| => Mul(c, x[i]))
  }

  function Dot(x: Vec, y: Vec): real
    requires |x| == |y|
  {
    if x == [] then 0.0 else Mul(x[0], y[0]) + Dot(x[1..], y[1..])
  }

  function Unit(n: nat, i: nat): (u: Vec)
    ensures |u| == n
  {
    seq(n, j requires 0 <= j < n => if j == i then 1.0 else 0.0)
  }

  lemma {:induction false} DotZero(x: Vec, y: Vec)
    requires |x| == |y| && forall j :: 0 <= j < |y| ==> y[j] == 0.0
    ensures Dot(x, y) == 0.0
  {
    if x != [] {
      DotZero(x[1..], y[1..]);
    }
  }

  /** The inner product with a unit vector is the entry there. */
  lemma {:induction false} DotPicks(x: Vec, i: nat)
    requires i < |x|
    ensures Dot(x, Unit(|x|, i)) == x[i]
  {
    var u := Unit(|x|, i);
    if i == 0 {
      DotZero(x[1..], u[1..]);
    } else {
      DotPicks(x[1..], i - 1);
      assert u[1..] == Unit(|x| - 1, i - 1);
    }
  }

  // ----- Powers of two

  predicate IsPow2(d: nat) {
    d == 1 || (d > 0 && d % 2 == 0 && IsPow2(d / 2))
  }

  lemma {:induction false} AndSelf(m: nat)
    ensures AndCount(m, m) == 0 <==> m == 0
  {
    if m > 0 {
      AndSelf(m / 2);
    }
  }

  /** The source's guard `d & (d - 1) == 0` accepts exactly the powers of two. */
  lemma {:induction false} GuardIsPow2(d: nat)
    requires d > 0
    ensures AndCount(d, d - 1) == 0 <==> IsPow2(d)
  {
    if d > 1 {
      if d % 2 == 1 {
        assert (d - 1) / 2 == d / 2;
        AndSelf(d / 2);
      } else {
        assert (d - 1) / 2 == d / 2 - 1;
        GuardIsPow2(d / 2);
      }
    }
  }

  /** Doubling `s` k times. */
  function Doubled(s: nat, k: nat): nat
    decreases k
  {
    if k == 0 then s else Doubled(2 * s, k - 1)
  }

  lemma {:induction false} DoubledTwice(s: nat, k: nat)
    ensures Doubled(2 * s, k) == 2 * Doubled(s, k)
    decreases k
  {
    if k > 0 {
      DoubledTwice(2 * s, k - 1);
    }
  }

  lemma {:induction false} Pow2Doubles(d: nat) returns (k: nat)
    requires IsPow2(d)
    ensures d == Doubled(1, k)
  {
    if d == 1 {
      k := 0;
    } else {
      var m := Pow2Doubles(d / 2);
      DoubledTwice(1, m);
      k := m + 1;
    }
  }

  lemma {:induction false} MultipleFiner(n: nat, s: nat)
    requires s > 0 && Multiple(n, 2 * s)
    ensures Multiple(n, s)
  {
    if n > 0 {
      MultipleFiner(n - 2 * s, s);
    }
  }

  lemma {:induction false} DoubledMultiple(s: nat, k: nat)
    requires s > 0
    ensures Multiple(Doubled(s, k), s) && Doubled(s, k) >= s
    decreases k
  {
    if k == 0 {
      assert Multiple(0, s);
    } else {
      DoubledMultiple(2 * s, k - 1);
      MultipleFiner(Doubled(s, k), s);
    }
  }

  // ----- One pass of the loop: view as blocks of two halves a, b and restack as a + b, a - b

  function Stage(h: Vec, s: nat): (r: Vec)
    requires s > 0 && Multiple(|h|, 2 * s)
    ensures |r| == |h|
    decreases |h|
  {
    if h == [] then []
    else
      var a, b := h[..s], h[s..2 * s];
      Add(a, b) + Sub(a, b) + Stage(h[2 * s..], s)
  }

  /** Each block of `s` entries transformed by itself. */
  function BlockTransform(x: Vec, s: nat): (r: Vec)
    requires s > 0 && Multiple(|x|, s)
    ensures |r| == |x|
    decreases |x|
  {
    if x == [] then [] else Transform(x[..s]) + BlockTransform(x[s..], s)
  }

  // ----- The butterfly identity

  lemma {:induction false} TopBit(s: nat, i: nat, j: nat)
    requires IsPow2(s) && i < s && j < s
    ensures AndCount(s + i, j) == AndCount(i, j)
    ensures AndCount(i, s + j) == AndCount(i, j)
    ensures AndCount(s + i, s + j) == AndCount(i, j) + 1
    decreases s
  {
    if s > 1 {
      var m := s / 2;
      assert (s + i) / 2 == m + i / 2 && (s + j) / 2 == m + j / 2;
      assert (s + i) % 2 == i % 2 && (s + j) % 2 == j % 2;
      TopBit(m, i / 2, j / 2);
    } else {
      assert AndCount(1, 1) == 1 + AndCount(0, 0);
    }
  }

  /** The matrix of size 2m repeats that of size m in three quarters and negates it in the fourth. */
  ghost predicate Doubles(sg: Signs, m: nat) {
    forall i: nat, j: nat :: i < m && j < m ==>
      sg(m + i, j) == sg(i, j) && sg(i, m + j) == sg(i, j) && sg(m + i, m + j) == !sg(i, j)
  }

  lemma OddTop(m: nat, i: nat, j: nat)
    requires IsPow2(m) && i < m && j < m
    ensures Odd(m + i, j) == Odd(i, j) && Odd(i, m + j) == Odd(i, j)
    ensures Odd(m + i, m + j) == !Odd(i, j)
  {
    TopBit(m, i, j);
    OddNext(AndCount(i, j));
  }

  lemma OddNext(n: nat)
    ensures (n + 1) % 2 == 1 <==> n % 2 != 1
  {
  }

  lemma OddDoubles(m: nat)
    requires IsPow2(m)
    ensures Doubles(Odd, m)
  {
    forall i: nat, j: nat | i < m && j < m
      ensures Odd(m + i, j) == Odd(i, j) && Odd(i, m + j) == Odd(i, j) && Odd(m + i, m + j) == !Odd(i, j)
    {
      OddTop(m, i, j);
    }
  }

  lemma {:induction false} RowLow(sg: Signs, a: Vec, b: Vec, x: Vec, i: nat, n: nat)
    requires Doubles(sg, |a|) && |b| == |a| && i < |a| && n <= |a| && x == a + b
    ensures RowSum(sg, x, i, n) == RowSum(sg, a, i, n) == RowSum(sg, x, |a| + i, n)
  {
    if n > 0 {
      RowLow(sg, a, b, x, i, n - 1);
    }
  }

  lemma {:induction false} RowHigh(sg: Signs, a: Vec, b: Vec, x: Vec, i: nat, n: nat)
    requires Doubles(sg, |a|) && |b| == |a| && i < |a| && n <= |b| && x == a + b
    ensures RowSum(sg, x, i, |a| + n) == RowSum(sg, a, i, |a|) + RowSum(sg, b, i, n)
    ensures RowSum(sg, x, |a| + i, |a| + n) == RowSum(sg, a, i, |a|) - RowSum(sg, b, i, n)
  {
    if n == 0 {
      RowLow(sg, a, b, x, i, |a|);
    } else {
      RowHigh(sg, a, b, x, i, n - 1);
      assert x[|a| + n - 1] == b[n - 1];
      assert sg(i, |a| + (n - 1)) == sg(i, n - 1) && sg(|a| + i, |a| + (n - 1)) == !sg(i, n - 1);
    }
  }

  /** Transforming two halves and combining them by sum and difference transforms the whole. */
  lemma Butterfly(a: Vec, b: Vec)
    requires IsPow2(|a|) && |a| == |b|
    ensures Transform(a + b) == Add(Transform(a), Transform(b)) + Sub(Transform(a), Transform(b))
  {
    OddDoubles(|a|);
    ButterflyBy(Odd, a, b);
  }

  lemma ButterflyBy(sg: Signs, a: Vec, b: Vec)
    requires Doubles(sg, |a|) && |a| == |b|
    ensures var p, q := TransformBy(sg, a), TransformBy(sg, b);
            TransformBy(sg, a + b) == Add(p, q) + Sub(p, q)
  {
    var x, p, q := a + b, TransformBy(sg, a), TransformBy(sg, b);
    forall k | 0 <= k < |a|
      ensures TransformBy(sg, x)[k] == Add(p, q)[k] && TransformBy(sg, x)[|a| + k] == Sub(p, q)[k]
    {
      RowHigh(sg, a, b, x, k, |b|);
    }
    SplitAt(TransformBy(sg, x), Add(p, q), Sub(p, q));
  }

  lemma SplitAt(x: Vec, u: Vec, v: Vec)
    requires |x| == |u| + |v| && |u| == |v|
    requires forall k :: 0 <= k < |u| ==> x[k] == u[k] && x[|u| + k] == v[k]
    ensures x == u + v
  {
    forall k | 0 <= k < |x| ensures x[k] == (u + v)[k] {
      assert k >= |u| ==> x[|u| + (k - |u|)] == v[k - |u|];
    }
  }

  /** The first two blocks and the rest. */
  lemma TwoBlocks(x: Vec, s: nat)
    requires s > 0 && x != [] && Multiple(|x|, s) && Multiple(|x|, 2 * s)
    ensures |x| >= 2 * s && Multiple(|x[2 * s..]|, s) && Multiple(|x[2 * s..]|, 2 * s)
    ensures BlockTransform(x, s) == Transform(x[..s]) + (Transform(x[s..2 * s]) + BlockTransform(x[2 * s..], s))
  {
    MultipleFiner(|x| - 2 * s, s);
    var y := x[s..];
    assert y[..s] == x[s..2 * s] && y[s..] == x[2 * s..];
    assert BlockTransform(y, s) == Transform(y[..s]) + BlockTransform(y[s..], s);
  }

  lemma Slices(p: Vec, q: Vec, r: Vec, s: nat)
    requires |p| == |q| == s
    ensures var h := p + (q + r); h[..s] == p && h[s..2 * s] == q && h[2 * s..] == r
  {
  }

  lemma {:induction false} StageStep(x: Vec, s: nat)
    requires IsPow2(s) && Multiple(|x|, s) && Multiple(|x|, 2 * s)
    ensures Stage(BlockTransform(x, s), s) == BlockTransform(x, 2 * s)
    decreases |x|
  {
    if x != [] {
      TwoBlocks(x, s);
      var a, b, rest := x[..s], x[s..2 * s], x[2 * s..];
      var h := BlockTransform(x, s);
      Slices(Transform(a), Transform(b), BlockTransform(rest, s), s);
      assert Stage(h, s) == Add(h[..s], h[s..2 * s]) + Sub(h[..s], h[s..2 * s]) + Stage(h[2 * s..], s);
      Butterfly(a, b);
      assert x[..2 * s] == a + b;
      StageStep(rest, s);
    }
  }

  lemma TransformSingle(x: Vec)
    requires |x| == 1
    ensures Transform(x) == x
  {
    assert !Odd(0, 0);
    assert RowSum(Odd, x, 0, 1) == RowSum(Odd, x, 0, 0) + Signed(Odd(0, 0), x[0]);
  }

  lemma {:induction false} SingleBlocks(x: Vec)
    requires Multiple(|x|, 1)
    ensures BlockTransform(x, 1) == x
    decreases |x|
  {
    if x != [] {
      SingleBlocks(x[1..]);
      TransformSingle(x[..1]);
    }
  }

  lemma WholeBlock(x: Vec)
    requires |x| > 0 && Multiple(|x|, |x|)
    ensures BlockTransform(x, |x|) == Transform(x)
  {
    assert x[..|x|] == x && x[|x|..] == [];
  }

  /** After the passes for 1, 2, ..., s/2: every block of `s` entries is transformed, and d is s doubled k
      times. */
  ghost predicate PassesDone(x: Vec, h: Vec, s: nat, k: nat) {
    && IsPow2(s) && |x| == Doubled(s, k) && s <= |x| && Multiple(|x|, s)
    && h == BlockTransform(x, s)
  }

  lemma FirstPass(x: Vec) returns (k: nat)
    requires IsPow2(|x|)
    ensures PassesDone(x, x, 1, k)
  {
    k := Pow2Doubles(|x|);
    DoubledMultiple(1, k);
    SingleBlocks(x);
  }

  lemma NextPass(x: Vec, h: Vec, s: nat, k: nat)
    requires PassesDone(x, h, s, k) && s < |x|
    ensures k > 0 && Multiple(|h|, 2 * s) && PassesDone(x, Stage(h, s), 2 * s, k - 1)
  {
    assert |x| == Doubled(2 * s, k - 1);
    DoubledMultiple(2 * s, k - 1);
    assert IsPow2(2 * s) by {
      assert 2 * s / 2 == s && 2 * s % 2 == 0;
    }
    StageStep(x, s);
  }

  /** The guard and the loop. They fail exactly when the length is not a power of two; otherwise the
      loop ends with s == d and leaves the transform by the sign matrix. */
  method Butterflies(x: Vec) returns (r: Result<Vec>)
    ensures r.Ok? <==> IsPow2(|x|)
    ensures r.Ok? ==> r.value == Transform(x)
  {
    var d := |x|;
    if d == 0 {
      return Err;
    }
    GuardIsPow2(d);
    if AndCount(d, d - 1) != 0 {
      return Err;
    }
    var h := x;
    var s := 1;
    ghost var k := FirstPass(x);
    while s < d
      invariant PassesDone(x, h, s, k)
      decreases d - s
    {
      NextPass(x, h, s, k);
      h := Stage(h, s);
      s := 2 * s;
      k := k - 1;
    }
    WholeBlock(x);
    r := Ok(h);
  }

  /** The whole function, with math.sqrt(d) given as `root`. */
  method HadamardTransform(x: Vec, root: real) returns (r: Result<Vec>)
    requires root > 0.0 && root * root == |x| as real
    ensures r.Ok? <==> IsPow2(|x|)
    ensures r.Ok? ==> r.value == Normalised(x, root)
    ensures r.Ok? ==> |r.value| == |x| && forall i: nat :: i < |x| ==> root * r.value[i] == RowSum(Odd, x, i, |x|)
  {
    r := Butterflies(x);
    if r.Ok? {
      r := Ok(Scale(1.0 / root, r.value));
      NormalisedEntries(x, root);
    }
  }

  /** Times the root, entry i is the sum over j of (-1)^popcount(i AND j) * x[j]. */
  lemma NormalisedEntries(x: Vec, root: real)
    requires root > 0.0
    ensures forall i: nat :: i < |x| ==> root * Normalised(x, root)[i] == RowSum(Odd, x, i, |x|)
  {
    Reciprocal(root);
    forall i: nat | i < |x| ensures root * Normalised(x, root)[i] == RowSum(Odd, x, i, |x|) {
      assert Normalised(x, root)[i] == Mul(1.0 / root, Transform(x)[i]);
      Cancel(root, 1.0 / root, Transform(x)[i]);
    }
  }

  function Normalised(x: Vec, root: real): (y: Vec)
    requires root != 0.0
    ensures |y| == |x|
  {
    Scale(1.0 / root, Transform(x))
  }

  // ----- Linearity, self-inverse, inner products

  lemma {:induction false} RowLinear(sg: Signs, x: Vec, y: Vec, i: nat, n: nat)
    requires |x| == |y| && n <= |x|
    ensures RowSum(sg, Add(x, y), i, n) == RowSum(sg, x, i, n) + RowSum(sg, y, i, n)
    ensures RowSum(sg, Sub(x, y), i, n) == RowSum(sg, x, i, n) - RowSum(sg, y, i, n)
  {
    if n > 0 {
      RowLinear(sg, x, y, i, n - 1);
    }
  }

  lemma {:induction false} RowScale(sg: Signs, c: real, x: Vec, i: nat, n: nat)
    requires n <= |x|
    ensures RowSum(sg, Scale(c, x), i, n) == Mul(c, RowSum(sg, x, i, n))
  {
    if n > 0 {
      RowScale(sg, c, x, i, n - 1);
      SignedScale(c, sg(i, n - 1), x[n - 1]);
      Distribute(c, RowSum(sg, x, i, n - 1), Signed(sg(i, n - 1), x[n - 1]));
    }
  }

  lemma SignedScale(c: real, minus: bool, v: real)
    ensures Signed(minus, Mul(c, v)) == Mul(c, Signed(minus, v))
  {
  }

  lemma Distribute(c: real, v: real, w: real)
    ensures Mul(c, v + w) == Mul(c, v) + Mul(c, w)
  {
  }

  lemma Associate(c: real, d: real, v: real)
    ensures Mul(c, Mul(d, v)) == Mul(c * d, v)
  {
  }

  lemma TransformLinear(x: Vec, y: Vec)
    requires |x| == |y|
    ensures Transform(Add(x, y)) == Add(Transform(x), Transform(y))
    ensures Transform(Sub(x, y)) == Sub(Transform(x), Transform(y))
  {
    forall i | 0 <= i < |x|
      ensures Transform(Add(x, y))[i] == Add(Transform(x), Transform(y))[i]
      ensures Transform(Sub(x, y))[i] == Sub(Transform(x), Transform(y))[i]
    {
      RowLinear(Odd, x, y, i, |x|);
    }
  }

  lemma TransformScale(c: real, x: Vec)
    ensures Transform(Scale(c, x)) == Scale(c, Transform(x))
  {
    forall i | 0 <= i < |x| ensures Transform(Scale(c, x))[i] == Scale(c, Transform(x))[i] {
      RowScale(Odd, c, x, i, |x|);
    }
  }

  lemma Halves(x: Vec) returns (a: Vec, b: Vec)
    requires IsPow2(|x|) && |x| > 1
    ensures x == a + b && |a| == |b| == |x| / 2 && IsPow2(|a|)
  {
    a, b := x[..|x| / 2], x[|x| / 2..];
  }

  lemma SumAndDifference(p: Vec, q: Vec)
    requires |p| == |q|
    ensures Add(Add(p, q), Sub(p, q)) == Add(p, p)
    ensures Sub(Add(p, q), Sub(p, q)) == Add(q, q)
  {
  }

  lemma ScaleDoubles(m: real, x: Vec)
    ensures Add(Scale(m, x), Scale(m, x)) == Scale(2.0 * m, x)
  {
    forall i | 0 <= i < |x| ensures Add(Scale(m, x), Scale(m, x))[i] == Scale(2.0 * m, x)[i] {
      Associate(2.0, m, x[i]);
    }
  }

  lemma ScaleOne(x: Vec)
    ensures Scale(1.0, x) == x
  {
    forall i | 0 <= i < |x| ensures Scale(1.0, x)[i] == x[i] {
      assert Mul(1.0, x[i]) == x[i];
    }
  }

  /** Unnormalised, the transform applied twice multiplies by d. */
  lemma {:induction false} TransformTwice(x: Vec)
    requires IsPow2(|x|)
    ensures Transform(Transform(x)) == Scale(|x| as real, x)
    decreases |x|
  {
    if |x| == 1 {
      TransformSingle(x);
      ScaleOne(x);
    } else {
      var a, b := Halves(x);
      TwiceHalves(a, b);
      TransformTwice(a);
      TransformTwice(b);
      var m := |a| as real;
      ScaleDoubles(m, a);
      ScaleDoubles(m, b);
      ScaleAppend(2.0 * m, a, b);
      assert |x| as real == 2.0 * m;
    }
  }

  lemma ScaleAppend(c: real, a: Vec, b: Vec)
    ensures Scale(c, a + b) == Scale(c, a) + Scale(c, b)
  {
    var x, y := Scale(c, a + b), Scale(c, a) + Scale(c, b);
    forall i | 0 <= i < |x| ensures x[i] == y[i] {
      if i < |a| {
        assert (a + b)[i] == a[i];
      } else {
        assert (a + b)[i] == b[i - |a|];
      }
    }
  }

  lemma TwiceHalves(a: Vec, b: Vec)
    requires IsPow2(|a|) && |a| == |b|
    ensures var s, t := Transform(Transform(a)), Transform(Transform(b));
            Transform(Transform(a + b)) == Add(s, s) + Add(t, t)
  {
    var p, q := Transform(a), Transform(b);
    var u, v := Add(p, q), Sub(p, q);
    Butterfly(a, b);
    Butterfly(u, v);
    TransformLinear(u, v);
    SumAndDifference(p, q);
    TransformLinear(p, p);
    TransformLinear(q, q);
  }

  lemma {:induction false} DotAppend(a: Vec, b: Vec, c: Vec, d: Vec)
    requires |a| == |c| && |b| == |d|
    ensures Dot(a + b, c + d) == Dot(a, c) + Dot(b, d)
  {
    if a == [] {
      assert a + b == b && c + d == d;
    } else {
      assert (a + b)[1..] == a[1..] + b && (c + d)[1..] == c[1..] + d;
      DotAppend(a[1..], b, c[1..], d);
    }
  }

  lemma Corners(a: real, b: real, c: real, d: real)
    ensures Mul(a + b, c + d) + Mul(a - b, c - d) == 2.0 * Mul(a, c) + 2.0 * Mul(b, d)
  {
  }

  lemma {:induction false} Parallelogram(p: Vec, q: Vec, r: Vec, t: Vec)
    requires |p| == |q| == |r| == |t|
    ensures Dot(Add(p, q), Add(r, t)) + Dot(Sub(p, q), Sub(r, t)) == 2.0 * Dot(p, r) + 2.0 * Dot(q, t)
  {
    if p != [] {
      Parallelogram(p[1..], q[1..], r[1..], t[1..]);
      assert Add(p, q)[1..] == Add(p[1..], q[1..]) && Add(r, t)[1..] == Add(r[1..], t[1..]);
      assert Sub(p, q)[1..] == Sub(p[1..], q[1..]) && Sub(r, t)[1..] == Sub(r[1..], t[1..]);
      Corners(p[0], q[0], r[0], t[0]);
    }
  }

  lemma DotHalves(a: Vec, b: Vec, c: Vec, d: Vec)
    requires IsPow2(|a|) && |a| == |b| == |c| == |d|
    ensures Dot(Transform(a + b), Transform(c + d))
         == 2.0 * Dot(Transform(a), Transform(c)) + 2.0 * Dot(Transform(b), Transform(d))
  {
    var p, q, r, t := Transform(a), Transform(b), Transform(c), Transform(d);
    Butterfly(a, b);
    Butterfly(c, d);
    DotAppend(Add(p, q), Sub(p, q), Add(r, t), Sub(r, t));
    Parallelogram(p, q, r, t);
  }

  lemma DoubleFactor(m: real, v: real, w: real)
    ensures 2.0 * Mul(m, v) + 2.0 * Mul(m, w) == Mul(2.0 * m, v + w)
  {
  }

  /** Unnormalised, inner products are multiplied by d. */
  lemma {:induction false} TransformDot(x: Vec, y: Vec)
    requires IsPow2(|x|) && |x| == |y|
    ensures Dot(Transform(x), Transform(y)) == Mul(|x| as real, Dot(x, y))
    decreases |x|
  {
    if |x| == 1 {
      TransformSingle(x);
      TransformSingle(y);
    } else {
      var a, b := Halves(x);
      var c, d := Halves(y);
      DotHalves(a, b, c, d);
      TransformDot(a, c);
      TransformDot(b, d);
      DotAppend(a, b, c, d);
      DoubleFactor(|a| as real, Dot(a, c), Dot(b, d));
      assert |x| as real == 2.0 * (|a| as real);
    }
  }

  lemma ScaleTail(c: real, x: Vec)
    requires x != []
    ensures Scale(c, x)[1..] == Scale(c, x[1..])
  {
    var t, y := x[1..], Scale(c, x)[1..];
    forall i | 0 <= i < |t| ensures y[i] == Scale(c, t)[i] {
      assert t[i] == x[i + 1];
    }
  }

  lemma ProductOfScaled(c: real, v: real, w: real)
    ensures Mul(Mul(c, v), Mul(c, w)) == Mul(c, Mul(c, Mul(v, w)))
  {
    assert (c * v) * (c * w) == c * (c * (v * w));
  }

  lemma {:induction false} DotScale(c: real, x: Vec, y: Vec)
    requires |x| == |y|
    ensures Dot(Scale(c, x), Scale(c, y)) == Mul(c, Mul(c, Dot(x, y)))
  {
    if x != [] {
      DotScale(c, x[1..], y[1..]);
      ScaleTail(c, x);
      ScaleTail(c, y);
      var head, rest := Mul(x[0], y[0]), Dot(x[1..], y[1..]);
      ProductOfScaled(c, x[0], y[0]);
      Distribute(c, head, rest);
      Distribute(c, Mul(c, head), Mul(c, rest));
    }
  }

  lemma Cancel(c: real, root: real, v: real)
    requires c * root == 1.0
    ensures Mul(c, Mul(root, v)) == v
  {
    Associate(c, root, v);
  }

  lemma InverseSquare(c: real, root: real, d: real, v: real)
    requires c * root == 1.0 && root * root == d
    ensures Mul(c, Mul(c, Mul(d, v))) == v
  {
    Associate(root, root, v);
    Cancel(c, root, Mul(root, v));
    Cancel(c, root, v);
  }

  lemma ScaledBack(c: real, root: real, d: real, x: Vec)
    requires c * root == 1.0 && root * root == d
    ensures Scale(c, Scale(c, Scale(d, x))) == x
  {
    var y := Scale(c, Scale(c, Scale(d, x)));
    forall i | 0 <= i < |x| ensures y[i] == x[i] {
      assert y[i] == Mul(c, Mul(c, Mul(d, x[i])));
      InverseSquare(c, root, d, x[i]);
    }
  }

  lemma Reciprocal(root: real)
    requires root > 0.0
    ensures (1.0 / root) * root == 1.0
  {
  }

  lemma ScaledInvolution(c: real, root: real, x: Vec)
    requires IsPow2(|x|) && c * root == 1.0 && root * root == |x| as real
    ensures Scale(c, Transform(Scale(c, Transform(x)))) == x
  {
    TransformScale(c, Transform(x));
    TransformTwice(x);
    ScaledBack(c, root, |x| as real, x);
  }

  /** Divided by sqrt(d), the transform is its own inverse. */
  lemma NormalisedInvolution(x: Vec, root: real)
    requires IsPow2(|x|) && root > 0.0 && root * root == |x| as real
    ensures Normalised(Normalised(x, root), root) == x
  {
    Reciprocal(root);
    ScaledInvolution(1.0 / root, root, x);
  }

  lemma ScaledDot(c: real, root: real, x: Vec, y: Vec)
    requires IsPow2(|x|) && |x| == |y| && c * root == 1.0 && root * root == |x| as real
    ensures Dot(Scale(c, Transform(x)), Scale(c, Transform(y))) == Dot(x, y)
  {
    DotScale(c, Transform(x), Transform(y));
    TransformDot(x, y);
    InverseSquare(c, root, |x| as real, Dot(x, y));
  }

  /** Divided by sqrt(d), the transform preserves inner products. */
  lemma NormalisedDot(x: Vec, y: Vec, root: real)
    requires IsPow2(|x|) && |x| == |y| && root > 0.0 && root * root == |x| as real
    ensures Dot(Normalised(x, root), Normalised(y, root)) == Dot(x, y)
  {
    Reciprocal(root);
    ScaledDot(1.0 / root, root, x, y);
  }
}
