/** Multiplication and division by repeated addition and subtraction, shared by the other modules. */
module Arith {

  /** `j * b`, in a form that keeps proofs linear. */
  function Times(j: nat, b: nat): nat {
    if j == 0 then 0 else b + Times(j - 1, b)
  }

  /** `n / b`, likewise. */
  function Quotient(n: nat, b: nat): nat
    requires b > 0
  {
    if n < b then 0 else 1 + Quotient(n - b, b)
  }

  lemma {:induction false} TimesIs(j: nat, b: nat)
    ensures Times(j, b) == j * b
  {
    if j > 0 {
      TimesIs(j - 1, b);
      assert j * b == (j - 1) * b + b;
    }
  }

  lemma {:induction false} TimesAdd(j: nat, k: nat, b: nat)
    ensures Times(j + k, b) == Times(j, b) + Times(k, b)
  {
    if j > 0 {
      TimesAdd(j - 1, k, b);
    }
  }

  lemma {:induction false} QuotientBounds(n: nat, b: nat)
    requires b > 0
    ensures Times(Quotient(n, b), b) <= n < Times(Quotient(n, b), b) + b
  {
    if n >= b {
      QuotientBounds(n - b, b);
    }
  }

  lemma MulMono(j: nat, k: nat, b: nat)
    requires j <= k
    ensures j * b <= k * b
  {
  }

  lemma DivUnique(n: nat, b: nat, q: nat)
    requires b > 0 && q * b <= n < q * b + b
    ensures n / b == q
  {
    var d := n / b;
    assert d * b <= n < d * b + b;
    if d < q {
      MulMono(d + 1, q, b);
    } else if q < d {
      MulMono(q + 1, d, b);
    }
  }

  lemma QuotientIs(n: nat, b: nat)
    requires b > 0
    ensures Quotient(n, b) == n / b
  {
    QuotientBounds(n, b);
    TimesIs(Quotient(n, b), b);
    DivUnique(n, b, Quotient(n, b));
  }

  lemma TimesMono(j: nat, k: nat, b: nat)
    requires j <= k
    ensures Times(j, b) <= Times(k, b)
  {
    TimesAdd(j, k - j, b);
  }

  lemma {:induction false} QuotientMono(m: nat, n: nat, b: nat)
    requires b > 0 && m <= n
    ensures Quotient(m, b) <= Quotient(n, b)
  {
    if m >= b {
      QuotientMono(m - b, n - b, b);
    }
  }

  lemma {:induction false} QuotientNext(q: nat, w: nat)
    requires w > 0
    ensures Quotient(q + 1, w) == Quotient(q, w) + if Times(Quotient(q + 1, w), w) == q + 1 then 1 else 0
    ensures q >= w <==> Quotient(q, w) >= 1
  {
    if q >= w {
      QuotientNext(q - w, w);
    }
  }

  lemma WholeMultiple(n: nat, w: nat)
    requires w > 0
    ensures n % w == 0 <==> Times(Quotient(n, w), w) == n
  {
    QuotientIs(n, w);
    TimesIs(n / w, w);
    assert n == n / w * w + n % w;
  }

  lemma DivNext(q: nat, w: nat)
    requires w > 0
    ensures (q + 1) / w == q / w + if (q + 1) % w == 0 then 1 else 0
    ensures q < w ==> q / w == 0
    ensures q >= w ==> q / w >= 1
  {
    QuotientNext(q, w);
    QuotientIs(q, w);
    QuotientIs(q + 1, w);
    WholeMultiple(q + 1, w);
  }

  /** `n` is a multiple of `s`. */
  predicate Multiple(n: nat, s: nat)
    requires s > 0
  {
    n == 0 || (n >= s && Multiple(n - s, s))
  }

  lemma {:induction false} MultipleIs(n: nat, s: nat)
    requires s > 0
    ensures Multiple(n, s) <==> n % s == 0
  {
    if n >= s {
      MultipleIs(n - s, s);
      WholeMultiple(n, s);
      WholeMultiple(n - s, s);
    }
  }
}
