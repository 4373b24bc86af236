/** Lists of numbers: different ones, and counting. Shared by the other modules. */
module Lists {

  ghost predicate Distinct<T>(s: seq<T>) {
    forall i, j :: 0 <= i < j < |s| ==> s[i] != s[j]
  }

  ghost predicate Ascending(s: seq<nat>) {
    forall i, j :: 0 <= i < j < |s| ==> s[i] < s[j]
  }

  ghost predicate InRange(samples: seq<nat>, n: nat) {
    forall i :: 0 <= i < |samples| ==> samples[i] < n
  }

  /** Dropping the place of the largest number leaves different numbers below it. */
  lemma DropLargest(p: seq<nat>, k: nat, n: nat) returns (rest: seq<nat>)
    requires Distinct(p) && InRange(p, n) && k < |p| && p[k] == n - 1
    ensures Distinct(rest) && InRange(rest, n - 1) && |rest| == |p| - 1
    ensures forall x :: x in rest ==> x in p
  {
    rest := p[..k] + p[k + 1..];
    assert forall i :: 0 <= i < |rest| ==> rest[i] == if i < k then p[i] else p[i + 1];
  }

  lemma {:induction false} MissingNumber(p: seq<nat>, n: nat, x: nat)
    requires Distinct(p) && InRange(p, n) && x < n && x !in p
    ensures |p| < n
    decreases n
  {
    if n - 1 in p {
      var k :| 0 <= k < |p| && p[k] == n - 1;
      var rest := DropLargest(p, k, n);
      MissingNumber(rest, n - 1, x);
    } else if n - 1 == x {
      Pigeonhole(p, n - 1);
    } else {
      MissingNumber(p, n - 1, x);
    }
  }

  lemma {:induction false} Pigeonhole(p: seq<nat>, n: nat)
    requires Distinct(p) && InRange(p, n)
    ensures |p| <= n
    decreases n
  {
    if p != [] {
      assert p[0] < n;
      if n - 1 in p {
        var k :| 0 <= k < |p| && p[k] == n - 1;
        var rest := DropLargest(p, k, n);
        Pigeonhole(rest, n - 1);
      } else {
        Pigeonhole(p, n - 1);
      }
    }
  }

  /** A list of n different numbers below n contains every number below n. */
  lemma Covers(p: seq<nat>, n: nat, x: nat)
    requires Distinct(p) && InRange(p, n) && |p| == n && x < n
    ensures x in p
  {
    if x !in p {
      MissingNumber(p, n, x);
    }
  }

  // ----- Lists of lists

  /** All lists end to end. */
  function Flatten<T>(groups: seq<seq<T>>): seq<T> {
    if groups == [] then [] else groups[0] + Flatten(groups[1..])
  }

  lemma {:induction false} FlattenAppend<T>(x: seq<seq<T>>, y: seq<seq<T>>)
    ensures Flatten(x + y) == Flatten(x) + Flatten(y)
  {
    if x == [] {
      assert x + y == y;
    } else {
      assert (x + y)[1..] == x[1..] + y;
      FlattenAppend(x[1..], y);
    }
  }

  lemma FlattenLast<T>(groups: seq<seq<T>>)
    requires groups != []
    ensures Flatten(groups) == Flatten(groups[..|groups| - 1]) + groups[|groups| - 1]
  {
    var k := |groups| - 1;
    var last := [groups[k]];
    assert groups == groups[..k] + last;
    FlattenAppend(groups[..k], last);
    assert last[1..] == [];
    assert Flatten(last) == groups[k] + Flatten(last[1..]) == groups[k];
  }

  // ----- Counting

  function One(b: bool): nat {
    if b then 1 else 0
  }

  /** How often `x` occurs. */
  function Count(s: seq<nat>, x: nat): nat {
    if s == [] then 0 else Count(s[..|s| - 1], x) + One(s[|s| - 1] == x)
  }

  /** Growing a set by the new member `n` or not at all. */
  lemma OneMore(before: set<nat>, after: set<nat>, n: nat, grown: bool)
    requires n !in before && forall x :: x in after <==> x in before || (grown && x == n)
    ensures |after| == |before| + One(grown)
  {
    assert after == if grown then before + {n} else before;
  }

  lemma CountLast(s: seq<nat>, k: nat, x: nat)
    ensures Count(s + [k], x) == Count(s, x) + One(k == x)
    ensures Count([k], x) == One(k == x)
  {
    assert (s + [k])[..|s|] == s;
    assert [k][..0] == [];
  }

  lemma {:induction false} CountAppend(a: seq<nat>, b: seq<nat>, x: nat)
    ensures Count(a + b, x) == Count(a, x) + Count(b, x)
  {
    if b == [] {
      assert a + b == a;
    } else {
      var n := |b| - 1;
      CountAppend(a, b[..n], x);
      assert a + b == (a + b[..n]) + [b[n]];
      CountLast(a + b[..n], b[n], x);
    }
  }

  lemma {:induction false} CountMember(s: seq<nat>, x: nat)
    ensures Count(s, x) > 0 <==> x in s
    ensures Count(s, x) == multiset(s)[x]
  {
    if s != [] {
      var n := |s| - 1;
      CountMember(s[..n], x);
      assert s == s[..n] + [s[n]];
    }
  }
}
