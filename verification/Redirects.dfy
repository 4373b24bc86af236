/** Resolving redirected lines (sglang/benchmark/line_retrieval/gen_data.py, `generate_lines`, the links,
    rings and hop groups). A table says of each line whether it redirects and where to. */
module Redirects {
  import opened Lists
  import opened Wrappers

  type Table = seq<Option<nat>>

  ghost predicate Valid(t: Table) {
    forall i :: 0 <= i < |t| && t[i].Some? ==> t[i].value < |t|
  }

  // ----- What a chain is

  /** The line reached from `i` after `n` redirections; a line that does not redirect stays put. */
  ghost function Hop(t: Table, i: nat, n: nat): (j: nat)
    requires Valid(t) && i < |t|
    ensures j < |t|
  {
    if n == 0 then i
    else
      var j := Hop(t, i, n - 1);
      if t[j].Some? then t[j].value else j
  }

  /** The chain never reaches a line that does not redirect. */
  ghost predicate Endless(t: Table, i: nat)
    requires Valid(t) && i < |t|
  {
    forall n: nat :: t[Hop(t, i, n)].Some?
  }

  /** The lines reached by the first `n` redirections. */
  ghost function Chain(t: Table, i: nat, n: nat): (c: seq<nat>)
    requires Valid(t) && i < |t|
    ensures |c| == n
  {
    seq(n, k requires 0 <= k < n => Hop(t, i, k + 1))
  }

  /** The first `n` lines of the chain, starting with `i`, all redirect. */
  ghost predicate Redirecting(t: Table, i: nat, n: nat)
    requires Valid(t) && i < |t|
  {
    forall k: nat :: k < n ==> t[Hop(t, i, k)].Some?
  }

  ghost predicate NoRepeat(t: Table, i: nat, n: nat)
    requires Valid(t) && i < |t|
  {
    forall a: nat, b: nat :: a < b < n ==> Hop(t, i, a) != Hop(t, i, b)
  }

  /** Walking from `i`, the line `e`, first met after `a` steps, is the first to be met again, after `b`. */
  ghost predicate Reenters(t: Table, i: nat, e: nat, a: nat, b: nat)
    requires Valid(t) && i < |t|
  {
    a < b && Hop(t, i, a) == e && Hop(t, i, b) == e && NoRepeat(t, i, b)
  }

  /** `e` ends the chain of `i`: the line that holds the value, or the line where a ring closes. */
  ghost predicate EndsAt(t: Table, i: nat, e: nat)
    requires Valid(t) && i < |t|
  {
    if Endless(t, i) then exists a: nat, b: nat :: Reenters(t, i, e, a, b)
    else exists n: nat :: Redirecting(t, i, n) && Hop(t, i, n) == e && t[e].None?
  }

  lemma {:induction false} HopCompose(t: Table, i: nat, a: nat, n: nat)
    requires Valid(t) && i < |t|
    ensures Hop(t, Hop(t, i, a), n) == Hop(t, i, a + n)
  {
    if n > 0 {
      HopCompose(t, i, a, n - 1);
    }
  }

  lemma {:induction false} StaysInside(t: Table, i: nat, inside: set<nat>, n: nat)
    requires Valid(t) && i < |t| && i in inside
    requires forall x :: x in inside ==> x < |t| && t[x].Some? && t[x].value in inside
    ensures Hop(t, i, n) in inside
  {
    if n > 0 {
      StaysInside(t, i, inside, n - 1);
    }
  }

  /** A line where some ring closes is where its own chain closes. */
  lemma RingStartsAnywhere(t: Table, i: nat, e: nat, a: nat, b: nat, c: nat, x: nat, y: nat)
    requires Valid(t) && i < |t| && e < |t|
    requires Reenters(t, i, e, a, b) && Reenters(t, e, c, x, y)
    ensures c == e
  {
    var p := b - a;
    HopCompose(t, i, a, p);
    assert Hop(t, e, p) == e == Hop(t, e, 0);
    assert y <= p;
    forall k: nat, l: nat | k < l < p ensures Hop(t, e, k) != Hop(t, e, l) {
      HopCompose(t, i, a, k);
      HopCompose(t, i, a, l);
    }
    assert y == p;
  }

  // ----- The walk along one chain

  function AllLines(n: nat): (all: set<nat>)
    ensures forall x: nat :: x in all <==> x < n
  {
    if n == 0 then {} else AllLines(n - 1) + {n - 1}
  }

  /** `visited` is what the first `n` steps have met, without repetition and all redirecting. */
  ghost predicate Walked(t: Table, i: nat, n: nat, visited: set<nat>)
    requires Valid(t) && i < |t|
  {
    && (forall x :: x in visited <==> x in Trail(t, i, n))
    && Redirecting(t, i, n) && NoRepeat(t, i, n)
  }

  /** `i` and the lines after it, `n` in all. */
  ghost function Trail(t: Table, i: nat, n: nat): (c: seq<nat>)
    requires Valid(t) && i < |t|
    ensures |c| == n
  {
    seq(n, k requires 0 <= k < n => Hop(t, i, k))
  }

  lemma WalkedStep(t: Table, i: nat, n: nat, visited: set<nat>)
    requires Valid(t) && i < |t| && Walked(t, i, n, visited)
    requires Hop(t, i, n) !in visited && t[Hop(t, i, n)].Some?
    ensures Walked(t, i, n + 1, visited + {Hop(t, i, n)})
    ensures Hop(t, i, n + 1) == t[Hop(t, i, n)].value
    ensures Chain(t, i, n + 1) == Chain(t, i, n) + [Hop(t, i, n + 1)]
  {
    assert Trail(t, i, n + 1) == Trail(t, i, n) + [Hop(t, i, n)];
    forall a: nat | a < n ensures Hop(t, i, a) != Hop(t, i, n) {
      assert Trail(t, i, n)[a] == Hop(t, i, a);
    }
  }

  ghost predicate WalkResult(t: Table, i: nat, link: seq<nat>, cur: nat)
    requires Valid(t) && i < |t| && cur < |t|
  {
    var n := |link|;
    link == Chain(t, i, n) && Redirecting(t, i, n) && cur == Hop(t, i, n) && t[cur].None?
  }

  lemma WalkEnds(t: Table, i: nat, link: seq<nat>, cur: nat)
    requires Valid(t) && i < |t| && cur < |t| && WalkResult(t, i, link, cur)
    ensures !Endless(t, i) && EndsAt(t, i, cur)
  {
    assert !Endless(t, i);
  }

  /** The inner loop: follow redirections from a redirecting line until a line that does not redirect
      or one met before. */
  method Walk(t: Table, i: nat) returns (link: Option<seq<nat>>, cur: nat)
    requires Valid(t) && i < |t| && t[i].Some?
    ensures cur < |t| && EndsAt(t, i, cur)
    ensures link.None? <==> Endless(t, i)
    ensures link.Some? ==> WalkResult(t, i, link.value, cur)
  {
    var tmp: seq<nat> := [];
    cur := i;
    var visited: set<nat> := {};
    while t[cur].Some?
      invariant cur < |t| && cur == Hop(t, i, |tmp|) && tmp == Chain(t, i, |tmp|)
      invariant visited <= AllLines(|t|) && cur !in visited && Walked(t, i, |tmp|, visited)
      decreases AllLines(|t|) - visited
    {
      WalkedStep(t, i, |tmp|, visited);
      visited := visited + {cur};
      tmp := tmp + [t[cur].value];
      cur := t[cur].value;
      if cur in visited {
        RingFound(t, i, |tmp|, visited);
        return None, cur;
      }
    }
    WalkEnds(t, i, tmp, cur);
    return Some(tmp), cur;
  }

  lemma HopNext(t: Table, i: nat, k: nat)
    requires Valid(t) && i < |t| && t[Hop(t, i, k)].Some?
    ensures Hop(t, i, k + 1) == t[Hop(t, i, k)].value
  {
  }

  lemma TrailHas(t: Table, i: nat, n: nat, k: nat)
    requires Valid(t) && i < |t| && k < n
    ensures Trail(t, i, n)[k] == Hop(t, i, k)
  {
  }

  /** Once a line is met again, the lines met so far lead only to each other. */
  lemma RingCloses(t: Table, i: nat, n: nat, trail: seq<nat>, k: nat)
    requires Valid(t) && i < |t| && Redirecting(t, i, n) && trail == Trail(t, i, n) && Hop(t, i, n) in trail && k < n
    ensures trail[k] < |t| && t[trail[k]].Some? && t[trail[k]].value in trail
  {
    TrailHas(t, i, n, k);
    HopNext(t, i, k);
    if k + 1 < n {
      TrailHas(t, i, n, k + 1);
      assert trail[k + 1] in trail;
    }
  }

  lemma RingFound(t: Table, i: nat, n: nat, visited: set<nat>)
    requires Valid(t) && i < |t| && n > 0 && Walked(t, i, n, visited)
    requires Hop(t, i, n) in visited
    ensures Endless(t, i) && EndsAt(t, i, Hop(t, i, n))
  {
    RingIsEndless(t, i, n, visited);
    var a: nat :| a < n && Trail(t, i, n)[a] == Hop(t, i, n);
    assert Reenters(t, i, Hop(t, i, n), a, n);
  }

  lemma RingIsEndless(t: Table, i: nat, n: nat, visited: set<nat>)
    requires Valid(t) && i < |t| && n > 0 && Walked(t, i, n, visited) && Hop(t, i, n) in visited
    ensures Endless(t, i)
  {
    forall x | x in visited ensures x < |t| && t[x].Some? && t[x].value in visited {
      var k: nat :| k < n && Trail(t, i, n)[k] == x;
      RingCloses(t, i, n, Trail(t, i, n), k);
    }
    assert Hop(t, i, 0) == i == Trail(t, i, n)[0];
    forall m: nat ensures t[Hop(t, i, m)].Some? {
      StaysInside(t, i, visited, m);
    }
  }

  // ----- All lines, values overwritten in place

  /** The value of a line that ends some chain is the original one at every moment: such a line either
      does not redirect, or lies on a ring and is only ever overwritten with its own value. */
  lemma EndKeepsValue(t: Table, i: nat, e: nat, f: nat)
    requires Valid(t) && i < |t| && e < |t| && EndsAt(t, i, e) && t[e].Some? && EndsAt(t, e, f)
    ensures f == e
  {
    if Endless(t, i) {
      var a: nat, b: nat :| Reenters(t, i, e, a, b);
      forall m: nat ensures t[Hop(t, e, m)].Some? {
        HopCompose(t, i, a, m);
      }
      assert Endless(t, e);
      var x: nat, y: nat :| Reenters(t, e, f, x, y);
      RingStartsAnywhere(t, i, e, a, b, f, x, y);
    }
  }

  /** The outer loop. A line is a ring exactly when its chain never ends; otherwise its link list is the
      exact chain. Despite the overwriting, every value is the original value of the chain's end. */
  method Resolve<V>(t: Table, values: array<V>) returns (links: seq<Option<seq<nat>>>, rings: set<nat>)
    requires Valid(t) && values.Length == |t|
    modifies values
    ensures |links| == |t|
    ensures forall i: nat :: i in rings <==> i < |t| && Endless(t, i)
    ensures forall i: nat :: i < |t| ==> (links[i].None? <==> Endless(t, i))
    ensures forall i: nat :: i < |t| && links[i].Some? ==>
              WalkResult(t, i, links[i].value, Hop(t, i, |links[i].value|))
    ensures forall i: nat :: i < |t| ==> ValueOfEnd(t, old(values[..]), i, values[i])
  {
    links := seq(|t|, _ => Some([]));
    rings := {};
    ghost var was := values[..];
    for i := 0 to |t|
      invariant |links| == |t|
      invariant forall k: nat :: k in rings <==> k < i && Endless(t, k)
      invariant forall k: nat :: i <= k < |t| ==> links[k] == Some([]) && values[k] == was[k]
      invariant forall k: nat :: k < i ==> LinkOk(t, k, links[k])
      invariant forall k: nat :: k < i ==> ValueOfEnd(t, was, k, values[k])
    {
      if t[i].None? {
        TrivialChain(t, i);
      } else {
        var link, cur := Walk(t, i);
        if link.None? {
          rings := rings + {i};
        }
        ValueStill(t, was, i, cur, values[cur]);
        values[i] := values[cur];
        links := links[i := link];
      }
    }
    forall i: nat | i < |t| ensures LinkOk(t, i, links[i]) {
    }
  }

  ghost predicate LinkOk(t: Table, i: nat, link: Option<seq<nat>>)
    requires Valid(t) && i < |t|
  {
    && (link.None? <==> Endless(t, i))
    && (link.Some? ==> WalkResult(t, i, link.value, Hop(t, i, |link.value|)))
  }

  ghost predicate ValueOfEnd<V>(t: Table, was: seq<V>, i: nat, v: V)
    requires Valid(t) && i < |t| == |was|
  {
    exists e: nat :: e < |t| && EndsAt(t, i, e) && v == was[e]
  }

  lemma TrivialChain(t: Table, i: nat)
    requires Valid(t) && i < |t| && t[i].None?
    ensures LinkOk(t, i, Some([])) && !Endless(t, i) && EndsAt(t, i, i)
  {
    assert Hop(t, i, 0) == i;
    assert !Endless(t, i);
    assert Redirecting(t, i, 0);
  }

  lemma ValueStill<V>(t: Table, was: seq<V>, i: nat, e: nat, v: V)
    requires Valid(t) && i < |t| == |was| && e < |t| && EndsAt(t, i, e)
    requires v == was[e] || ValueOfEnd(t, was, e, v)
    ensures v == was[e]
  {
    if ValueOfEnd(t, was, e, v) {
      var f: nat :| f < |t| && EndsAt(t, e, f) && v == was[f];
      if t[e].Some? {
        EndKeepsValue(t, i, e, f);
      } else {
        HolderIsOwnEnd(t, e, f);
      }
    }
  }

  lemma HolderIsOwnEnd(t: Table, e: nat, f: nat)
    requires Valid(t) && e < |t| && t[e].None? && EndsAt(t, e, f)
    ensures f == e
  {
    assert Hop(t, e, 0) == e;
    assert !Endless(t, e);
    var n: nat :| Redirecting(t, e, n) && Hop(t, e, n) == f && t[f].None?;
  }

  // ----- Hop groups

  /** Ascending, without repetition, and all of them non-ring lines below `n` with h - 1 links. */
  ghost predicate GroupOk(links: seq<Option<seq<nat>>>, h: nat, row: seq<nat>, n: nat)
    requires n <= |links|
  {
    && Ascending(row)
    && forall j :: 0 <= j < |row| ==> row[j] < n && links[row[j]].Some? && |links[row[j]].value| + 1 == h
  }

  ghost predicate InGroup(groups: map<nat, seq<nat>>, h: nat, i: nat) {
    h in groups && i in groups[h]
  }

  /** `groups[h]` lists exactly the non-ring lines whose chain has h - 1 links. */
  ghost predicate Grouped(links: seq<Option<seq<nat>>>, groups: map<nat, seq<nat>>, n: nat)
    requires n <= |links|
  {
    && (forall h :: h in groups ==> groups[h] != [] && GroupOk(links, h, groups[h], n))
    && (forall i: nat :: i < n && links[i].Some? ==> InGroup(groups, |links[i].value| + 1, i))
  }

  /** The second loop: the hop groups partition the lines that are not rings. */
  method GroupByHops(links: seq<Option<seq<nat>>>, rings: set<nat>) returns (groups: map<nat, seq<nat>>)
    requires forall i: nat :: i < |links| ==> (i in rings <==> links[i].None?)
    ensures Grouped(links, groups, |links|)
  {
    groups := map[];
    for i := 0 to |links|
      invariant Grouped(links, groups, i)
    {
      if i !in rings {
        GroupStep(links, groups, i);
        groups := Extended(groups, |links[i].value| + 1, i);
      } else {
        GroupSkip(links, groups, i);
      }
    }
  }

  lemma GroupSkip(links: seq<Option<seq<nat>>>, groups: map<nat, seq<nat>>, n: nat)
    requires n < |links| && links[n].None? && Grouped(links, groups, n)
    ensures Grouped(links, groups, n + 1)
  {
    forall h | h in groups ensures groups[h] != [] && GroupOk(links, h, groups[h], n + 1) {
      RowStays(links, h, groups[h], n);
    }
  }

  function Extended(groups: map<nat, seq<nat>>, h: nat, i: nat): map<nat, seq<nat>> {
    groups[h := (if h in groups then groups[h] else []) + [i]]
  }

  lemma GroupStep(links: seq<Option<seq<nat>>>, groups: map<nat, seq<nat>>, n: nat)
    requires n < |links| && links[n].Some? && Grouped(links, groups, n)
    ensures Grouped(links, Extended(groups, |links[n].value| + 1, n), n + 1)
  {
    var h := |links[n].value| + 1;
    var next := Extended(groups, h, n);
    forall g | g in next ensures next[g] != [] && GroupOk(links, g, next[g], n + 1) {
      if g == h {
        RowGrows(links, h, if h in groups then groups[h] else [], n);
      } else {
        RowStays(links, g, groups[g], n);
      }
    }
    forall i: nat | i < n + 1 && links[i].Some? ensures InGroup(next, |links[i].value| + 1, i) {
      MemberStays(groups, h, n, |links[i].value| + 1, i);
    }
  }

  lemma MemberStays(groups: map<nat, seq<nat>>, h: nat, n: nat, g: nat, i: nat)
    requires InGroup(groups, g, i) || (g == h && i == n)
    ensures InGroup(Extended(groups, h, n), g, i)
  {
    var row := if h in groups then groups[h] else [];
    assert (row + [n])[|row|] == n;
    assert i in row ==> i in row + [n];
  }

  lemma RowStays(links: seq<Option<seq<nat>>>, h: nat, row: seq<nat>, n: nat)
    requires n < |links| && GroupOk(links, h, row, n)
    ensures GroupOk(links, h, row, n + 1)
  {
  }

  lemma RowGrows(links: seq<Option<seq<nat>>>, h: nat, row: seq<nat>, n: nat)
    requires n < |links| && links[n].Some? && |links[n].value| + 1 == h && GroupOk(links, h, row, n)
    ensures GroupOk(links, h, row + [n], n + 1)
  {
    var all := row + [n];
    assert forall j :: 0 <= j < |row| ==> all[j] == row[j];
  }
}
