/** The document cache of the datasets (training/dataloader.py, `_get_heavy`): an OrderedDict used as an
    LRU cache over documents on disk. Order runs from least to most recently used. */
module LruCache {
  import opened Lists
  import opened Wrappers

  function Remove(s: seq<nat>, d: nat): seq<nat> {
    if s == [] then [] else if s[0] == d then s[1..] else [s[0]] + Remove(s[1..], d)
  }

  function Suffix(s: seq<nat>, k: nat): seq<nat> {
    if |s| <= k then s else s[|s| - k..]
  }

  /** One access: a hit moves to the end; a miss evicts from the front until there is room. */
  function Touch(order: seq<nat>, capacity: nat, d: nat): seq<nat>
    requires capacity >= 1
  {
    if d in order then Remove(order, d) + [d] else Suffix(order, capacity - 1) + [d]
  }

  /** The keys held after a history of accesses, starting from an empty cache. */
  function Contents(history: seq<nat>, capacity: nat): seq<nat>
    requires capacity >= 1
  {
    if history == [] then []
    else Touch(Contents(history[..|history| - 1], capacity), capacity, history[|history| - 1])
  }

  /** All documents ever used, by last use. */
  function Recency(history: seq<nat>): seq<nat> {
    if history == [] then []
    else Remove(Recency(history[..|history| - 1]), history[|history| - 1]) + [history[|history| - 1]]
  }

  // ----- The cache itself

  /** `now` is what is left of `was` after dropping from the front, no further than needed. */
  ghost predicate Evicted(was: seq<nat>, now: seq<nat>, capacity: int) {
    now == Suffix(was, |now|) && |now| <= |was| && (|now| >= capacity - 1 || now == was)
  }

  lemma EvictedNothing(was: seq<nat>, capacity: int)
    ensures Evicted(was, was, capacity)
  {
  }

  lemma EvictedOne(was: seq<nat>, now: seq<nat>, capacity: int)
    requires Evicted(was, now, capacity) && now != [] && |now| >= capacity
    ensures Evicted(was, now[1..], capacity)
  {
  }

  /** The entries are the documents on disk whose numbers are listed. */
  ghost predicate Mirrors<V>(entries: map<nat, V>, order: seq<nat>, disk: seq<V>) {
    && (forall d :: d in entries <==> d in order)
    && (forall d :: d in entries ==> d < |disk| && entries[d] == disk[d])
  }

  lemma DropOldest<V>(entries: map<nat, V>, order: seq<nat>, disk: seq<V>)
    requires Mirrors(entries, order, disk) && order != [] && Distinct(order)
    ensures Mirrors(entries - {order[0]}, order[1..], disk) && Distinct(order[1..])
  {
    assert order == [order[0]] + order[1..];
    assert order[0] !in order[1..];
  }

  class DocCache<V> {
    const capacity: int
    const disk: seq<V>
    var order: seq<nat>
    var entries: map<nat, V>
    ghost var history: seq<nat>
    ghost var loads: nat            // documents read from disk so far

    ghost predicate Valid()
      reads this
    {
      && Mirrors(entries, order, disk)
      && order == (if capacity >= 1 then Contents(history, capacity) else [])
      && loads == (if capacity >= 1 then Misses(history, capacity) else 0)
    }

    constructor (capacity: int, disk: seq<V>)
      ensures Valid() && this.capacity == capacity && this.disk == disk && history == [] && loads == 0
    {
      this.capacity, this.disk := capacity, disk;
      order, entries, history, loads := [], map[], [], 0;
    }

    /** The eviction loop: drop the least recently used until there is room. With no capacity at all it
        runs into an empty OrderedDict, whose popitem raises KeyError. */
    method Evict() returns (ok: bool)
      requires Valid()
      modifies this`order, this`entries
      ensures ok == (capacity >= 1)
      ensures ok ==> order == Suffix(old(order), capacity - 1)
      ensures !ok ==> order == old(order) && entries == old(entries)
      ensures Mirrors(entries, order, disk)
    {
      ValidDistinct();
      ghost var was := order;
      EvictedNothing(was, capacity);
      while |order| >= capacity
        invariant capacity < 1 ==> order == was == [] && entries == old(entries)
        invariant Distinct(order) && Evicted(was, order, capacity)
        invariant Mirrors(entries, order, disk)
        decreases |order|
      {
        if order == [] {
          return false;
        }
        DropOldest(entries, order, disk);
        EvictedOne(was, order, capacity);
        entries := entries - {order[0]};
        order := order[1..];
      }
      return true;
    }

    lemma ValidDistinct()
      requires Valid()
      ensures Distinct(order)
    {
      if capacity >= 1 {
        ContentsIsRecent(history, capacity);
        RecencyDistinct(history);
      }
    }

    /** `fromDisk` says whether the document was loaded. With room for something, the stored document
        comes back. */
    method GetHeavy(d: nat) returns (r: Result<V>, fromDisk: bool)
      requires Valid() && d < |disk|
      modifies this
      ensures Valid()
      ensures capacity >= 1 ==> r == Ok(disk[d]) && history == old(history) + [d] && fromDisk == (d !in old(order))
      ensures capacity < 1 ==> r.Err? && !fromDisk && history == old(history)
      ensures loads == old(loads) + One(fromDisk)
    {
      if d in entries {
        order := Remove(order, d) + [d];
        Access(old(history), capacity, d);
        history := history + [d];
        TouchMembers(old(order), d);
        return Ok(entries[d]), false;
      }
      var ok := Evict();
      if !ok {
        return Err, false;
      }
      Access(old(history), capacity, d);
      entries := entries[d := disk[d]];
      order := order + [d];
      history := history + [d];
      loads := loads + 1;
      return Ok(disk[d]), true;
    }
  }

  lemma Access(history: seq<nat>, capacity: int, d: nat)
    requires capacity >= 1
    ensures Contents(history + [d], capacity) == Touch(Contents(history, capacity), capacity, d)
    ensures Misses(history + [d], capacity) == Misses(history, capacity) + (if d in Contents(history, capacity) then 0 else 1)
  {
    assert (history + [d])[..|history|] == history;
  }

  lemma {:induction false} RemoveMembers(s: seq<nat>, d: nat)
    requires Distinct(s)
    ensures Distinct(Remove(s, d)) && d !in Remove(s, d)
    ensures forall x :: x in Remove(s, d) <==> x in s && x != d
    ensures |Remove(s, d)| == if d in s then |s| - 1 else |s|
  {
    if s != [] {
      var t := s[1..];
      assert s == [s[0]] + t && forall i :: 0 <= i < |t| ==> t[i] == s[i + 1];
      assert s[0] !in t;
      RemoveMembers(t, d);
      var r := Remove(t, d);
      assert forall i :: 0 <= i < |r| ==> r[i] in r;
    }
  }

  lemma TouchMembers(order: seq<nat>, d: nat)
    requires d in order
    ensures forall x :: x in Remove(order, d) + [d] <==> x in order
  {
    RemoveKeepsOthers(order, d);
  }

  lemma {:induction false} RemoveKeepsOthers(s: seq<nat>, d: nat)
    ensures forall x :: x != d ==> (x in Remove(s, d) <==> x in s)
  {
    if s != [] {
      RemoveKeepsOthers(s[1..], d);
      assert s == [s[0]] + s[1..];
    }
  }

  // ----- Refinement: the cache is the most recently used documents, up to capacity

  lemma {:induction false} RecencyDistinct(history: seq<nat>)
    ensures Distinct(Recency(history))
    ensures forall d :: d in Recency(history) <==> d in history
  {
    if history != [] {
      var n := |history| - 1;
      RecencyDistinct(history[..n]);
      RemoveMembers(Recency(history[..n]), history[n]);
      assert history == history[..n] + [history[n]];
    }
  }

  /** In a list of different numbers the first one occurs neither in the rest nor in what follows. */
  lemma DistinctFirst(a: seq<nat>, b: seq<nat>)
    requires a != [] && Distinct(a + b)
    ensures (a + b)[1..] == a[1..] + b && Distinct(a[1..] + b) && a[0] !in b
  {
    var all, rest := a + b, a[1..] + b;
    assert forall i :: 0 <= i < |rest| ==> rest[i] == all[i + 1];
    assert forall j :: 0 <= j < |b| ==> b[j] == all[|a| + j];
    assert all[0] == a[0];
  }

  lemma RemoveFirst(h: nat, t: seq<nat>, d: nat)
    ensures Remove([h] + t, d) == if h == d then t else [h] + Remove(t, d)
  {
    assert ([h] + t)[1..] == t;
  }

  lemma Regroup(h: nat, t: seq<nat>, b: seq<nat>)
    ensures [h] + t + b == [h] + (t + b)
  {
  }

  lemma {:induction false} RemoveSplit(a: seq<nat>, b: seq<nat>, d: nat)
    requires Distinct(a + b)
    ensures Remove(a + b, d) == if d in b then a + Remove(b, d) else Remove(a, d) + b
  {
    if a == [] {
      assert a + b == b;
      if d !in b {
        RemoveAbsent(b, d);
      }
    } else {
      var h, t := a[0], a[1..];
      assert a == [h] + t;
      DistinctFirst(a, b);
      RemoveSplit(t, b, d);
      Regroup(h, t, b);
      RemoveFirst(h, t + b, d);
      RemoveFirst(h, t, d);
      Regroup(h, t, Remove(b, d));
      Regroup(h, Remove(t, d), b);
    }
  }

  lemma {:induction false} RemoveAbsent(s: seq<nat>, d: nat)
    requires d !in s
    ensures Remove(s, d) == s
  {
    if s != [] {
      RemoveAbsent(s[1..], d);
    }
  }

  lemma SuffixAppend(a: seq<nat>, b: seq<nat>, k: nat)
    requires |b| == k || (|b| < k && a == [])
    ensures Suffix(a + b, k) == b
  {
    if a == [] {
      assert a + b == b;
    }
  }

  lemma SuffixSplit(recent: seq<nat>, k: nat) returns (a: seq<nat>)
    ensures recent == a + Suffix(recent, k)
    ensures var b := Suffix(recent, k); |b| == k || (|b| < k && a == [])
  {
    a := recent[..|recent| - |Suffix(recent, k)|];
  }

  lemma TouchSuffix(recent: seq<nat>, capacity: nat, d: nat)
    requires capacity >= 1 && Distinct(recent)
    ensures Touch(Suffix(recent, capacity), capacity, d) == Suffix(Remove(recent, d) + [d], capacity)
  {
    var b := Suffix(recent, capacity);
    var a := SuffixSplit(recent, capacity);
    RemoveSplit(a, b, d);
    if d in b {
      assert Distinct(b) by {
        assert forall i :: 0 <= i < |b| ==> b[i] == recent[|a| + i];
      }
      TouchHit(a, b, capacity, d);
    } else {
      TouchMiss(Remove(a, d), b, capacity, d);
    }
  }

  lemma TouchHit(a: seq<nat>, b: seq<nat>, capacity: nat, d: nat)
    requires d in b && Distinct(b) && (|b| == capacity || (|b| < capacity && a == []))
    ensures Remove(b, d) + [d] == Suffix(a + Remove(b, d) + [d], capacity)
  {
    RemoveMembers(b, d);
    assert a + Remove(b, d) + [d] == a + (Remove(b, d) + [d]);
    SuffixAppend(a, Remove(b, d) + [d], capacity);
  }

  lemma TouchMiss(a: seq<nat>, b: seq<nat>, capacity: nat, d: nat)
    requires capacity >= 1 && (|b| == capacity || (|b| < capacity && a == []))
    ensures Suffix(b, capacity - 1) + [d] == Suffix(a + b + [d], capacity)
  {
    if |b| == capacity {
      assert a + b + [d] == (a + [b[0]]) + (b[1..] + [d]);
      SuffixAppend(a + [b[0]], b[1..] + [d], capacity);
    } else {
      assert a + b + [d] == b + [d];
    }
  }

  /** After any access history the cache holds exactly the most recently used distinct documents, up to
      capacity, in recency order. */
  lemma {:induction false} ContentsIsRecent(history: seq<nat>, capacity: nat)
    requires capacity >= 1
    ensures Contents(history, capacity) == Suffix(Recency(history), capacity)
  {
    if history != [] {
      var n := |history| - 1;
      ContentsIsRecent(history[..n], capacity);
      RecencyDistinct(history[..n]);
      TouchSuffix(Recency(history[..n]), capacity, history[n]);
    }
  }

  /** `x` was used after the last use of `d`. */
  ghost predicate UsedSince(history: seq<nat>, d: nat, x: nat) {
    exists i :: 0 <= i < |history| && history[i] == x && d !in history[i..]
  }

  ghost function UsedAfter(history: seq<nat>, d: nat): set<nat> {
    set x | x in history && UsedSince(history, d, x)
  }

  lemma UsedSinceStep(history: seq<nat>, last: nat, d: nat, x: nat)
    requires d in history
    ensures UsedSince(history + [last], d, x) <==> last != d && (UsedSince(history, d, x) || x == last)
  {
    var all := history + [last];
    assert forall i :: 0 <= i <= |history| ==> all[i..] == history[i..] + [last];
    if last != d {
      if UsedSince(history, d, x) {
        var i :| 0 <= i < |history| && history[i] == x && d !in history[i..];
        assert all[i] == x && d !in all[i..];
      }
      if x == last {
        assert all[|history|] == x && d !in all[|history|..];
      }
      if UsedSince(all, d, x) && x != last {
        var i :| 0 <= i < |all| && all[i] == x && d !in all[i..];
        assert history[i] == x && d !in history[i..];
      }
    } else {
      assert forall i :: 0 <= i < |all| ==> d in all[i..];
    }
  }

  /** What stands behind `d` in recency order is exactly what was used since. */
  lemma {:induction false} RecencyPosition(history: seq<nat>, d: nat) returns (i: nat)
    requires d in history
    ensures i < |Recency(history)| && Recency(history)[i] == d
    ensures forall x :: x in Recency(history)[i + 1..] <==> x in UsedAfter(history, d)
  {
    var n := |history| - 1;
    var before, last := history[..n], history[n];
    assert history == before + [last];
    if last == d {
      i := |Recency(history)| - 1;
      forall x ensures !UsedSince(history, d, x) {
        assert forall k :: 0 <= k < |history| ==> history[k..][n - k] == d;
      }
    } else {
      var j := RecencyPosition(before, d);
      RecencyDistinct(before);
      var back: seq<nat>;
      i, back := PositionAfterUse(Recency(before), j, last);
      forall x ensures x in back + [last] <==> x in UsedAfter(history, d) {
        UsedSinceStep(before, last, d, x);
        assert x in history <==> x in before || x == last;
        assert UsedSince(before, d, x) ==> x in before;
        assert x in Recency(before)[j + 1..] <==> x in UsedAfter(before, d);
      }
    }
  }

  /** Using another document moves it to the end and keeps what stood behind `r[j]` behind it. */
  lemma PositionAfterUse(r: seq<nat>, j: nat, last: nat) returns (i: nat, back: seq<nat>)
    requires Distinct(r) && j < |r| && r[j] != last
    ensures var now := Remove(r, last) + [last];
            i < |now| && now[i] == r[j] && now[i + 1..] == back + [last]
    ensures forall x :: x in back + [last] <==> x in r[j + 1..] || x == last
  {
    var a, b := r[..j + 1], r[j + 1..];
    assert r == a + b;
    RemoveSplit(a, b, last);
    var front := if last in b then a else Remove(a, last);
    back := if last in b then Remove(b, last) else b;
    RemoveKeepsOthers(b, last);
    LastSurvives(a, last);
    i := |front| - 1;
    assert Remove(r, last) + [last] == front + (back + [last]);
  }

  lemma {:induction false} LastSurvives(a: seq<nat>, d: nat)
    requires a != [] && a[|a| - 1] != d
    ensures Remove(a, d) != [] && Remove(a, d)[|Remove(a, d)| - 1] == a[|a| - 1]
  {
    if a[0] != d && |a| > 1 {
      LastSurvives(a[1..], d);
    }
  }

  lemma {:induction false} DistinctCardinality(s: seq<nat>, members: set<nat>)
    requires Distinct(s) && forall x :: x in s <==> x in members
    ensures |members| == |s|
  {
    if s == [] {
      assert members == {};
    } else {
      assert s == [s[0]] + s[1..];
      DistinctCardinality(s[1..], members - {s[0]});
    }
  }

  lemma SuffixMember(r: seq<nat>, k: nat, i: nat)
    requires Distinct(r) && i < |r|
    ensures r[i] in Suffix(r, k) <==> |r| - i <= k
  {
    var s := Suffix(r, k);
    var cut := |r| - |s|;
    assert forall j :: 0 <= j < |s| ==> s[j] == r[cut + j];
    if i >= cut {
      assert s[i - cut] == r[i];
    }
  }

  /** A document is cached exactly when fewer than `capacity` other documents were used since. */
  lemma CachedIff(history: seq<nat>, capacity: nat, d: nat)
    requires capacity >= 1
    ensures d in Contents(history, capacity) <==> d in history && |UsedAfter(history, d)| < capacity
  {
    var r := Recency(history);
    ContentsIsRecent(history, capacity);
    RecencyDistinct(history);
    if d in history {
      var i := RecencyPosition(history, d);
      var behind := r[i + 1..];
      assert Distinct(behind);
      DistinctCardinality(behind, UsedAfter(history, d));
      SuffixMember(r, capacity, i);
    } else {
      assert forall x :: x in Suffix(r, capacity) ==> x in r;
    }
  }

  // ----- Consequences

  /** A smaller cache's contents are always held by a larger one. */
  lemma LargerHoldsMore(history: seq<nat>, small: nat, large: nat, d: nat)
    requires 1 <= small <= large && d in Contents(history, small)
    ensures d in Contents(history, large)
  {
    CachedIff(history, small, d);
    CachedIff(history, large, d);
  }

  /** How many accesses of `history` had to load from disk. */
  function Misses(history: seq<nat>, capacity: nat): nat
    requires capacity >= 1
  {
    if history == [] then 0
    else
      var n := |history| - 1;
      Misses(history[..n], capacity) + (if history[n] in Contents(history[..n], capacity) then 0 else 1)
  }

  /** Misses never rise with capacity: LRU has no Belady anomaly. */
  lemma {:induction false} MissesFall(history: seq<nat>, small: nat, large: nat)
    requires 1 <= small <= large
    ensures Misses(history, large) <= Misses(history, small)
  {
    if history != [] {
      var n := |history| - 1;
      MissesFall(history[..n], small, large);
      if history[n] in Contents(history[..n], small) {
        LargerHoldsMore(history[..n], small, large, history[n]);
      }
    }
  }

  lemma FewDocuments(history: seq<nat>, docs: nat)
    requires forall d :: d in history ==> d < docs
    ensures |Recency(history)| <= docs
  {
    var r := Recency(history);
    RecencyDistinct(history);
    assert forall i :: 0 <= i < |r| ==> r[i] in r;
    Pigeonhole(r, docs);
  }

  /** With room for all documents each one is loaded once: the misses are the first uses, and their
      number is the number of different documents. */
  lemma {:induction false} FullCacheLoadsOnce(history: seq<nat>, capacity: nat, docs: nat)
    requires capacity >= 1 && capacity >= docs && forall d :: d in history ==> d < docs
    ensures Misses(history, capacity) == |Recency(history)|
    ensures forall d :: d in history ==> d in Contents(history, capacity)
  {
    RecencyDistinct(history);
    ContentsIsRecent(history, capacity);
    FewDocuments(history, docs);
    if history != [] {
      var n := |history| - 1;
      var before := history[..n];
      assert history == before + [history[n]];
      assert forall d :: d in before ==> d in history;
      FullCacheLoadsOnce(before, capacity, docs);
      RecencyDistinct(before);
      ContentsIsRecent(before, capacity);
      FewDocuments(before, docs);
      RemoveMembers(Recency(before), history[n]);
    }
  }
}
