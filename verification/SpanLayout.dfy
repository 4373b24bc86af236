/** Packing trace spans onto lines (sglang/scripts/convert_otel_2_perfetto.py, `SpanLayoutContainer`,
    `__find_line` and the loop of `generate_perfetto_span_layout`). */
module SpanLayout {
  import opened Wrappers

  datatype Span = Span(start: int, end: int)

  /** The `intervals` list of one container. */
  type Line = seq<Span>

  /** Tuple order, as `bisect` uses it. */
  predicate Less(a: Span, b: Span) {
    a.start < b.start || (a.start == b.start && a.end < b.end)
  }

  ghost predicate Sorted(line: Line) {
    forall i, j :: 0 <= i < j < |line| ==> !Less(line[j], line[i])
  }

  predicate Overlap(a: Span, b: Span) {
    a.start < b.end && b.start < a.end
  }

  // ----- One line

  /** bisect_left(line, (start, -inf)): on a sorted line, the number of spans that start earlier. */
  function Bisect(line: Line, start: int): (i: nat)
    ensures i <= |line|
    ensures forall k :: 0 <= k < i ==> line[k].start < start
    ensures i < |line| ==> line[i].start >= start
  {
    if line == [] || line[0].start >= start then 0 else 1 + Bisect(line[1..], start)
  }

  /** `check_overlap`: look only at the neighbours of the insertion point. */
  predicate CheckOverlap(line: Line, q: Span) {
    var i := Bisect(line, q.start);
    (i > 0 && line[i - 1].end > q.start) || (i < |line| && line[i].start < q.end)
  }

  /** bisect.insort_left. */
  function Insert(line: Line, q: Span): (r: Line)
    ensures |r| == |line| + 1
    ensures multiset(r) == multiset(line) + multiset{q}
  {
    if line == [] || !Less(line[0], q) then [q] + line
    else
      assert line == [line[0]] + line[1..];
      [line[0]] + Insert(line[1..], q)
  }

  lemma {:induction false} InsertSorted(line: Line, q: Span)
    requires Sorted(line)
    ensures Sorted(Insert(line, q))
  {
    if line != [] && Less(line[0], q) {
      InsertSorted(line[1..], q);
      var rest := Insert(line[1..], q);
      forall i | 0 <= i < |rest| ensures !Less(rest[i], line[0]) {
        assert rest[i] in multiset(rest);
        assert rest[i] == q || rest[i] in line[1..];
      }
    }
  }

  lemma InsertMembers(line: Line, q: Span)
    ensures forall s :: s in Insert(line, q) <==> s in line || s == q
  {
    forall s ensures s in Insert(line, q) <==> s in line || s == q {
      assert s in Insert(line, q) <==> s in multiset(Insert(line, q));
      assert s in line <==> s in multiset(line);
    }
  }

  /** Sorted and pairwise disjoint; spans may have no length. */
  ghost predicate Tidy(line: Line) {
    && Sorted(line)
    && (forall i :: 0 <= i < |line| ==> line[i].start <= line[i].end)
    && (forall i, j :: 0 <= i < j < |line| ==> !Overlap(line[i], line[j]))
  }

  /** Sorted, of positive length and pairwise disjoint. */
  ghost predicate LineOk(line: Line) {
    Tidy(line) && forall i :: 0 <= i < |line| ==> line[i].start < line[i].end
  }

  ghost predicate OverlapsSome(line: Line, q: Span) {
    exists i :: 0 <= i < |line| && Overlap(line[i], q)
  }

  lemma TidyTail(line: Line)
    requires Tidy(line) && line != []
    ensures Tidy(line[1..]) && forall s :: s in line[1..] ==> !Overlap(line[0], s)
  {
    var tail := line[1..];
    assert forall i :: 0 <= i < |tail| ==> tail[i] == line[i + 1];
  }

  lemma TidyCons(head: Span, rest: Line)
    requires Tidy(rest) && head.start <= head.end && forall s :: s in rest ==> !Overlap(head, s)
    requires Sorted([head] + rest)
    ensures Tidy([head] + rest)
  {
    var all := [head] + rest;
    assert forall i :: 1 <= i < |all| ==> all[i] == rest[i - 1] && rest[i - 1] in rest;
  }

  lemma {:induction false} InsertTidy(line: Line, q: Span)
    requires Tidy(line) && q.start <= q.end && !OverlapsSome(line, q)
    ensures Tidy(Insert(line, q))
  {
    InsertSorted(line, q);
    if line != [] && Less(line[0], q) {
      var tail := line[1..];
      TidyTail(line);
      assert forall i :: 0 <= i < |tail| ==> tail[i] == line[i + 1];
      InsertTidy(tail, q);
      InsertMembers(tail, q);
      TidyCons(line[0], Insert(tail, q));
    } else {
      TidyCons(q, line);
    }
  }

  lemma InsertOk(line: Line, q: Span)
    requires LineOk(line) && q.start < q.end && !OverlapsSome(line, q)
    ensures LineOk(Insert(line, q))
  {
    InsertTidy(line, q);
    InsertMembers(line, q);
    var r := Insert(line, q);
    assert forall i :: 0 <= i < |r| ==> r[i] in r;
  }

  /** A span between `line[j]` and its successor would be seen to be free although the longer, earlier
      `line[i]` covers it. */
  ghost predicate Hides(line: Line, i: nat, j: nat)
    requires i < j < |line|
  {
    var from := if line[j].end > line[j].start then line[j].end else line[j].start + 1;
    from < line[i].end && (j + 1 < |line| ==> from < line[j + 1].start)
  }

  ghost predicate NothingHidden(line: Line) {
    forall i: nat, j: nat :: i < j < |line| ==> !Hides(line, i, j)
  }

  ghost predicate Misses(line: Line, q: Span) {
    q.start < q.end && OverlapsSome(line, q) && !CheckOverlap(line, q)
  }

  /** Exactly when the two-neighbour test is safe: it misses no overlap of any later span of positive
      length if and only if no span of the line hides an earlier, longer one. */
  lemma CheckSafeIff(line: Line)
    requires Sorted(line)
    ensures (forall q :: !Misses(line, q)) <==> NothingHidden(line)
  {
    if i: nat, j: nat :| i < j < |line| && Hides(line, i, j) {
      HidingMisses(line, i, j);
    }
    forall q | Misses(line, q) ensures !NothingHidden(line) {
      var i, j := MissIsHiding(line, q);
    }
  }

  lemma HidingMisses(line: Line, i: nat, j: nat)
    requires Sorted(line) && i < j < |line| && Hides(line, i, j)
    ensures exists q :: Misses(line, q)
  {
    var from := if line[j].end > line[j].start then line[j].end else line[j].start + 1;
    var q := Span(from, from + 1);
    var b := Bisect(line, from);
    assert b == j + 1;
    assert Overlap(line[i], q);
    assert Misses(line, q);
  }

  lemma LaterStarts(line: Line, start: int)
    requires Sorted(line)
    ensures forall k :: Bisect(line, start) <= k < |line| ==> line[k].start >= start
  {
    var b := Bisect(line, start);
    forall k | b <= k < |line| ensures line[k].start >= start {
      assert k > b ==> !Less(line[k], line[b]);
    }
  }

  lemma MissIsHiding(line: Line, q: Span) returns (i: nat, j: nat)
    requires Sorted(line) && Misses(line, q)
    ensures i < j < |line| && Hides(line, i, j)
  {
    var b := Bisect(line, q.start);
    LaterStarts(line, q.start);
    var k :| 0 <= k < |line| && Overlap(line[k], q);
    i, j := k, b - 1;
  }

  lemma TidyHidesNothing(line: Line)
    requires Tidy(line)
    ensures NothingHidden(line)
  {
    forall i: nat, j: nat | i < j < |line| ensures !Hides(line, i, j) {
      assert !Overlap(line[i], line[j]);
      assert !Less(line[j], line[i]);
    }
  }

  /** On a line of disjoint spans, with or without length, a span that passes the test overlaps nothing. */
  lemma CheckIsSafe(line: Line, q: Span)
    requires Tidy(line) && q.start <= q.end && !CheckOverlap(line, q)
    ensures !OverlapsSome(line, q)
  {
    if q.start < q.end {
      TidyHidesNothing(line);
      CheckSafeIff(line);
      assert !Misses(line, q);
    } else {
      LaterStarts(line, q.start);
      PointIsFree(line, q.start);
    }
  }

  /** What ends before a point also ends before it one further to the left on the line. */
  lemma PointIsFree(line: Line, at: int)
    requires Tidy(line) && var i := Bisect(line, at); i > 0 ==> line[i - 1].end <= at
    ensures forall k :: 0 <= k < Bisect(line, at) ==> line[k].end <= at
  {
    var i := Bisect(line, at);
    forall k | 0 <= k < i ensures line[k].end <= at {
      if k < i - 1 {
        assert !Overlap(line[k], line[i - 1]) && !Less(line[i - 1], line[k]);
      }
    }
  }

  /** On a line of disjoint spans of positive length the two-neighbour test is the whole scan. */
  lemma CheckIsScan(line: Line, q: Span)
    requires LineOk(line) && q.start < q.end
    ensures CheckOverlap(line, q) <==> OverlapsSome(line, q)
  {
    TidyHidesNothing(line);
    CheckSafeIff(line);
    assert !Misses(line, q);
    var b := Bisect(line, q.start);
    if CheckOverlap(line, q) {
      if b > 0 && line[b - 1].end > q.start {
        assert Overlap(line[b - 1], q);
      } else {
        assert Overlap(line[b], q);
      }
    }
  }

  // ----- Many lines

  /** Lines of one process, numbered from 1. */
  type Lines = map<int, Line>

  ghost predicate Numbered(lines: Lines) {
    forall k :: k in lines <==> 1 <= k <= |lines|
  }

  /** The first line from `k` on that the span fits, or a new one. */
  function FirstFit(lines: Lines, k: nat, q: Span): nat
    requires 1 <= k <= |lines| + 1 && Numbered(lines)
    decreases |lines| + 1 - k
  {
    if k > |lines| then |lines| + 1
    else if !CheckOverlap(lines[k], q) then k
    else FirstFit(lines, k + 1, q)
  }

  /** The line for span `q`: the request's current line if the span has no length or fits there,
      otherwise the first line it fits, otherwise a new one. */
  function Choose(lines: Lines, current: Option<nat>, q: Span): nat
    requires Numbered(lines) && (current.Some? ==> current.value in lines)
  {
    if current.Some? && (q.start == q.end || !CheckOverlap(lines[current.value], q)) then current.value
    else FirstFit(lines, 1, q)
  }

  type Graph = map<int, Lines>

  function LinesOf(graph: Graph, pid: int): Lines {
    if pid in graph then graph[pid] else map[]
  }

  function CurrentOf(status: map<int, nat>, pid: int): Option<nat> {
    if pid in status then Some(status[pid]) else None
  }

  ghost predicate GraphOk(graph: Graph, status: map<int, nat>) {
    && (forall pid :: pid in graph ==> Numbered(graph[pid]))
    && (forall pid :: pid in status ==> pid in graph && status[pid] in graph[pid])
  }

  function Row(graph: Graph, pid: int, line: int): Line {
    if pid in graph && line in graph[pid] then graph[pid][line] else []
  }

  function WithLine(graph: Graph, pid: int, line: nat): Graph {
    var lines := LinesOf(graph, pid);
    if line in lines then graph else graph[pid := lines[line := []]]
  }

  function WithSpan(graph: Graph, pid: int, line: nat, q: Span): Graph {
    var lines := LinesOf(graph, pid);
    graph[pid := lines[line := Insert(Row(graph, pid, line), q)]]
  }

  /** One event to lay out, and where it went. */
  datatype Event = Event(pid: int, span: Span)
  datatype Placed = Placed(event: Event, tid: nat)

  /** The loop over the existing lines of a process. */
  method FindFit(lines: Lines, q: Span) returns (line: nat)
    requires Numbered(lines)
    ensures line == FirstFit(lines, 1, q)
  {
    line := 1;
    while line <= |lines|
      invariant 1 <= line <= |lines| + 1
      invariant FirstFit(lines, line, q) == FirstFit(lines, 1, q)
    {
      if !CheckOverlap(lines[line], q) {
        return;
      }
      line := line + 1;
    }
  }

  /** Every line has its slot record, once. */
  ghost predicate SlotsOk(graph: Graph, slots: seq<(int, nat)>) {
    && (forall i, j :: 0 <= i < j < |slots| ==> slots[i] != slots[j])
    && forall pid: int, k: nat :: (pid, k) in slots <==> k in LinesOf(graph, pid)
  }

  lemma SlotsStep(graph: Graph, slots: seq<(int, nat)>, pid: int, line: nat, q: Span)
    requires SlotsOk(graph, slots)
    ensures SlotsOk(WithSpan(graph, pid, line, q), slots + if line in LinesOf(graph, pid) then [] else [(pid, line)])
  {
    var more := slots + if line in LinesOf(graph, pid) then [] else [(pid, line)];
    assert forall i :: 0 <= i < |slots| ==> slots[i] in slots;
    forall p: int, k: nat ensures (p, k) in more <==> k in LinesOf(WithSpan(graph, pid, line, q), p) {
      assert (p, k) in slots <==> k in LinesOf(graph, p);
    }
  }

  class Layout {
    var graph: Graph
    var slots: seq<(int, nat)>      // the "slot" metadata records
    var placed: seq<Placed>         // the tid written into each span, in processing order

    constructor ()
      ensures graph == map[] && slots == [] && placed == [] && SlotsOk(graph, slots)
    {
      graph, slots, placed := map[], [], [];
    }

    /** `__find_line`; `status` is the per-request map, handed in and out. */
    method FindLine(status: map<int, nat>, pid: int, q: Span) returns (line: nat, status': map<int, nat>)
      requires GraphOk(graph, status)
      modifies this`graph, this`slots
      ensures line == Choose(LinesOf(old(graph), pid), CurrentOf(status, pid), q)
      ensures graph == WithLine(old(graph), pid, line) && pid in graph && line in graph[pid]
      ensures status' == status[pid := line]
      ensures slots == old(slots) + (if line in LinesOf(old(graph), pid) then [] else [(pid, line)])
      ensures GraphOk(graph, status')
    {
      WithLineOk(graph, status, pid, q);
      if pid in status {
        line := status[pid];
        assert status == status[pid := line];
        if q.start == q.end {
          return line, status;
        }
        if !CheckOverlap(graph[pid][line], q) {
          return line, status;
        }
      }
      if pid !in graph {
        line := 1;
        var first: Lines := map[1 := []];
        graph := graph[pid := first];
        status' := status[pid := line];
        slots := slots + [(pid, line)];
        return;
      }
      line := FindFit(graph[pid], q);
      if line !in graph[pid] {
        var grown: Lines := graph[pid][line := []];
        graph := graph[pid := grown];
        slots := slots + [(pid, line)];
      }
      status' := status[pid := line];
    }

    /** One span: its line, its place on the line, and the request's new current line. */
    method LayoutSpan(status: map<int, nat>, e: Event) returns (next: map<int, nat>)
      requires GraphOk(graph, status)
      modifies this
      ensures var line := Choose(LinesOf(old(graph), e.pid), CurrentOf(status, e.pid), e.span);
              && graph == WithSpan(old(graph), e.pid, line, e.span) && next == status[e.pid := line]
              && placed == old(placed) + [Placed(e, line)]
      ensures GraphOk(graph, next)
      ensures SlotsOk(old(graph), old(slots)) ==> SlotsOk(graph, slots)
    {
      ghost var before, listed := graph, slots;
      var line;
      line, next := FindLine(status, e.pid, e.span);
      graph := graph[e.pid := graph[e.pid][line := Insert(graph[e.pid][line], e.span)]];
      InsertIntoNew(before, e.pid, line, e.span);
      if SlotsOk(before, listed) {
        SlotsStep(before, listed, e.pid, line, e.span);
      }
      GraphStaysOk(before, status, e);
      placed := placed + [Placed(e, line)];
    }

    /** The spans of one request, in order, starting without a current line for any process. */
    method LayoutRoom(events: seq<Event>)
      requires GraphOk(graph, map[])
      modifies this
      ensures GraphOk(graph, map[])
      ensures (graph, placed) == PlaceAll(old(graph), map[], old(placed), events)
      ensures SlotsOk(old(graph), old(slots)) ==> SlotsOk(graph, slots)
    {
      var status: map<int, nat> := map[];
      for i := 0 to |events|
        invariant GraphOk(graph, status)
        invariant PlaceAll(graph, status, placed, events[i..]) == PlaceAll(old(graph), map[], old(placed), events)
        invariant SlotsOk(old(graph), old(slots)) ==> SlotsOk(graph, slots)
      {
        assert events[i..][1..] == events[i + 1..];
        status := LayoutSpan(status, events[i]);
      }
    }

    /** `generate_perfetto_span_layout` once requests and spans are in the order to be laid out. */
    method LayoutRooms(rooms: seq<seq<Event>>)
      requires GraphOk(graph, map[])
      modifies this
      ensures GraphOk(graph, map[])
      ensures (graph, placed) == PlaceRooms(old(graph), old(placed), rooms)
      ensures SlotsOk(old(graph), old(slots)) ==> SlotsOk(graph, slots)
    {
      for i := 0 to |rooms|
        invariant GraphOk(graph, map[])
        invariant PlaceRooms(graph, placed, rooms[i..]) == PlaceRooms(old(graph), old(placed), rooms)
        invariant SlotsOk(old(graph), old(slots)) ==> SlotsOk(graph, slots)
      {
        assert rooms[i..][1..] == rooms[i + 1..];
        LayoutRoom(rooms[i]);
      }
    }
  }

  /** Writing to an existing line or to the next number keeps the numbers 1..n. */
  lemma NumberedStays(lines: Lines, line: nat, row: Line)
    requires Numbered(lines) && 1 <= line <= |lines| + 1
    ensures Numbered(lines[line := row])
  {
    NewCount(lines, line, row);
    var r := lines[line := row];
    assert forall k :: k in r <==> k in lines || k == line;
  }

  lemma NewCount(lines: Lines, line: nat, row: Line)
    ensures |lines[line := row]| == if line in lines then |lines| else |lines| + 1
  {
    var r := lines[line := row];
    assert r.Keys == lines.Keys + {line};
    assert |r| == |r.Keys| && |lines| == |lines.Keys|;
    if line in lines {
      assert r.Keys == lines.Keys;
    }
  }

  lemma ChooseInRange(lines: Lines, current: Option<nat>, q: Span)
    requires Numbered(lines) && (current.Some? ==> current.value in lines)
    ensures 1 <= Choose(lines, current, q) <= |lines| + 1
  {
    FirstFitRange(lines, 1, q);
  }

  lemma WithLineOk(graph: Graph, status: map<int, nat>, pid: int, q: Span)
    requires GraphOk(graph, status)
    ensures var line := Choose(LinesOf(graph, pid), CurrentOf(status, pid), q);
            && pid in WithLine(graph, pid, line) && line in WithLine(graph, pid, line)[pid]
            && GraphOk(WithLine(graph, pid, line), status[pid := line])
  {
    var lines := LinesOf(graph, pid);
    var line := Choose(lines, CurrentOf(status, pid), q);
    ChooseInRange(lines, CurrentOf(status, pid), q);
    NumberedStays(lines, line, []);
  }

  lemma InsertIntoNew(graph: Graph, pid: int, line: nat, q: Span)
    ensures var g := WithLine(graph, pid, line);
            && pid in g && line in g[pid]
            && g[pid := g[pid][line := Insert(g[pid][line], q)]] == WithSpan(graph, pid, line, q)
  {
    var g := WithLine(graph, pid, line);
    var lines := LinesOf(graph, pid);
    if line !in lines {
      assert g[pid] == lines[line := []];
      var row := Insert([], q);
      assert lines[line := []][line := row] == lines[line := row];
      assert graph[pid := lines[line := []]][pid := lines[line := row]] == graph[pid := lines[line := row]];
    }
  }

  /** What the loop over one request does to the graph and to the list of placed spans. */
  ghost function PlaceAll(graph: Graph, status: map<int, nat>, placed: seq<Placed>, events: seq<Event>): (r: (Graph, seq<Placed>))
    requires GraphOk(graph, status)
    ensures GraphOk(r.0, map[])
    decreases |events|
  {
    if events == [] then (graph, placed)
    else
      var e := events[0];
      var line := Choose(LinesOf(graph, e.pid), CurrentOf(status, e.pid), e.span);
      GraphStaysOk(graph, status, e);
      PlaceAll(WithSpan(graph, e.pid, line, e.span), status[e.pid := line], placed + [Placed(e, line)], events[1..])
  }

  /** The loop over the requests; each one starts without current lines. */
  ghost function PlaceRooms(graph: Graph, placed: seq<Placed>, rooms: seq<seq<Event>>): (r: (Graph, seq<Placed>))
    requires GraphOk(graph, map[])
    ensures GraphOk(r.0, map[])
    decreases |rooms|
  {
    if rooms == [] then (graph, placed)
    else
      var r := PlaceAll(graph, map[], placed, rooms[0]);
      PlaceRooms(r.0, r.1, rooms[1..])
  }

  lemma {:induction false} FirstFitRange(lines: Lines, k: nat, q: Span)
    requires 1 <= k <= |lines| + 1 && Numbered(lines)
    ensures k <= FirstFit(lines, k, q) <= |lines| + 1
    ensures FirstFit(lines, k, q) <= |lines| ==> !CheckOverlap(lines[FirstFit(lines, k, q)], q)
    ensures forall j: nat :: k <= j < FirstFit(lines, k, q) ==> CheckOverlap(lines[j], q)
    decreases |lines| + 1 - k
  {
    if k <= |lines| && CheckOverlap(lines[k], q) {
      FirstFitRange(lines, k + 1, q);
    }
  }

  /** Line numbers of every process stay exactly 1..n, and the current lines stay among them. */
  lemma GraphStaysOk(graph: Graph, status: map<int, nat>, e: Event)
    requires GraphOk(graph, status)
    ensures var line := Choose(LinesOf(graph, e.pid), CurrentOf(status, e.pid), e.span);
            GraphOk(WithSpan(graph, e.pid, line, e.span), status[e.pid := line])
  {
    var lines := LinesOf(graph, e.pid);
    var line := Choose(lines, CurrentOf(status, e.pid), e.span);
    ChooseInRange(lines, CurrentOf(status, e.pid), e.span);
    NumberedStays(lines, line, Insert(Row(graph, e.pid, line), e.span));
  }

  // ----- The layout theorem

  ghost predicate LinesOk(graph: Graph) {
    forall pid, k :: LineOk(Row(graph, pid, k))
  }

  ghost predicate OnItsLine(graph: Graph, p: Placed) {
    p.event.span in Row(graph, p.event.pid, p.tid)
  }

  ghost predicate SameLine(p: Placed, q: Placed) {
    p.event.pid == q.event.pid && p.tid == q.tid
  }

  /** Every placed span is on its line, and no two spans placed on one line overlap. */
  ghost predicate PlacedOk(graph: Graph, placed: seq<Placed>) {
    && (forall i :: 0 <= i < |placed| ==> OnItsLine(graph, placed[i]))
    && (forall i, j :: 0 <= i < j < |placed| && SameLine(placed[i], placed[j]) ==>
          !Overlap(placed[i].event.span, placed[j].event.span))
  }

  lemma RowAfter(graph: Graph, pid: int, line: nat, q: Span, p: int, k: int)
    ensures Row(WithSpan(graph, pid, line, q), p, k)
         == if p == pid && k == line then Insert(Row(graph, pid, line), q) else Row(graph, p, k)
  {
  }

  /** A span of positive length stays on the request's current line if that has room, else goes to the
      lowest-numbered line with room, and a new line is opened exactly when every line overlaps it. */
  lemma ChooseFits(lines: Lines, current: Option<nat>, q: Span)
    requires Numbered(lines) && (current.Some? ==> current.value in lines) && q.start < q.end
    requires forall k :: k in lines ==> LineOk(lines[k])
    ensures var line := Choose(lines, current, q);
            && 1 <= line <= |lines| + 1
            && (line in lines ==> !OverlapsSome(lines[line], q))
            && (current.Some? && !OverlapsSome(lines[current.value], q) ==> line == current.value)
            && (current != Some(line) ==> forall k: nat :: 1 <= k < line ==> OverlapsSome(lines[k], q))
            && (line !in lines <==> (forall k: nat :: 1 <= k <= |lines| ==> OverlapsSome(lines[k], q)))
  {
    FirstFitRange(lines, 1, q);
    forall k: nat | 1 <= k <= |lines| ensures CheckOverlap(lines[k], q) <==> OverlapsSome(lines[k], q) {
      CheckIsScan(lines[k], q);
    }
    var line := Choose(lines, current, q);
    if line in lines {
      assert 1 <= line <= |lines| && !OverlapsSome(lines[line], q);
    }
  }

  lemma RowFits(graph: Graph, status: map<int, nat>, e: Event)
    requires GraphOk(graph, status) && LinesOk(graph) && e.span.start < e.span.end
    ensures !OverlapsSome(Row(graph, e.pid, Choose(LinesOf(graph, e.pid), CurrentOf(status, e.pid), e.span)), e.span)
  {
    var lines := LinesOf(graph, e.pid);
    forall k | k in lines ensures LineOk(lines[k]) {
      assert lines[k] == Row(graph, e.pid, k);
    }
    ChooseFits(lines, CurrentOf(status, e.pid), e.span);
  }

  lemma LinesStayOk(graph: Graph, e: Event, line: nat)
    requires LinesOk(graph) && e.span.start < e.span.end && !OverlapsSome(Row(graph, e.pid, line), e.span)
    ensures LinesOk(WithSpan(graph, e.pid, line, e.span))
  {
    InsertOk(Row(graph, e.pid, line), e.span);
    forall p, k ensures LineOk(Row(WithSpan(graph, e.pid, line, e.span), p, k)) {
      RowAfter(graph, e.pid, line, e.span, p, k);
    }
  }

  lemma PlacedStaysOk(graph: Graph, placed: seq<Placed>, e: Event, line: nat)
    requires PlacedOk(graph, placed) && !OverlapsSome(Row(graph, e.pid, line), e.span)
    ensures PlacedOk(WithSpan(graph, e.pid, line, e.span), placed + [Placed(e, line)])
  {
    var row, g := Row(graph, e.pid, line), WithSpan(graph, e.pid, line, e.span);
    var all := placed + [Placed(e, line)];
    InsertMembers(row, e.span);
    forall i | 0 <= i < |all| ensures OnItsLine(g, all[i]) {
      RowAfter(graph, e.pid, line, e.span, all[i].event.pid, all[i].tid);
      assert i < |placed| ==> OnItsLine(graph, placed[i]);
    }
    forall i | 0 <= i < |placed| && SameLine(placed[i], Placed(e, line)) ensures !Overlap(placed[i].event.span, e.span) {
      assert OnItsLine(graph, placed[i]);
    }
  }

  lemma PlaceNext(graph: Graph, status: map<int, nat>, placed: seq<Placed>, events: seq<Event>) returns (line: nat)
    requires GraphOk(graph, status) && events != []
    ensures var e := events[0];
            && line == Choose(LinesOf(graph, e.pid), CurrentOf(status, e.pid), e.span)
            && GraphOk(WithSpan(graph, e.pid, line, e.span), status[e.pid := line])
            && PlaceAll(graph, status, placed, events)
            == PlaceAll(WithSpan(graph, e.pid, line, e.span), status[e.pid := line], placed + [Placed(e, line)], events[1..])
  {
    var e := events[0];
    line := Choose(LinesOf(graph, e.pid), CurrentOf(status, e.pid), e.span);
    GraphStaysOk(graph, status, e);
  }

  /** One request: for any spans of positive length, in any order, every line stays sorted and disjoint,
      and no two spans that share a process and a line overlap. */
  lemma {:induction false} LayoutTheorem(graph: Graph, status: map<int, nat>, placed: seq<Placed>, events: seq<Event>)
    requires GraphOk(graph, status) && LinesOk(graph) && PlacedOk(graph, placed)
    requires forall e :: e in events ==> e.span.start < e.span.end
    ensures var r := PlaceAll(graph, status, placed, events); LinesOk(r.0) && PlacedOk(r.0, r.1)
    decreases |events|
  {
    if events != [] {
      var e := events[0];
      var line := PlaceNext(graph, status, placed, events);
      RowFits(graph, status, e);
      LinesStayOk(graph, e, line);
      PlacedStaysOk(graph, placed, e, line);
      assert forall x :: x in events[1..] ==> x in events;
      LayoutTheorem(WithSpan(graph, e.pid, line, e.span), status[e.pid := line], placed + [Placed(e, line)], events[1..]);
    }
  }

  /** All requests, in any order: starting from nothing, no two spans of positive length ever share a
      process and a line and overlap. */
  lemma {:induction false} RoomsTheorem(graph: Graph, placed: seq<Placed>, rooms: seq<seq<Event>>)
    requires GraphOk(graph, map[]) && LinesOk(graph) && PlacedOk(graph, placed)
    requires forall room, e :: room in rooms && e in room ==> e.span.start < e.span.end
    ensures var r := PlaceRooms(graph, placed, rooms); LinesOk(r.0) && PlacedOk(r.0, r.1)
    decreases |rooms|
  {
    if rooms != [] {
      assert rooms[0] in rooms && forall room :: room in rooms[1..] ==> room in rooms;
      LayoutTheorem(graph, map[], placed, rooms[0]);
      var r := PlaceAll(graph, map[], placed, rooms[0]);
      RoomsTheorem(r.0, r.1, rooms[1..]);
    }
  }

  function EventsOf(placed: seq<Placed>): seq<Event> {
    seq(|placed|, i requires 0 <= i < |placed| => placed[i].event)
  }

  lemma EventsAppend(placed: seq<Placed>, p: Placed, rest: seq<Event>, events: seq<Event>)
    requires events == [p.event] + rest
    ensures EventsOf(placed + [p]) + rest == EventsOf(placed) + events
  {
    assert EventsOf(placed + [p]) == EventsOf(placed) + [p.event];
  }

  lemma {:induction false} PlacedPrefix(graph: Graph, status: map<int, nat>, placed: seq<Placed>, events: seq<Event>)
    requires GraphOk(graph, status)
    ensures placed <= PlaceAll(graph, status, placed, events).1
    ensures |PlaceAll(graph, status, placed, events).1| == |placed| + |events|
    decreases |events|
  {
    if events != [] {
      var e := events[0];
      var line := PlaceNext(graph, status, placed, events);
      PlacedPrefix(WithSpan(graph, e.pid, line, e.span), status[e.pid := line], placed + [Placed(e, line)], events[1..]);
    }
  }

  /** The latest of the first `j` events on process `pid`, or -1. */
  function Latest(events: seq<Event>, j: nat, pid: int): (i: int)
    requires j <= |events|
    ensures -1 <= i < j && (i >= 0 ==> events[i].pid == pid) && forall k :: i < k < j ==> events[k].pid != pid
  {
    if j == 0 then -1 else if events[j - 1].pid == pid then j - 1 else Latest(events, j - 1, pid)
  }

  lemma FirstPlaced(graph: Graph, status: map<int, nat>, placed: seq<Placed>, events: seq<Event>, r: seq<Placed>)
    returns (line: nat, g: Graph, st: map<int, nat>)
    requires GraphOk(graph, status) && events != [] && r == PlaceAll(graph, status, placed, events).1
    ensures var e := events[0];
            && (e.span.start == e.span.end && e.pid in status ==> line == status[e.pid])
            && st == status[e.pid := line] && GraphOk(g, st)
            && r == PlaceAll(g, st, placed + [Placed(e, line)], events[1..]).1
            && |placed| < |r| && r[|placed|] == Placed(e, line)
  {
    var e := events[0];
    line := PlaceNext(graph, status, placed, events);
    g, st := WithSpan(graph, e.pid, line, e.span), status[e.pid := line];
    PlacedPrefix(g, st, placed + [Placed(e, line)], events[1..]);
    assert (placed + [Placed(e, line)])[|placed|] == Placed(e, line);
  }

  /** Zero-length spans follow the current line, and every span sets it. */
  ghost predicate Follows(status: map<int, nat>, events: seq<Event>, tids: seq<nat>)
    requires |events| == |tids|
    decreases |events|
  {
    events != [] ==>
      var e := events[0];
      && (e.span.start == e.span.end && e.pid in status ==> tids[0] == status[e.pid])
      && Follows(status[e.pid := tids[0]], events[1..], tids[1..])
  }

  function TidsFrom(r: seq<Placed>, n: nat): seq<nat>
    requires n <= |r|
  {
    seq<nat>(|r| - n, k requires 0 <= k < |r| - n => r[n + k].tid)
  }

  lemma FollowsNext(status: map<int, nat>, events: seq<Event>, r: seq<Placed>, n: nat)
    requires events != [] && |r| == n + |events|
    requires events[0].span.start == events[0].span.end && events[0].pid in status ==> r[n].tid == status[events[0].pid]
    requires Follows(status[events[0].pid := r[n].tid], events[1..], TidsFrom(r, n + 1))
    ensures Follows(status, events, TidsFrom(r, n))
  {
    assert TidsFrom(r, n)[1..] == TidsFrom(r, n + 1);
  }

  lemma {:induction false} LayoutFollows(graph: Graph, status: map<int, nat>, placed: seq<Placed>, events: seq<Event>, r: seq<Placed>)
    requires GraphOk(graph, status) && r == PlaceAll(graph, status, placed, events).1 && |r| == |placed| + |events|
    ensures Follows(status, events, TidsFrom(r, |placed|))
    decreases |events|
  {
    if events != [] {
      var line, g, st := FirstPlaced(graph, status, placed, events, r);
      LayoutFollows(g, st, placed + [Placed(events[0], line)], events[1..], r);
      FollowsNext(status, events, r, |placed|);
    }
  }

  /** Until another event of the process comes, its current line stays. */
  lemma {:induction false} CurrentStays(status: map<int, nat>, events: seq<Event>, tids: seq<nat>, j: nat)
    requires |events| == |tids| && j < |events| && Follows(status, events, tids)
    requires events[j].span.start == events[j].span.end && events[j].pid in status
    requires forall k :: 0 <= k < j ==> events[k].pid != events[j].pid
    ensures tids[j] == status[events[j].pid]
    decreases |events|
  {
    if j > 0 {
      CurrentStays(status[events[0].pid := tids[0]], events[1..], tids[1..], j - 1);
    }
  }

  lemma {:induction false} StaysFrom(status: map<int, nat>, events: seq<Event>, tids: seq<nat>, i: nat, j: nat)
    requires |events| == |tids| && i < j < |events| && Follows(status, events, tids)
    requires events[j].span.start == events[j].span.end && events[i].pid == events[j].pid
    requires forall k :: i < k < j ==> events[k].pid != events[j].pid
    ensures tids[j] == tids[i]
    decreases |events|
  {
    var st := status[events[0].pid := tids[0]];
    if i == 0 {
      CurrentStays(st, events[1..], tids[1..], j - 1);
    } else {
      StaysFrom(st, events[1..], tids[1..], i - 1, j - 1);
    }
  }

  lemma FollowersStay(events: seq<Event>, r: seq<Placed>, n: nat, j: nat)
    requires |r| == n + |events| && j < |events| && Follows(map[], events, TidsFrom(r, n))
    requires events[j].span.start == events[j].span.end
    ensures var i := Latest(events, j, events[j].pid); i >= 0 ==> r[n + j].tid == r[n + i].tid
  {
    var i := Latest(events, j, events[j].pid);
    if i >= 0 {
      StaysFrom(map[], events, TidsFrom(r, n), i, j);
    }
  }

  /** A zero-length span goes, whatever is there, onto the line of the request's previous span of the same
      process. */
  lemma ZeroLengthStays(graph: Graph, placed: seq<Placed>, events: seq<Event>, j: nat)
    requires GraphOk(graph, map[]) && j < |events| && events[j].span.start == events[j].span.end
    ensures var r, i := PlaceAll(graph, map[], placed, events).1, Latest(events, j, events[j].pid);
            |r| == |placed| + |events| && (i >= 0 ==> r[|placed| + j].tid == r[|placed| + i].tid)
  {
    var r := PlaceAll(graph, map[], placed, events).1;
    PlacedPrefix(graph, map[], placed, events);
    LayoutFollows(graph, map[], placed, events, r);
    FollowersStay(events, r, |placed|, j);
  }

  /** Every event is placed once, in order. */
  lemma {:induction false} EveryEventPlaced(graph: Graph, status: map<int, nat>, placed: seq<Placed>, events: seq<Event>)
    requires GraphOk(graph, status)
    ensures EventsOf(PlaceAll(graph, status, placed, events).1) == EventsOf(placed) + events
    decreases |events|
  {
    if events == [] {
      assert PlaceAll(graph, status, placed, events).1 == placed;
      assert EventsOf(placed) + events == EventsOf(placed);
    } else {
      var e := events[0];
      var line := PlaceNext(graph, status, placed, events);
      EventsAppend(placed, Placed(e, line), events[1..], events);
      EveryEventPlaced(WithSpan(graph, e.pid, line, e.span), status[e.pid := line], placed + [Placed(e, line)], events[1..]);
    }
  }

  // ----- Exactly when the layout is free of overlaps

  ghost predicate LinesTidy(graph: Graph) {
    forall pid, k :: Tidy(Row(graph, pid, k))
  }

  /** Two of the placed spans share a process and a line and overlap. */
  ghost predicate Clash(placed: seq<Placed>) {
    exists i, j :: 0 <= i < j < |placed| && SameLine(placed[i], placed[j]) && Overlap(placed[i].event.span, placed[j].event.span)
  }

  ghost predicate Recorded(placed: seq<Placed>, pid: int, k: int, s: Span) {
    exists i :: 0 <= i < |placed| && placed[i].event.pid == pid && placed[i].tid == k && placed[i].event.span == s
  }

  /** What is on the lines is what was placed, and it does not overlap. */
  ghost predicate LaidOut(graph: Graph, placed: seq<Placed>) {
    && LinesTidy(graph) && PlacedOk(graph, placed)
    && forall pid, k, s :: s in Row(graph, pid, k) ==> Recorded(placed, pid, k, s)
  }

  /** The one branch without a test: a span of no length goes onto the request's current line. It is harmless
      there exactly if it is not strictly inside a span of that line. */
  ghost predicate FitsUntested(graph: Graph, status: map<int, nat>, e: Event) {
    e.span.start == e.span.end && e.pid in status ==> !OverlapsSome(Row(graph, e.pid, status[e.pid]), e.span)
  }

  /** So for every event of a request, at its turn. */
  ghost predicate AllFit(graph: Graph, status: map<int, nat>, events: seq<Event>)
    requires GraphOk(graph, status)
    decreases |events|
  {
    events == [] ||
    var e := events[0];
    var line := Choose(LinesOf(graph, e.pid), CurrentOf(status, e.pid), e.span);
    GraphStaysOk(graph, status, e);
    FitsUntested(graph, status, e) && AllFit(WithSpan(graph, e.pid, line, e.span), status[e.pid := line], events[1..])
  }

  lemma FittingRow(graph: Graph, status: map<int, nat>, e: Event)
    requires GraphOk(graph, status) && LinesTidy(graph) && e.span.start <= e.span.end && FitsUntested(graph, status, e)
    ensures !OverlapsSome(Row(graph, e.pid, Choose(LinesOf(graph, e.pid), CurrentOf(status, e.pid), e.span)), e.span)
  {
    var lines := LinesOf(graph, e.pid);
    var line := Choose(lines, CurrentOf(status, e.pid), e.span);
    FirstFitRange(lines, 1, e.span);
    assert Tidy(Row(graph, e.pid, line));
    if line in lines && !CheckOverlap(lines[line], e.span) {
      CheckIsSafe(lines[line], e.span);
    }
  }

  lemma LinesStayTidy(graph: Graph, e: Event, line: nat)
    requires LinesTidy(graph) && e.span.start <= e.span.end && !OverlapsSome(Row(graph, e.pid, line), e.span)
    ensures LinesTidy(WithSpan(graph, e.pid, line, e.span))
  {
    InsertTidy(Row(graph, e.pid, line), e.span);
    forall p, k ensures Tidy(Row(WithSpan(graph, e.pid, line, e.span), p, k)) {
      RowAfter(graph, e.pid, line, e.span, p, k);
    }
  }

  lemma StillRecorded(placed: seq<Placed>, p: Placed, pid: int, k: int, s: Span)
    requires Recorded(placed, pid, k, s) || (p.event.pid == pid && p.tid == k && p.event.span == s)
    ensures Recorded(placed + [p], pid, k, s)
  {
    var all := placed + [p];
    if Recorded(placed, pid, k, s) {
      var i :| 0 <= i < |placed| && placed[i].event.pid == pid && placed[i].tid == k && placed[i].event.span == s;
      assert all[i] == placed[i];
    } else {
      assert all[|placed|] == p;
    }
  }

  lemma FittingStep(graph: Graph, placed: seq<Placed>, e: Event, line: nat)
    requires LaidOut(graph, placed) && e.span.start <= e.span.end && !OverlapsSome(Row(graph, e.pid, line), e.span)
    ensures LaidOut(WithSpan(graph, e.pid, line, e.span), placed + [Placed(e, line)])
  {
    LinesStayTidy(graph, e, line);
    PlacedStaysOk(graph, placed, e, line);
    var g, p := WithSpan(graph, e.pid, line, e.span), Placed(e, line);
    InsertMembers(Row(graph, e.pid, line), e.span);
    forall pid, k, s | s in Row(g, pid, k) ensures Recorded(placed + [p], pid, k, s) {
      RowAfter(graph, e.pid, line, e.span, pid, k);
      StillRecorded(placed, p, pid, k, s);
    }
  }

  /** A span put strictly inside another one clashes with it. */
  lemma MisfitClashes(graph: Graph, placed: seq<Placed>, e: Event, line: nat)
    requires LaidOut(graph, placed) && OverlapsSome(Row(graph, e.pid, line), e.span)
    ensures Clash(placed + [Placed(e, line)])
  {
    var row, all := Row(graph, e.pid, line), placed + [Placed(e, line)];
    var k :| 0 <= k < |row| && Overlap(row[k], e.span);
    assert row[k] in row && Recorded(placed, e.pid, line, row[k]);
    var i :| 0 <= i < |placed| && placed[i].event.pid == e.pid && placed[i].tid == line && placed[i].event.span == row[k];
    assert all[i] == placed[i] && all[|placed|] == Placed(e, line);
  }

  /** Nothing placed is ever moved, so a clash stays. */
  lemma {:induction false} ClashStays(graph: Graph, status: map<int, nat>, placed: seq<Placed>, events: seq<Event>)
    requires GraphOk(graph, status) && Clash(placed)
    ensures Clash(PlaceAll(graph, status, placed, events).1)
    decreases |events|
  {
    if events != [] {
      var e := events[0];
      var line := PlaceNext(graph, status, placed, events);
      MoreClash(placed, Placed(e, line));
      ClashStays(WithSpan(graph, e.pid, line, e.span), status[e.pid := line], placed + [Placed(e, line)], events[1..]);
    }
  }

  lemma MoreClash(placed: seq<Placed>, p: Placed)
    requires Clash(placed)
    ensures Clash(placed + [p])
  {
    var i, j :| 0 <= i < j < |placed| && SameLine(placed[i], placed[j]) && Overlap(placed[i].event.span, placed[j].event.span);
    var all := placed + [p];
    assert all[i] == placed[i] && all[j] == placed[j];
  }

  /** One request, spans of no length included: no two spans on one line overlap if and only if no span of no
      length meets, at its turn, a longer one around it on the request's current line. */
  lemma {:induction false} LayoutExact(graph: Graph, status: map<int, nat>, placed: seq<Placed>, events: seq<Event>)
    requires GraphOk(graph, status) && LaidOut(graph, placed)
    requires forall e :: e in events ==> e.span.start <= e.span.end
    ensures var r := PlaceAll(graph, status, placed, events);
            (!Clash(r.1) <==> AllFit(graph, status, events)) && (!Clash(r.1) ==> LaidOut(r.0, r.1))
    decreases |events|
  {
    if events != [] {
      var e := events[0];
      var line := PlaceNext(graph, status, placed, events);
      var graph', status', placed' := WithSpan(graph, e.pid, line, e.span), status[e.pid := line], placed + [Placed(e, line)];
      assert forall x :: x in events[1..] ==> x in events;
      if FitsUntested(graph, status, e) {
        FittingRow(graph, status, e);
        FittingStep(graph, placed, e, line);
        LayoutExact(graph', status', placed', events[1..]);
      } else {
        MisfitClashes(graph, placed, e, line);
        ClashStays(graph', status', placed', events[1..]);
      }
    }
  }

  ghost predicate AllRoomsFit(graph: Graph, placed: seq<Placed>, rooms: seq<seq<Event>>)
    requires GraphOk(graph, map[])
    decreases |rooms|
  {
    rooms == [] ||
    var r := PlaceAll(graph, map[], placed, rooms[0]);
    AllFit(graph, map[], rooms[0]) && AllRoomsFit(r.0, r.1, rooms[1..])
  }

  lemma {:induction false} ClashStaysInRooms(graph: Graph, placed: seq<Placed>, rooms: seq<seq<Event>>)
    requires GraphOk(graph, map[]) && Clash(placed)
    ensures Clash(PlaceRooms(graph, placed, rooms).1)
    decreases |rooms|
  {
    if rooms != [] {
      ClashStays(graph, map[], placed, rooms[0]);
      var r := PlaceAll(graph, map[], placed, rooms[0]);
      ClashStaysInRooms(r.0, r.1, rooms[1..]);
    }
  }

  /** The same across all requests. */
  lemma {:induction false} RoomsExact(graph: Graph, placed: seq<Placed>, rooms: seq<seq<Event>>)
    requires GraphOk(graph, map[]) && LaidOut(graph, placed)
    requires forall room, e :: room in rooms && e in room ==> e.span.start <= e.span.end
    ensures !Clash(PlaceRooms(graph, placed, rooms).1) <==> AllRoomsFit(graph, placed, rooms)
    decreases |rooms|
  {
    if rooms != [] {
      assert rooms[0] in rooms && forall room :: room in rooms[1..] ==> room in rooms;
      LayoutExact(graph, map[], placed, rooms[0]);
      var r := PlaceAll(graph, map[], placed, rooms[0]);
      if AllFit(graph, map[], rooms[0]) {
        RoomsExact(r.0, r.1, rooms[1..]);
      } else {
        ClashStaysInRooms(r.0, r.1, rooms[1..]);
      }
    }
  }

  /** Before anything is laid out. */
  lemma EmptyLayout()
    ensures GraphOk(map[], map[]) && LaidOut(map[], [])
  {
  }

  /** The whole layout, from nothing. */
  lemma WholeLayoutExact(rooms: seq<seq<Event>>)
    requires forall room, e :: room in rooms && e in room ==> e.span.start <= e.span.end
    ensures !Clash(PlaceRooms(map[], [], rooms).1) <==> AllRoomsFit(map[], [], rooms)
  {
    EmptyLayout();
    RoomsExact(map[], [], rooms);
  }

  // ----- A condition on the input alone

  /** No span of no length lies strictly inside a span of the same process. */
  ghost predicate NoneInside(all: set<Event>) {
    forall x, y :: x in all && y in all && x.pid == y.pid && x.span.start == x.span.end ==> !Overlap(y.span, x.span)
  }

  ghost predicate AllFrom(events: seq<Event>, all: set<Event>) {
    forall i :: 0 <= i < |events| ==> events[i] in all
  }

  lemma RowFromInput(graph: Graph, placed: seq<Placed>, all: set<Event>, e: Event, line: int)
    requires LaidOut(graph, placed) && AllFrom(EventsOf(placed), all) && NoneInside(all)
    requires e in all && e.span.start == e.span.end
    ensures !OverlapsSome(Row(graph, e.pid, line), e.span)
  {
    var row := Row(graph, e.pid, line);
    forall k | 0 <= k < |row| ensures !Overlap(row[k], e.span) {
      assert row[k] in row && Recorded(placed, e.pid, line, row[k]);
      var i :| 0 <= i < |placed| && placed[i].event.pid == e.pid && placed[i].tid == line && placed[i].event.span == row[k];
      assert EventsOf(placed)[i] == placed[i].event;
    }
  }

  lemma MoreFromInput(placed: seq<Placed>, p: Placed, all: set<Event>)
    requires AllFrom(EventsOf(placed), all) && p.event in all
    ensures AllFrom(EventsOf(placed + [p]), all)
  {
    assert EventsOf(placed + [p]) == EventsOf(placed) + [p.event];
  }

  lemma InputStep(graph: Graph, status: map<int, nat>, placed: seq<Placed>, all: set<Event>, e: Event, line: nat)
    requires GraphOk(graph, status) && LaidOut(graph, placed) && NoneInside(all) && AllFrom(EventsOf(placed), all)
    requires e in all && e.span.start <= e.span.end
    requires line == Choose(LinesOf(graph, e.pid), CurrentOf(status, e.pid), e.span)
    ensures FitsUntested(graph, status, e)
    ensures LaidOut(WithSpan(graph, e.pid, line, e.span), placed + [Placed(e, line)])
    ensures AllFrom(EventsOf(placed + [Placed(e, line)]), all)
  {
    if e.span.start == e.span.end && e.pid in status {
      RowFromInput(graph, placed, all, e, status[e.pid]);
    }
    FittingRow(graph, status, e);
    FittingStep(graph, placed, e, line);
    MoreFromInput(placed, Placed(e, line), all);
  }

  lemma {:induction false} InputFits(graph: Graph, status: map<int, nat>, placed: seq<Placed>, events: seq<Event>, all: set<Event>)
    requires GraphOk(graph, status) && LaidOut(graph, placed) && NoneInside(all)
    requires AllFrom(EventsOf(placed), all) && AllFrom(events, all) && forall e :: e in all ==> e.span.start <= e.span.end
    ensures AllFit(graph, status, events)
    decreases |events|
  {
    if events != [] {
      var e := events[0];
      var line := PlaceNext(graph, status, placed, events);
      InputStep(graph, status, placed, all, e, line);
      InputFits(WithSpan(graph, e.pid, line, e.span), status[e.pid := line], placed + [Placed(e, line)], events[1..], all);
    }
  }

  lemma {:induction false} InputRoomsFit(graph: Graph, placed: seq<Placed>, rooms: seq<seq<Event>>, all: set<Event>)
    requires GraphOk(graph, map[]) && LaidOut(graph, placed) && NoneInside(all)
    requires AllFrom(EventsOf(placed), all) && forall e :: e in all ==> e.span.start <= e.span.end
    requires forall i :: 0 <= i < |rooms| ==> AllFrom(rooms[i], all)
    ensures AllRoomsFit(graph, placed, rooms)
    decreases |rooms|
  {
    if rooms != [] {
      var r := PlaceAll(graph, map[], placed, rooms[0]);
      assert AllFrom(rooms[0], all);
      InputFits(graph, map[], placed, rooms[0], all);
      assert forall e :: e in rooms[0] ==> e in all;
      LayoutExact(graph, map[], placed, rooms[0]);
      EveryEventPlaced(graph, map[], placed, rooms[0]);
      InputRoomsFit(r.0, r.1, rooms[1..], all);
    }
  }

  /** Checkable before the call: if no zero-length span of the input lies strictly inside a span of the same
      process, the whole layout is free of overlaps. */
  lemma CleanInput(rooms: seq<seq<Event>>, all: set<Event>)
    requires forall i :: 0 <= i < |rooms| ==> AllFrom(rooms[i], all)
    requires NoneInside(all) && forall e :: e in all ==> e.span.start <= e.span.end
    ensures !Clash(PlaceRooms(map[], [], rooms).1)
  {
    EmptyLayout();
    InputRoomsFit(map[], [], rooms, all);
    forall room, e | room in rooms && e in room ensures e.span.start <= e.span.end {
      var i :| 0 <= i < |rooms| && rooms[i] == room;
      var j :| 0 <= j < |room| && room[j] == e;
      assert AllFrom(rooms[i], all);
    }
    WholeLayoutExact(rooms);
  }

  // The three spans of the example.
  const LONG := Event(1, Span(0, 100))
  const EMPTY := Event(1, Span(50, 50))
  const INNER := Event(1, Span(60, 70))

  lemma InnerIsPlaced(graph: Graph, placed: seq<Placed>)
    requires GraphOk(graph, map[1 := 1]) && Row(graph, 1, 1) == [LONG.span, EMPTY.span]
    ensures PlaceAll(graph, map[1 := 1], placed, [INNER]).1 == placed + [Placed(INNER, 1)]
  {
    var a, z := LONG.span, EMPTY.span;
    assert [a, z][1..] == [z] && [z][1..] == [];
    assert Bisect([a, z], 60) == 2;
    var line := PlaceNext(graph, map[1 := 1], placed, [INNER]);
    assert [INNER][1..] == [];
  }

  lemma EmptyHides(graph: Graph, placed: seq<Placed>)
    requires GraphOk(graph, map[1 := 1]) && Row(graph, 1, 1) == [LONG.span]
    ensures PlaceAll(graph, map[1 := 1], placed, [EMPTY, INNER]).1 == placed + [Placed(EMPTY, 1), Placed(INNER, 1)]
  {
    var a, z := LONG.span, EMPTY.span;
    assert [a][1..] == [];
    assert Insert([a], z) == [a] + Insert([], z);
    var line := PlaceNext(graph, map[1 := 1], placed, [EMPTY, INNER]);
    assert [EMPTY, INNER][1..] == [INNER] && (map[1 := 1])[1 := 1] == map[1 := 1];
    InnerIsPlaced(WithSpan(graph, 1, 1, z), placed + [Placed(EMPTY, 1)]);
    assert placed + [Placed(EMPTY, 1)] + [Placed(INNER, 1)] == placed + [Placed(EMPTY, 1), Placed(INNER, 1)];
  }

  lemma LongIsFirst() returns (graph: Graph)
    ensures GraphOk(graph, map[1 := 1]) && Row(graph, 1, 1) == [LONG.span]
    ensures PlaceAll(map[], map[], [], [LONG, EMPTY, INNER]) == PlaceAll(graph, map[1 := 1], [Placed(LONG, 1)], [EMPTY, INNER])
  {
    var none: seq<Placed> := [];
    var line := PlaceNext(map[], map[], none, [LONG, EMPTY, INNER]);
    graph := WithSpan(map[], 1, 1, LONG.span);
    assert [LONG, EMPTY, INNER][1..] == [EMPTY, INNER] && (map[])[1 := 1] == map[1 := 1];
    assert none + [Placed(LONG, 1)] == [Placed(LONG, 1)];
  }

  /** A span of no length breaks it: once (50,50) has gone, untested, onto the line of (0,100), it hides that
      span from (60,70), which is put on the same line. */
  lemma ZeroLengthBreaksIt()
    ensures PlaceAll(map[], map[], [], [LONG, EMPTY, INNER]).1 == [Placed(LONG, 1), Placed(EMPTY, 1), Placed(INNER, 1)]
    ensures Clash([Placed(LONG, 1), Placed(INNER, 1)])
  {
    var graph := LongIsFirst();
    EmptyHides(graph, [Placed(LONG, 1)]);
    InnerClashes();
  }

  lemma InnerClashes()
    ensures Clash([Placed(LONG, 1), Placed(INNER, 1)])
  {
    var two := [Placed(LONG, 1), Placed(INNER, 1)];
    assert SameLine(two[0], two[1]) && Overlap(two[0].event.span, two[1].event.span);
  }
}
