/** What every step of every rank keeps: all ranks stand within one collective of a common front. */
module LockstepInvariant {
  import opened EarlyStopping
  import opened Ranks
  import opened Trainer

  /** Where the whole job stands: `trace` is the list of collectives every rank has issued, `at` the
      program point of the last of them, `flag` the agreed early-stop flag after it, and `next` the
      collective (or exit) all ranks are heading for. */
  datatype Front = Front(trace: seq<Op>, at: Pc, flag: bool, next: Pc)

  /** The run so far and what is left of it make up the run of one rank that is told the verdicts. */
  ghost predicate OnCourse(c: Config, b: nat, g: Front, v: Verdicts) {
    var n := Broadcasts(g.trace);
    && g.flag == v(n)
    && g.trace + Guided(c, b, g.next, g.flag, n, v) == Guided(c, b, Begin, false, 0, v)
    && GuidedExit(c, b, g.next, g.flag, n, v) == GuidedExit(c, b, Begin, false, 0, v)
  }

  /** The next collective is what the program reaches from the last one, or from its beginning. */
  ghost predicate Heading(c: Config, g: Front)
    requires Valid(c)
  {
    var b := c.batches[0];
    && (g.trace == [] ==> g.next == Ahead(c, b, Begin, false) && !g.flag)
    && (g.trace != [] ==>
          && Fetch(c, b, g.at, g.flag).Collect?
          && g.trace[|g.trace| - 1] == Fetch(c, b, g.at, g.flag).op
          && g.next == Ahead(c, b, Fetch(c, b, g.at, g.flag).next, g.flag))
  }

  /** Still blocked in the last common collective. */
  ghost predicate Lagging(g: Front, me: Rank) {
    && me.pending && g.trace != [] && me.pc == g.at && Ops(me.calls) == g.trace
    && (g.trace[|g.trace| - 1].Broadcast? || me.tracker.earlyStop == g.flag)
  }

  /** Only rank 0, between its own validation and the broadcast that shares it, may hold another flag. */
  ghost predicate FlagOk(g: Front, me: Rank, r: nat) {
    (r == 0 && me.pc.SyncFlag? && !g.flag) || me.tracker.earlyStop == g.flag
  }

  /** Past the last common collective, on the way to the next one. */
  ghost predicate Running(c: Config, g: Front, me: Rank, r: nat)
    requires Valid(c)
  {
    && !me.pending && Ops(me.calls) == g.trace && FlagOk(g, me, r)
    && Ahead(c, c.batches[0], me.pc, me.tracker.earlyStop) == g.next
    && (c.valFullset && me.pc.LeaveVal? ==> g.trace != [] && g.at == ValBarrier(me.pc.site))
  }

  /** Already blocked in the next collective. */
  ghost predicate Waiting(c: Config, g: Front, me: Rank, r: nat)
    requires Valid(c)
  {
    && me.pending && me.pc == g.next && FlagOk(g, me, r)
    && Fetch(c, c.batches[0], g.next, false).Collect?
    && Ops(me.calls) == g.trace + [Fetch(c, c.batches[0], g.next, false).op]
  }

  ghost predicate Placed(c: Config, g: Front, me: Rank, r: nat)
    requires Valid(c)
  {
    Lagging(g, me) || Running(c, g, me, r) || Waiting(c, g, me, r)
  }

  /** The flag in the last call of a blocked rank is the rank's own flag. */
  ghost predicate SentOwnFlag(me: Rank) {
    me.pending ==> me.calls != [] && me.calls[|me.calls| - 1].flag == me.tracker.earlyStop
  }

  /** Every rank is within one collective of the front. */
  ghost predicate InPlace(c: Config, w: World, g: Front) {
    && Valid(c) && |w| == |c.batches| && Heading(c, g)
    && (forall r :: 0 <= r < |w| ==> Placed(c, g, w[r], r) && SentOwnFlag(w[r]))
    && (g.trace != [] && g.trace[|g.trace| - 1].Broadcast? ==> w[0].calls[|g.trace| - 1].flag == g.flag)
  }

  /** Rank 0's state is what the early-stopping rule makes of its reports. */
  ghost predicate Informed(c: Config, me: Rank, v: Verdicts) {
    && me.tracker == Replay(me.reports, c.layerIds, c.patience)
    && ReportsShared(me) && Agrees(c, v, me.reports)
  }

  ghost predicate Inv(c: Config, w: World, g: Front, v: Verdicts) {
    InPlace(c, w, g) && OnCourse(c, c.batches[0], g, v) && Informed(c, w[0], v)
  }

  function StartFront(c: Config): Front
    requires |c.batches| > 0
  {
    Front([], Begin, false, Ahead(c, c.batches[0], Begin, false))
  }

  lemma StartInv(c: Config, v: Verdicts)
    requires Valid(c) && Agrees(c, v, [])
    ensures Inv(c, Start(c), StartFront(c), v)
  {
    var b := c.batches[0];
    GuidedAhead(c, b, Begin, false, 0, v);
    assert [] + Guided(c, b, Begin, false, 0, v) == Guided(c, b, Begin, false, 0, v);
    assert !v(0) by {
      var none: seq<Report> := [];
      assert v(0) == Replay(none[..0], c.layerIds, c.patience).earlyStop;
    }
  }

  /** Local steps keep a running rank heading for the same collective. */
  lemma RunKeepsPlace(c: Config, w: World, g: Front, r: nat, report: Report)
    requires InPlace(c, w, g) && r < |w| && !w[r].pending && !FetchOf(c, w, r).Halt?
    ensures Placed(c, g, RunRank(c, w, r, report), r) && SentOwnFlag(RunRank(c, w, r, report))
  {
    var me, me' := w[r], RunRank(c, w, r, report);
    assert Placed(c, g, me, r) && Running(c, g, me, r);
    match FetchOf(c, w, r)
    case Goto(next) =>
    case RunVal(next) =>
      assert Ahead(c, c.batches[0], next, me.tracker.earlyStop) == next;
    case Collect(op, next) =>
      assert Ops(me'.calls) == Ops(me.calls) + [op];
      FetchFlagFree(c, c.batches[0], me.pc, me.tracker.earlyStop, false);
  }

  lemma RunInPlace(c: Config, w: World, g: Front, r: nat, report: Report)
    requires InPlace(c, w, g) && r < |w| && !w[r].pending && !FetchOf(c, w, r).Halt?
    ensures InPlace(c, w[r := RunRank(c, w, r, report)], g)
  {
    RunKeepsPlace(c, w, g, r, report);
    if r == 0 {
      assert Placed(c, g, w[0], 0) && Running(c, g, w[0], 0);
      assert |w[0].calls| == |Ops(w[0].calls)| == |g.trace|;
    }
  }

  lemma RunShares(c: Config, w: World, report: Report)
    requires 0 < |w| == |c.batches| && !w[0].pending && !FetchOf(c, w, 0).Halt? && ReportsShared(w[0])
    ensures ReportsShared(RunRank(c, w, 0, report))
  {
    var me, me' := w[0], RunRank(c, w, 0, report);
    SharingPoint(c, c.batches[0], me.pc, me.tracker.earlyStop);
    match FetchOf(c, w, 0)
    case Goto(_) =>
    case RunVal(_) =>
    case Collect(op, _) =>
      assert Ops(me'.calls) == Ops(me.calls) + [op];
      BroadcastsLast(Ops(me.calls), op);
  }

  lemma CompleteShares(c: Config, w: World)
    requires 0 < |w| == |c.batches| && w[0].pending && FetchOf(c, w, 0).Collect? && w[0].calls != [] && ReportsShared(w[0])
    ensures ReportsShared(CompleteRank(c, w, 0))
  {
    SharingPoint(c, c.batches[0], w[0].pc, w[0].tracker.earlyStop);
  }

  lemma RunInforms(c: Config, w: World, report: Report, v: Verdicts)
    requires 0 < |w| == |c.batches| && !w[0].pending && !FetchOf(c, w, 0).Halt? && Informed(c, w[0], v)
    requires Agrees(c, v, RunRank(c, w, 0, report).reports)
    ensures Informed(c, RunRank(c, w, 0, report), v)
  {
    RunShares(c, w, report);
    var reports := w[0].reports;
    assert (reports + [report])[..|reports|] == reports;
  }

  lemma RunInv(c: Config, w: World, g: Front, r: nat, report: Report, v: Verdicts)
    requires Inv(c, w, g, v) && r < |w| && !w[r].pending && !FetchOf(c, w, r).Halt?
    requires r == 0 ==> Agrees(c, v, RunRank(c, w, r, report).reports)
    ensures Inv(c, w[r := RunRank(c, w, r, report)], g, v)
  {
    RunInPlace(c, w, g, r, report);
    if r == 0 {
      RunInforms(c, w, report, v);
    }
  }

  /** The next collective becomes the last common one. A broadcast brings the next verdict. */
  lemma NextFront(c: Config, b: nat, g: Front, flag: bool, v: Verdicts) returns (h: Front)
    requires OnCourse(c, b, g, v) && Fetch(c, b, g.next, false).Collect?
    requires flag == if Fetch(c, b, g.next, false).op.Broadcast? then v(Broadcasts(g.trace) + 1) else g.flag
    ensures var act := Fetch(c, b, g.next, false);
            h == Front(g.trace + [act.op], g.next, flag, Ahead(c, b, act.next, flag))
    ensures OnCourse(c, b, h, v)
  {
    var act := Fetch(c, b, g.next, false);
    h := Front(g.trace + [act.op], g.next, flag, Ahead(c, b, act.next, flag));
    BroadcastsLast(g.trace, act.op);
    FetchFlagFree(c, b, g.next, false, g.flag);
    var m := Broadcasts(h.trace);
    GuidedAhead(c, b, act.next, flag, m, v);
    assert Guided(c, b, g.next, g.flag, Broadcasts(g.trace), v) == [act.op] + Guided(c, b, act.next, flag, m, v);
    Regroup(g.trace, act.op, Guided(c, b, act.next, flag, m, v));
  }

  lemma Regroup(trace: seq<Op>, op: Op, rest: seq<Op>)
    ensures trace + ([op] + rest) == trace + [op] + rest
  {
  }

  /** What rank 0 sends in the next broadcast is the next verdict. */
  lemma NextVerdict(c: Config, g: Front, me: Rank, v: Verdicts)
    requires Valid(c) && Informed(c, me, v) && Waiting(c, g, me, 0) && Fetch(c, c.batches[0], g.next, false).op.Broadcast?
    ensures me.tracker.earlyStop == v(Broadcasts(g.trace) + 1)
  {
    BroadcastsLast(g.trace, Broadcast);
    assert me.reports[..|me.reports|] == me.reports;
  }

  /** When every rank is blocked in the next collective, that one becomes the last common one. */
  lemma ShiftInPlace(c: Config, w: World, g: Front, h: Front)
    requires InPlace(c, w, g) && forall r :: 0 <= r < |w| ==> Waiting(c, g, w[r], r)
    requires Fetch(c, c.batches[0], g.next, false).Collect?
    requires var act := Fetch(c, c.batches[0], g.next, false);
             && h == Front(g.trace + [act.op], g.next, h.flag, Ahead(c, c.batches[0], act.next, h.flag))
             && h.flag == if act.op.Broadcast? then w[0].tracker.earlyStop else g.flag
    ensures InPlace(c, w, h) && forall r :: 0 <= r < |w| ==> Lagging(h, w[r])
  {
    FetchFlagFree(c, c.batches[0], g.next, false, h.flag);
    assert Waiting(c, g, w[0], 0);
    assert |w[0].calls| == |Ops(w[0].calls)| == |h.trace|;
    forall r | 0 <= r < |w| ensures Lagging(h, w[r]) && SentOwnFlag(w[r]) {
      assert Waiting(c, g, w[r], r) && Placed(c, g, w[r], r);
    }
  }

  lemma Shift(c: Config, w: World, g: Front, v: Verdicts) returns (h: Front)
    requires Inv(c, w, g, v) && forall r :: 0 <= r < |w| ==> Waiting(c, g, w[r], r)
    ensures Inv(c, w, h, v) && forall r :: 0 <= r < |w| ==> Lagging(h, w[r])
  {
    var b := c.batches[0];
    var act := Fetch(c, b, g.next, false);
    assert Waiting(c, g, w[0], 0);
    var flag := if act.op.Broadcast? then w[0].tracker.earlyStop else g.flag;
    if act.op.Broadcast? {
      NextVerdict(c, g, w[0], v);
    }
    h := NextFront(c, b, g, flag, v);
    ShiftInPlace(c, w, g, h);
  }

  /** The last common collective has been issued by everyone. */
  lemma LaggingMatched(c: Config, w: World, g: Front, r: nat)
    requires InPlace(c, w, g) && r < |w| && Lagging(g, w[r])
    ensures Matched(w, r) && |w[r].calls| == |g.trace|
  {
    var n := |g.trace|;
    assert |w[r].calls| == |Ops(w[r].calls)| == n && Ops(w[r].calls)[n - 1] == w[r].calls[n - 1].op;
    forall q | 0 <= q < |w| ensures |w[q].calls| >= n && w[q].calls[n - 1].op == g.trace[n - 1] {
      assert Placed(c, g, w[q], q);
      assert |w[q].calls| == |Ops(w[q].calls)|;
      assert Ops(w[q].calls)[n - 1] == g.trace[n - 1];
    }
  }

  /** A rank blocked in the last common collective can go on, with the agreed flag. */
  lemma CompleteInPlace(c: Config, w: World, g: Front, r: nat)
    requires InPlace(c, w, g) && r < |w| && Lagging(g, w[r])
    ensures Enabled(c, w, Complete(r))
    ensures InPlace(c, w[r := CompleteRank(c, w, r)], g)
    ensures r == 0 ==> CompleteRank(c, w, r).tracker == w[0].tracker
  {
    var me := w[r];
    FetchFlagFree(c, c.batches[0], g.at, g.flag, me.tracker.earlyStop);
    LaggingMatched(c, w, g, r);
    var me' := CompleteRank(c, w, r);
    assert me'.tracker.earlyStop == g.flag;
    assert Running(c, g, me', r);
  }

  lemma CompleteLagging(c: Config, w: World, g: Front, r: nat, v: Verdicts)
    requires Inv(c, w, g, v) && r < |w| && Lagging(g, w[r])
    ensures Enabled(c, w, Complete(r))
    ensures Inv(c, w[r := CompleteRank(c, w, r)], g, v)
  {
    CompleteInPlace(c, w, g, r);
    if r == 0 {
      CompleteShares(c, w);
    }
  }

  /** If a blocked rank is matched, its collective is the last common one, possibly after a shift. */
  lemma CompleteInv(c: Config, w: World, g: Front, r: nat, v: Verdicts) returns (h: Front)
    requires Inv(c, w, g, v) && r < |w| && Enabled(c, w, Complete(r))
    ensures Inv(c, w[r := CompleteRank(c, w, r)], h, v)
  {
    h := g;
    assert Placed(c, g, w[r], r);
    if Waiting(c, g, w[r], r) && !Lagging(g, w[r]) {
      forall q | 0 <= q < |w| ensures Waiting(c, g, w[q], q) {
        assert Placed(c, g, w[q], q);
        assert |w[q].calls| == |Ops(w[q].calls)| && |w[r].calls| == |Ops(w[r].calls)|;
      }
      h := Shift(c, w, g, v);
    }
    CompleteLagging(c, w, h, r, v);
  }

  lemma {:induction false} RunsKeepInv(c: Config, w: World, g: Front, steps: seq<Step>, v: Verdicts) returns (h: Front)
    requires Inv(c, w, g, v) && IsRun(c, w, steps) && Agrees(c, v, After(c, w, steps)[0].reports)
    ensures Inv(c, After(c, w, steps), h, v)
    decreases |steps|
  {
    if steps == [] {
      h := g;
    } else {
      var g', w' := g, Apply(c, w, steps[0]);
      ReportsGrow(c, w', steps[1..]);
      AgreesPrefix(c, v, w'[0].reports, After(c, w, steps)[0].reports);
      match steps[0] {
        case Run(r, report) => RunInv(c, w, g, r, report, v);
        case Complete(r) => g' := CompleteInv(c, w, g, r, v);
      }
      h := RunsKeepInv(c, w', g', steps[1..], v);
    }
  }

  /** Every reachable state, with the early-stopping rule on rank 0's reports as the verdicts. */
  lemma Reached(c: Config, steps: seq<Step>) returns (g: Front, v: Verdicts)
    requires Valid(c) && IsRun(c, Start(c), steps)
    ensures v == VerdictOf(c, After(c, Start(c), steps)[0].reports) && Sticky(v)
    ensures Inv(c, After(c, Start(c), steps), g, v)
  {
    var reports := After(c, Start(c), steps)[0].reports;
    v := VerdictOf(c, reports);
    VerdictSticks(c, reports);
    AgreesPrefix(c, v, [], reports);
    StartInv(c, v);
    g := RunsKeepInv(c, Start(c), StartFront(c), steps, v);
  }
}
