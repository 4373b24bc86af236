/** N ranks running the joint training program (training/train.py, `_train_joint`) under blocking
    collectives. Ranks interleave freely, and a collective completes for a rank only when every rank has
    issued the same one. */
module Ranks {
  import opened EarlyStopping
  import opened Trainer

  /** One collective call: the operation and the flag in the caller's own tensor. */
  datatype Call = Call(op: Op, flag: bool)

  datatype Rank = Rank(
    pc: Pc,
    tracker: Tracker,        // the `state` dictionary
    reports: seq<Report>,    // validations this rank has run
    calls: seq<Call>,        // collectives issued so far
    pending: bool)           // blocked in the last of them

  type World = seq<Rank>

  datatype Step = Run(rank: nat, report: Report) | Complete(rank: nat)

  function FetchOf(c: Config, w: World, r: nat): Action
    requires r < |w| == |c.batches|
  {
    Fetch(c, c.batches[r], w[r].pc, w[r].tracker.earlyStop)
  }

  /** The last collective of `r` has been issued, as the same operation, by every rank. */
  ghost predicate Matched(w: World, r: nat)
    requires r < |w|
  {
    var n := |w[r].calls|;
    n > 0 && forall q :: 0 <= q < |w| ==> |w[q].calls| >= n && w[q].calls[n - 1].op == w[r].calls[n - 1].op
  }

  ghost predicate Enabled(c: Config, w: World, s: Step)
    requires |w| == |c.batches|
  {
    match s
    case Run(r, _) => r < |w| && !w[r].pending && !FetchOf(c, w, r).Halt?
    case Complete(r) => r < |w| && w[r].pending && FetchOf(c, w, r).Collect? && Matched(w, r)
  }

  function RunRank(c: Config, w: World, r: nat, report: Report): Rank
    requires r < |w| == |c.batches| && !FetchOf(c, w, r).Halt?
  {
    var me := w[r];
    match FetchOf(c, w, r)
    case Goto(next) => me.(pc := next)
    case RunVal(next) =>
      if r == 0 then
        me.(pc := next, tracker := Update(me.tracker, report, |me.reports|, c.patience), reports := me.reports + [report])
      else me.(pc := next)
    case Collect(op, _) => me.(calls := me.calls + [Call(op, me.tracker.earlyStop)], pending := true)
  }

  /** A completed broadcast overwrites the flag with the one rank 0 sent in the matching call. */
  function CompleteRank(c: Config, w: World, r: nat): Rank
    requires r < |w| == |c.batches| && FetchOf(c, w, r).Collect?
    requires 0 < |w[r].calls| <= |w[0].calls|
  {
    var me := w[r];
    var act := FetchOf(c, w, r);
    var flag := if act.op.Broadcast? then w[0].calls[|me.calls| - 1].flag else me.tracker.earlyStop;
    me.(pc := act.next, pending := false, tracker := me.tracker.(earlyStop := flag))
  }

  ghost function Apply(c: Config, w: World, s: Step): World
    requires |w| == |c.batches| && Enabled(c, w, s)
  {
    match s
    case Run(r, report) => w[r := RunRank(c, w, r, report)]
    case Complete(r) => w[r := CompleteRank(c, w, r)]
  }

  function Start(c: Config): World {
    seq(|c.batches|, _ => Rank(Begin, Initial(c.layerIds), [], [], false))
  }

  ghost predicate IsRun(c: Config, w: World, steps: seq<Step>)
    requires |w| == |c.batches|
    decreases |steps|
  {
    steps == [] || (Enabled(c, w, steps[0]) && IsRun(c, Apply(c, w, steps[0]), steps[1..]))
  }

  ghost function After(c: Config, w: World, steps: seq<Step>): (w': World)
    requires |w| == |c.batches| && IsRun(c, w, steps)
    ensures |w'| == |w|
    decreases |steps|
  {
    if steps == [] then w else After(c, Apply(c, w, steps[0]), steps[1..])
  }

  /** At least one rank, and every loader yields the same number of batches. */
  ghost predicate Valid(c: Config) {
    |c.batches| == c.world > 0 && forall r :: 0 <= r < c.world ==> c.batches[r] == c.batches[0]
  }

  ghost predicate AllExited(w: World) {
    forall r :: 0 <= r < |w| ==> w[r].pc.Exit? && !w[r].pending
  }

  function Ops(calls: seq<Call>): seq<Op> {
    seq(|calls|, i requires 0 <= i < |calls| => calls[i].op)
  }

  // ----- The other ranks run no validation

  /** Rank 0 aside, nobody has validated, and trackers are as they started but for the flag. */
  ghost predicate OnlyRankZero(c: Config, w: World) {
    forall r :: 0 < r < |w| ==> w[r].reports == [] && w[r].tracker == Initial(c.layerIds).(earlyStop := w[r].tracker.earlyStop)
  }

  lemma {:induction false} OthersStay(c: Config, w: World, steps: seq<Step>)
    requires |w| == |c.batches| && IsRun(c, w, steps) && OnlyRankZero(c, w)
    ensures OnlyRankZero(c, After(c, w, steps))
    decreases |steps|
  {
    if steps != [] {
      OthersStay(c, Apply(c, w, steps[0]), steps[1..]);
    }
  }

  /** In every run only rank 0 validates: the others keep no report and no metric, and of their trackers only
      the early-stop flag changes. */
  lemma OnlyRankZeroValidates(c: Config, steps: seq<Step>, r: nat)
    requires IsRun(c, Start(c), steps) && 0 < r < |c.batches|
    ensures var me := After(c, Start(c), steps)[r];
            me.reports == [] && me.tracker == Initial(c.layerIds).(earlyStop := me.tracker.earlyStop)
  {
    OthersStay(c, Start(c), steps);
  }

  // ----- The validations of rank 0

  /** Every validation that rank 0 has run is shared by one broadcast, the last one possibly still to come. */
  ghost predicate ReportsShared(me: Rank) {
    |me.reports| == Broadcasts(Ops(me.calls)) + if me.pc.SyncFlag? && !me.pending then 1 else 0
  }

  /** The early-stop flag after the first `k` reports. */
  function VerdictOf(c: Config, reports: seq<Report>): Verdicts {
    (k: nat) => Replay(if k <= |reports| then reports[..k] else reports, c.layerIds, c.patience).earlyStop
  }

  /** `v` is the early-stopping rule, as far as there are reports. */
  ghost predicate Agrees(c: Config, v: Verdicts, reports: seq<Report>) {
    forall k: nat :: k <= |reports| ==> v(k) == Replay(reports[..k], c.layerIds, c.patience).earlyStop
  }

  lemma VerdictSticks(c: Config, reports: seq<Report>)
    ensures Agrees(c, VerdictOf(c, reports), reports) && Sticky(VerdictOf(c, reports))
  {
    var v := VerdictOf(c, reports);
    assert reports[..|reports|] == reports;
    forall i: nat, j: nat | i <= j && v(i) ensures v(j) {
      var m, n := if i <= |reports| then i else |reports|, if j <= |reports| then j else |reports|;
      assert reports[..n][..m] == reports[..m];
      EarlyStopSticks(reports[..n], m, c.layerIds, c.patience);
    }
  }

  lemma AgreesPrefix(c: Config, v: Verdicts, some: seq<Report>, all: seq<Report>)
    requires some <= all && Agrees(c, v, all)
    ensures Agrees(c, v, some)
  {
    forall k: nat | k <= |some| ensures v(k) == Replay(some[..k], c.layerIds, c.patience).earlyStop {
      assert some[..k] == all[..k];
    }
  }

  lemma {:induction false} ReportsGrow(c: Config, w: World, steps: seq<Step>)
    requires |w| == |c.batches| > 0 && IsRun(c, w, steps)
    ensures w[0].reports <= After(c, w, steps)[0].reports
    decreases |steps|
  {
    if steps != [] {
      ReportsGrow(c, Apply(c, w, steps[0]), steps[1..]);
    }
  }

  // ----- Every run is finite

  function Work(c: Config, b: nat, me: Rank): nat {
    2 * Remaining(c, b, me.pc) + (if me.pending then 0 else 1)
  }

  function TotalWork(c: Config, w: World, n: nat): nat
    requires n <= |w| == |c.batches|
  {
    if n == 0 then 0 else TotalWork(c, w, n - 1) + Work(c, c.batches[n - 1], w[n - 1])
  }

  lemma {:induction false} WorkUpdate(c: Config, w: World, r: nat, me: Rank, n: nat)
    requires n <= |w| == |c.batches| && r < |w|
    ensures TotalWork(c, w[r := me], n) + (if r < n then Work(c, c.batches[r], w[r]) else 0)
         == TotalWork(c, w, n) + (if r < n then Work(c, c.batches[r], me) else 0)
  {
    if n > 0 {
      WorkUpdate(c, w, r, me, n - 1);
    }
  }

  lemma StepWorks(c: Config, w: World, s: Step)
    requires |w| == |c.batches| && Enabled(c, w, s)
    ensures TotalWork(c, Apply(c, w, s), |w|) < TotalWork(c, w, |w|)
  {
    var r := s.rank;
    Progress(c, c.batches[r], w[r].pc, w[r].tracker.earlyStop);
    WorkUpdate(c, w, r, Apply(c, w, s)[r], |w|);
  }

  /** No run is longer than the work the program starts with, so with `LockstepTheorem` every run that
      is continued as long as possible ends with all ranks out of the program. */
  lemma {:induction false} RunsAreFinite(c: Config, w: World, steps: seq<Step>)
    requires |w| == |c.batches| && IsRun(c, w, steps)
    ensures |steps| + TotalWork(c, After(c, w, steps), |w|) <= TotalWork(c, w, |w|)
    decreases |steps|
  {
    if steps != [] {
      StepWorks(c, w, steps[0]);
      RunsAreFinite(c, Apply(c, w, steps[0]), steps[1..]);
    }
  }
}
