/** The lockstep theorems of the joint trainer (training/train.py, `_train_joint`): for every number of
    ranks, every interleaving and every validation result. */
module Lockstep {
  import opened EarlyStopping
  import opened LockstepInvariant
  import opened Ranks
  import opened Trainer

  ghost predicate Prefix(a: seq<Op>, b: seq<Op>) {
    a <= b && |b| <= |a| + 1
  }

  lemma TracesAgree(c: Config, w: World, g: Front, r: nat, q: nat)
    requires InPlace(c, w, g) && r < |w| && q < |w|
    ensures Prefix(Ops(w[r].calls), Ops(w[q].calls)) || Prefix(Ops(w[q].calls), Ops(w[r].calls))
  {
    assert Placed(c, g, w[r], r) && Placed(c, g, w[q], q);
  }

  /** A rank that is neither blocked nor out can move. */
  lemma FreeMove(c: Config, w: World, r: nat) returns (s: Step)
    requires r < |w| == |c.batches| && !w[r].pending && !w[r].pc.Exit?
    ensures Enabled(c, w, s)
  {
    s := Run(r, Report(Score(0.0, 0.0), map[]));
  }

  lemma NoDeadlock(c: Config, w: World, g: Front, v: Verdicts) returns (s: Step)
    requires Inv(c, w, g, v) && !AllExited(w)
    ensures Enabled(c, w, s)
  {
    if r :| 0 <= r < |w| && Lagging(g, w[r]) {
      CompleteLagging(c, w, g, r, v);
      s := Complete(r);
    } else if r :| 0 <= r < |w| && !w[r].pending && !w[r].pc.Exit? {
      s := FreeMove(c, w, r);
    } else {
      s := CommonMove(c, w, g, v);
    }
  }

  /** When everyone waits, it is for the same collective, which can complete. */
  lemma CommonMove(c: Config, w: World, g: Front, v: Verdicts) returns (s: Step)
    requires Inv(c, w, g, v) && !AllExited(w)
    requires forall r :: 0 <= r < |w| ==> !Lagging(g, w[r]) && (w[r].pending || w[r].pc.Exit?)
    ensures Enabled(c, w, s)
  {
    AllWaiting(c, w, g);
    var h := Shift(c, w, g, v);
    CompleteLagging(c, w, h, 0, v);
    s := Complete(0);
  }

  lemma AllWaiting(c: Config, w: World, g: Front)
    requires InPlace(c, w, g) && !AllExited(w)
    requires forall r :: 0 <= r < |w| ==> !Lagging(g, w[r]) && (w[r].pending || w[r].pc.Exit?)
    ensures forall r :: 0 <= r < |w| ==> Waiting(c, g, w[r], r)
  {
    var k :| 0 <= k < |w| && !(w[k].pc.Exit? && !w[k].pending);
    assert Placed(c, g, w[k], k) && Waiting(c, g, w[k], k);
    forall r | 0 <= r < |w| ensures Waiting(c, g, w[r], r) {
      assert Placed(c, g, w[r], r);
    }
  }

  /** Lockstep for every run of every number of ranks: whatever the validation results on rank 0 and
      whatever the interleaving, the collectives issued by any two ranks agree and never drift apart by
      more than one; and unless every rank has left the program, some rank can move. */
  lemma LockstepTheorem(c: Config, steps: seq<Step>)
    requires Valid(c) && IsRun(c, Start(c), steps)
    ensures var w := After(c, Start(c), steps);
            && (forall r, q :: 0 <= r < |w| && 0 <= q < |w| ==>
                  Prefix(Ops(w[r].calls), Ops(w[q].calls)) || Prefix(Ops(w[q].calls), Ops(w[r].calls)))
            && (AllExited(w) || exists s :: Enabled(c, w, s))
  {
    var w := After(c, Start(c), steps);
    var g, v := Reached(c, steps);
    forall r, q | 0 <= r < |w| && 0 <= q < |w|
      ensures Prefix(Ops(w[r].calls), Ops(w[q].calls)) || Prefix(Ops(w[q].calls), Ops(w[r].calls))
    {
      TracesAgree(c, w, g, r, q);
    }
    if !AllExited(w) {
      var s := NoDeadlock(c, w, g, v);
    }
  }

  lemma {:induction false} RunMore(c: Config, w: World, steps: seq<Step>, s: Step)
    requires |w| == |c.batches| && IsRun(c, w, steps) && Enabled(c, After(c, w, steps), s)
    ensures IsRun(c, w, steps + [s]) && After(c, w, steps + [s]) == Apply(c, After(c, w, steps), s)
    decreases |steps|
  {
    if steps == [] {
      assert steps + [s] == [s] && [s][1..] == [];
    } else {
      assert (steps + [s])[1..] == steps[1..] + [s];
      RunMore(c, Apply(c, w, steps[0]), steps[1..], s);
    }
  }

  /** Every run can be continued until all ranks have left. */
  lemma {:induction false} EveryRunCanEnd(c: Config, steps: seq<Step>) returns (all: seq<Step>)
    requires Valid(c) && IsRun(c, Start(c), steps)
    ensures steps <= all && IsRun(c, Start(c), all) && AllExited(After(c, Start(c), all))
    decreases TotalWork(c, After(c, Start(c), steps), |c.batches|)
  {
    var w := After(c, Start(c), steps);
    if AllExited(w) {
      all := steps;
    } else {
      LockstepTheorem(c, steps);
      var s :| Enabled(c, w, s);
      RunMore(c, Start(c), steps, s);
      StepWorks(c, w, s);
      all := EveryRunCanEnd(c, steps + [s]);
    }
  }

  /** Any two ranks returning from a validation are at the same call and hold the same flag; and unless
      rank 0 has meanwhile run the next validation, that flag is the verdict of the early-stopping rule
      on everything rank 0 has seen. */
  lemma FlagsAgreeAfterValidation(c: Config, steps: seq<Step>, r: nat, q: nat)
    requires Valid(c) && c.valFullset && IsRun(c, Start(c), steps) && r < c.world && q < c.world
    requires After(c, Start(c), steps)[r].pc.LeaveVal? && After(c, Start(c), steps)[q].pc.LeaveVal?
    ensures var w := After(c, Start(c), steps);
            && w[r].pc == w[q].pc
            && w[r].tracker.earlyStop == w[q].tracker.earlyStop
            && (w[0].pc.SyncFlag? || (w[r].tracker.earlyStop <==> StaleWindow(w[0].reports, c.patience)))
  {
    var w := After(c, Start(c), steps);
    var g, v := Reached(c, steps);
    ReturningAgrees(c, w, g, r);
    ReturningAgrees(c, w, g, q);
    EarlyStopExact(w[0].reports, c.layerIds, c.patience);
  }

  /** A rank returning from a validation is past its closing barrier, with the agreed flag, which is still
      rank 0's own unless rank 0 has run the next validation. */
  lemma ReturningAgrees(c: Config, w: World, g: Front, r: nat)
    requires InPlace(c, w, g) && c.valFullset && r < |w| && w[r].pc.LeaveVal?
    ensures g.at == ValBarrier(w[r].pc.site) && w[r].tracker.earlyStop == g.flag
    ensures w[0].pc.SyncFlag? || w[0].tracker.earlyStop == g.flag
  {
    assert Placed(c, g, w[r], r);
    assert Placed(c, g, w[0], 0);
  }

  /** When the job ends, every rank has left at the same epoch and step, after the same collectives,
      with the same flag; and it is set exactly if rank 0 saw `patience` stale validations in a row. */
  lemma ExitTogether(c: Config, steps: seq<Step>, r: nat)
    requires Valid(c) && IsRun(c, Start(c), steps) && r < c.world
    requires AllExited(After(c, Start(c), steps))
    ensures var w := After(c, Start(c), steps);
            && w[r].pc == w[0].pc
            && Ops(w[r].calls) == Ops(w[0].calls)
            && (w[r].tracker.earlyStop <==> StaleWindow(w[0].reports, c.patience))
  {
    var w := After(c, Start(c), steps);
    var g, v := Reached(c, steps);
    ExitPlace(c, w, g, r);
    ExitPlace(c, w, g, 0);
    EarlyStopExact(w[0].reports, c.layerIds, c.patience);
  }

  lemma ExitPlace(c: Config, w: World, g: Front, r: nat)
    requires InPlace(c, w, g) && AllExited(w) && r < |w|
    ensures w[r].pc == g.next && Ops(w[r].calls) == g.trace && w[r].tracker.earlyStop == g.flag && g.next.Exit?
  {
    assert Placed(c, g, w[r], r);
  }

  /** The first `k` reports are the fewest that set the early-stop flag. */
  ghost predicate FirstStale(reports: seq<Report>, patience: int, k: nat) {
    && 0 < k <= |reports| && StaleWindow(reports[..k], patience)
    && forall j: nat :: j < k ==> !StaleWindow(reports[..j], patience)
  }

  lemma VerdictIsStale(c: Config, reports: seq<Report>, k: nat)
    requires k <= |reports|
    ensures VerdictOf(c, reports)(k) <==> StaleWindow(reports[..k], c.patience)
  {
    EarlyStopExact(reports[..k], c.layerIds, c.patience);
  }

  lemma EndOfCourse(c: Config, b: nat, g: Front, v: Verdicts)
    requires OnCourse(c, b, g, v) && g.next.Exit?
    ensures g.trace == Guided(c, b, Begin, false, 0, v) && g.next == GuidedExit(c, b, Begin, false, 0, v)
  {
    assert Guided(c, b, g.next, g.flag, Broadcasts(g.trace), v) == [];
    assert g.trace + [] == g.trace;
  }

  /** N ranks are one rank: at the end of any run each has issued exactly the collectives, and left exactly
      where, one rank would that is told the verdict of the early-stopping rule on rank 0's reports. */
  lemma WholeRun(c: Config, steps: seq<Step>, r: nat)
    requires Valid(c) && IsRun(c, Start(c), steps) && r < c.world
    requires AllExited(After(c, Start(c), steps))
    ensures var w, b := After(c, Start(c), steps), c.batches[0];
            var v := VerdictOf(c, w[0].reports);
            Ops(w[r].calls) == Guided(c, b, Begin, false, 0, v) && w[r].pc == GuidedExit(c, b, Begin, false, 0, v)
  {
    var w, b := After(c, Start(c), steps), c.batches[0];
    var g, v := Reached(c, steps);
    ExitPlace(c, w, g, r);
    EndOfCourse(c, b, g, v);
  }

  /** A run ends as the nested loops do, unless the flag was set. Then there is one scheduled call site, that of
      the validation with the first report that completes a stale window: the collectives are those of the
      nested loops up to there, followed by what a stop at that site prescribes. */
  lemma StopPoint(c: Config, steps: seq<Step>, r: nat)
    requires Valid(c) && IsRun(c, Start(c), steps) && r < c.world
    requires AllExited(After(c, Start(c), steps))
    ensures var w, b := After(c, Start(c), steps), c.batches[0];
            if w[r].tracker.earlyStop then
              exists cut, site ::
                && CallSite(c, b, site)
                && cut + Solo(c, b, LeaveVal(site), false) == ValOps(c) + EpochsOps(c, b, 0)
                && Ops(w[r].calls) == cut + AfterStop(c, b, site) && w[r].pc == StopExit(c, b, site)
                && FirstStale(w[0].reports, c.patience, Broadcasts(cut))
            else
              && Ops(w[r].calls) == ValOps(c) + EpochsOps(c, b, 0)
              && w[r].pc == Exit(c.epochs, 0)
  {
    var w, b := After(c, Start(c), steps), c.batches[0];
    var g, v := Reached(c, steps);
    ExitPlace(c, w, g, r);
    ExitPlace(c, w, g, 0);
    WholeRun(c, steps, r);
    SoloIsNestedLoops(c, b);
    GuidedCut(c, b, Begin, 0, v);
    if cut, site :| StopsAt(c, b, Begin, 0, v, cut, site) {
      StopSpelledOut(c, b, site);
      BroadcastsAppend(cut, Solo(c, b, LeaveVal(site), true));
      assert v(Broadcasts(g.trace));
      CutIsFirst(c, w[0].reports, Broadcasts(cut));
    } else {
      assert v(0) == false;
      assert !v(Broadcasts(g.trace));
    }
  }

  lemma CutIsFirst(c: Config, reports: seq<Report>, k: nat)
    requires 0 < k <= |reports| && VerdictOf(c, reports)(k)
    requires forall j: nat :: 0 < j < k ==> !VerdictOf(c, reports)(j)
    ensures FirstStale(reports, c.patience, k)
  {
    VerdictIsStale(c, reports, k);
    forall j: nat | j < k ensures !StaleWindow(reports[..j], c.patience) {
      VerdictIsStale(c, reports, j);
    }
  }

  // ----- A stop before training

  /** Neither ensemble metric is positive. */
  ghost predicate Useless(report: Report) {
    report.ens.f1 <= 0.0 && report.ens.rk <= 0.0
  }

  /** With patience 1, and only then, a useless first report is a stop; any other first report never is. */
  lemma FirstVerdict(c: Config, reports: seq<Report>)
    requires reports != []
    ensures VerdictOf(c, reports)(1) <==> c.patience == 1 && Useless(reports[0])
  {
    var one := reports[..1];
    assert one[..0] == [] && one[0] == reports[0];
    assert Replay(one, c.layerIds, c.patience) == Update(Initial(c.layerIds), reports[0], 0, c.patience);
  }

  /** In every run that ends, patience 1 and a useless validation before training: the ranks still train on the
      first batches, up to the first scheduled validation or the end of the epoch, and leave there. */
  lemma StoppedBeforeTraining(c: Config, steps: seq<Step>, r: nat)
    requires Valid(c) && IsRun(c, Start(c), steps) && r < c.world && AllExited(After(c, Start(c), steps))
    requires c.valFullset && c.patience == 1
    requires var reports := After(c, Start(c), steps)[0].reports; reports != [] && Useless(reports[0])
    ensures var me, b := After(c, Start(c), steps)[r], c.batches[0];
            Ops(me.calls) == [Broadcast, Barrier] + AfterStop(c, b, Pre) && me.pc == StopExit(c, b, Pre)
  {
    var w, b := After(c, Start(c), steps), c.batches[0];
    var v := VerdictOf(c, w[0].reports);
    WholeRun(c, steps, r);
    VerdictSticks(c, w[0].reports);
    FirstVerdict(c, w[0].reports);
    StopNow(c, b, Pre, 0, v);
    StopSpelledOut(c, b, Pre);
    UpToSharing(c, b, v);
  }

  lemma UpToSharing(c: Config, b: nat, v: Verdicts)
    requires c.valFullset
    ensures Guided(c, b, Begin, false, 0, v) == Guided(c, b, SyncFlag(Pre), false, 0, v)
    ensures GuidedExit(c, b, Begin, false, 0, v) == GuidedExit(c, b, SyncFlag(Pre), false, 0, v)
  {
    assert Guided(c, b, Begin, false, 0, v) == Guided(c, b, EnterVal(Pre), false, 0, v) == Guided(c, b, Validate(Pre), false, 0, v);
    assert GuidedExit(c, b, Begin, false, 0, v) == GuidedExit(c, b, EnterVal(Pre), false, 0, v)
        == GuidedExit(c, b, Validate(Pre), false, 0, v);
  }

  const USELESS := Report(Score(0.0, 0.0), map[])

  /** It can happen: one rank, patience 1, a first report of zeros. */
  lemma StopBeforeTrainingHappens(c: Config)
    requires Valid(c) && c.world == 1 && c.valFullset && c.patience == 1
    ensures var run := Run(0, USELESS);
            var steps := [run, run, run, run, Complete(0), run, Complete(0)];
            && IsRun(c, Start(c), steps)
            && var me := After(c, Start(c), steps)[0];
               me.pc == LeaveVal(Pre) && me.tracker.earlyStop && me.reports == [USELESS]
  {
    var run := Run(0, USELESS);
    var w0 := Start(c);
    var w1 := Apply(c, w0, run);
    var w2 := Apply(c, w1, run);
    var w3 := Apply(c, w2, run);
    assert w3[0].pc == SyncFlag(Pre) && w3[0].tracker.earlyStop;
    var w4 := Apply(c, w3, run);
    assert Matched(w4, 0);
    var w5 := Apply(c, w4, Complete(0));
    var w6 := Apply(c, w5, run);
    assert Matched(w6, 0);
    RunOne(c, w6, Complete(0), []);
    RunOne(c, w5, run, [Complete(0)]);
    RunOne(c, w4, Complete(0), [run, Complete(0)]);
    RunOne(c, w3, run, [Complete(0), run, Complete(0)]);
    RunOne(c, w2, run, [run, Complete(0), run, Complete(0)]);
    RunOne(c, w1, run, [run, run, Complete(0), run, Complete(0)]);
    RunOne(c, w0, run, [run, run, run, Complete(0), run, Complete(0)]);
  }

  lemma RunOne(c: Config, w: World, step: Step, rest: seq<Step>)
    requires |w| == |c.batches| && Enabled(c, w, step) && IsRun(c, Apply(c, w, step), rest)
    ensures IsRun(c, w, [step] + rest) && After(c, w, [step] + rest) == After(c, Apply(c, w, step), rest)
  {
    assert ([step] + rest)[1..] == rest;
  }
}
