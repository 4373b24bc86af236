/** The call pattern that the comment before the trainer's first validation describes as the old bug
    (training/train.py): only rank 0 enters it. */
module GatedValidation {
  import opened EarlyStopping
  import opened Ranks
  import opened Trainer

  /** The old call pattern that let only rank 0 into the pre-training validation. */
  function GatedStart(c: Config): World {
    seq(|c.batches|, r => Rank(if r == 0 then EnterVal(Pre) else EpochTop(0), Initial(c.layerIds), [], [], false))
  }

  ghost predicate Stuck(c: Config, me: Rank, r: nat, b: nat) {
    var target := if r == 0 then SyncFlag(Pre) else Backward(0, 0);
    var op := if r == 0 then Broadcast else AllReduce;
    && Ahead(c, b, me.pc, me.tracker.earlyStop) == target
    && (if me.pending then me.pc == target && Ops(me.calls) == [op] else me.calls == [])
  }

  /** With two or more ranks that pattern blocks in every run: rank 0 never gets past its broadcast, no
      other rank past its first all-reduce, and no collective ever completes. */
  lemma {:induction false} GatedValidationDeadlocks(c: Config, w: World, steps: seq<Step>)
    requires |w| == |c.batches| == c.world >= 2
    requires IsRun(c, w, steps)
    requires forall r :: 0 <= r < |w| ==> Stuck(c, w[r], r, c.batches[r])
    ensures var w' := After(c, w, steps);
            && (forall r :: 0 <= r < |w'| ==> Stuck(c, w'[r], r, c.batches[r]) && !w'[r].pc.Exit?)
            && (forall r :: 0 <= r < |w'| ==> !Enabled(c, w', Complete(r)))
    decreases |steps|
  {
    forall r | 0 <= r < |w| ensures !Enabled(c, w, Complete(r)) && !w[r].pc.Exit? {
      NeverMatched(c, w, r);
    }
    if steps != [] {
      var s := steps[0];
      assert s.Run?;
      StuckStep(c, w, s.rank, s.report);
      GatedValidationDeadlocks(c, Apply(c, w, s), steps[1..]);
    }
  }

  lemma GatedStartStuck(c: Config)
    requires |c.batches| == c.world && c.valFullset && c.epochs > 0
    requires forall r :: 0 <= r < |c.batches| ==> c.batches[r] > 0
    ensures forall r :: 0 <= r < c.world ==> Stuck(c, GatedStart(c)[r], r, c.batches[r])
  {
    forall r | 0 <= r < c.world ensures Stuck(c, GatedStart(c)[r], r, c.batches[r]) {
      var b := c.batches[r];
      assert Ahead(c, b, EnterVal(Pre), false) == Ahead(c, b, Validate(Pre), false) == Ahead(c, b, SyncFlag(Pre), false);
      assert Ahead(c, b, EpochTop(0), false) == Ahead(c, b, StepTop(0, 0), false) == Ahead(c, b, Backward(0, 0), false);
    }
  }

  lemma NeverMatched(c: Config, w: World, r: nat)
    requires |w| == |c.batches| && |w| >= 2 && r < |w|
    requires forall q :: 0 <= q < |w| ==> Stuck(c, w[q], q, c.batches[q])
    ensures !Enabled(c, w, Complete(r)) && !w[r].pc.Exit?
  {
    var other := if r == 0 then 1 else 0;
    assert Stuck(c, w[r], r, c.batches[r]) && Stuck(c, w[other], other, c.batches[other]);
    assert forall q :: 0 <= q < |w| ==> |Ops(w[q].calls)| == |w[q].calls|;
    assert w[r].calls != [] ==> Ops(w[r].calls)[0] == w[r].calls[0].op;
    assert w[other].calls != [] ==> Ops(w[other].calls)[0] == w[other].calls[0].op;
  }

  lemma StuckStep(c: Config, w: World, r: nat, report: Report)
    requires |w| == |c.batches| && r < |w| && Enabled(c, w, Run(r, report))
    requires Stuck(c, w[r], r, c.batches[r])
    ensures Stuck(c, RunRank(c, w, r, report), r, c.batches[r])
  {
    var me, me', b := w[r], RunRank(c, w, r, report), c.batches[r];
    match FetchOf(c, w, r)
    case Goto(next) =>
    case RunVal(next) =>
      assert Ahead(c, b, next, me.tracker.earlyStop) == next == Ahead(c, b, next, me'.tracker.earlyStop);
    case Collect(op, next) =>
      assert Ops(me'.calls) == [op];
  }
}
