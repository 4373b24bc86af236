/** Why the loaders must agree (training/train.py, `_train_joint`): ranks whose loaders yield different
    numbers of batches never all reach the end. */
module UnequalLoaders {
  import Lockstep

  import opened Arith
  import opened EarlyStopping
  import opened Ranks
  import opened Trainer

  /** The collectives a rank has completed. */
  function Completed(me: Rank): seq<Call> {
    if me.pending && me.calls != [] then me.calls[..|me.calls| - 1] else me.calls
  }

  /** A rank on its own course, its flag never set: what it has completed and what is left are the whole
      program with its own number of batches. */
  ghost predicate OnOwnCourse(c: Config, b: nat, me: Rank) {
    && !me.tracker.earlyStop && (forall i :: 0 <= i < |me.calls| ==> !me.calls[i].flag)
    && Ops(Completed(me)) + Solo(c, b, me.pc, false) == Solo(c, b, Begin, false)
    && (me.pending ==> me.calls != [] && Fetch(c, b, me.pc, false).Collect?
                       && me.calls[|me.calls| - 1].op == Fetch(c, b, me.pc, false).op)
  }

  /** What one rank has completed, the other has issued. */
  ghost predicate Followed(me: Rank, other: Rank) {
    |Completed(me)| <= |other.calls| && forall i :: 0 <= i < |Completed(me)| ==> me.calls[i].op == other.calls[i].op
  }

  ghost predicate Inv(c: Config, w: World) {
    && |w| == |c.batches| > 0 && c.patience <= 0
    && (forall r :: 0 <= r < |w| ==> OnOwnCourse(c, c.batches[r], w[r]))
    && (forall r, q :: 0 <= r < |w| && 0 <= q < |w| ==> Followed(w[r], w[q]))
  }

  lemma StartInv(c: Config)
    requires |c.batches| > 0 && c.patience <= 0
    ensures Inv(c, Start(c))
  {
    forall r | 0 <= r < |c.batches| ensures OnOwnCourse(c, c.batches[r], Start(c)[r]) {
      var all := Solo(c, c.batches[r], Begin, false);
      assert Ops(Completed(Start(c)[r])) == [] && [] + all == all;
    }
  }

  /** Without patience the flag stays as it is. */
  lemma RunOnCourse(c: Config, w: World, r: nat, report: Report)
    requires Inv(c, w) && r < |w| && !w[r].pending && !FetchOf(c, w, r).Halt?
    ensures OnOwnCourse(c, c.batches[r], RunRank(c, w, r, report))
    ensures Completed(RunRank(c, w, r, report)) == w[r].calls && w[r].calls <= RunRank(c, w, r, report).calls
  {
    var me, b := w[r], c.batches[r];
    var me' := RunRank(c, w, r, report);
    assert OnOwnCourse(c, b, me);
    match FetchOf(c, w, r)
    case Goto(next) =>
    case RunVal(next) =>
    case Collect(op, next) =>
      assert me'.calls[..|me.calls|] == me.calls;
  }

  lemma RunInv(c: Config, w: World, r: nat, report: Report)
    requires Inv(c, w) && r < |w| && !w[r].pending && !FetchOf(c, w, r).Halt?
    ensures Inv(c, w[r := RunRank(c, w, r, report)])
  {
    var me' := RunRank(c, w, r, report);
    var w' := w[r := me'];
    RunOnCourse(c, w, r, report);
    forall p, q | 0 <= p < |w| && 0 <= q < |w| ensures Followed(w'[p], w'[q]) {
      assert Followed(w[p], w[q]);
    }
  }

  lemma CompleteOnCourse(c: Config, w: World, r: nat)
    requires Inv(c, w) && r < |w| && Enabled(c, w, Complete(r))
    ensures OnOwnCourse(c, c.batches[r], CompleteRank(c, w, r)) && CompleteRank(c, w, r).calls == w[r].calls
    ensures Completed(CompleteRank(c, w, r)) == w[r].calls
  {
    var me, b := w[r], c.batches[r];
    assert OnOwnCourse(c, b, me) && OnOwnCourse(c, c.batches[0], w[0]);
    var act := Fetch(c, b, me.pc, false);
    var n := |me.calls| - 1;
    var rest := Solo(c, b, act.next, false);
    assert Solo(c, b, me.pc, false) == [act.op] + rest;
    assert me.calls == me.calls[..n] + [me.calls[n]];
    assert Ops(me.calls) == Ops(me.calls[..n]) + [act.op];
    assert Ops(me.calls[..n]) + ([act.op] + rest) == Ops(me.calls[..n]) + [act.op] + rest;
  }

  lemma CompleteInv(c: Config, w: World, r: nat)
    requires Inv(c, w) && r < |w| && Enabled(c, w, Complete(r))
    ensures Inv(c, w[r := CompleteRank(c, w, r)])
  {
    var w' := w[r := CompleteRank(c, w, r)];
    CompleteOnCourse(c, w, r);
    forall p, q | 0 <= p < |w| && 0 <= q < |w| ensures Followed(w'[p], w'[q]) {
      if p == r {
        MatchedFollows(w, r, q);
      }
      assert Followed(w[p], w[q]);
    }
  }

  /** A completed collective has been issued by every other rank. */
  lemma MatchedFollows(w: World, r: nat, q: nat)
    requires r < |w| && q < |w| && Matched(w, r) && Followed(w[r], w[q]) && w[r].pending
    ensures |w[r].calls| <= |w[q].calls| && forall i :: 0 <= i < |w[r].calls| ==> w[r].calls[i].op == w[q].calls[i].op
  {
  }

  lemma {:induction false} RunsKeepInv(c: Config, w: World, steps: seq<Step>)
    requires Inv(c, w) && IsRun(c, w, steps)
    ensures Inv(c, After(c, w, steps))
    decreases |steps|
  {
    if steps != [] {
      match steps[0] {
        case Run(r, report) => RunInv(c, w, r, report);
        case Complete(r) => CompleteInv(c, w, r);
      }
      RunsKeepInv(c, Apply(c, w, steps[0]), steps[1..]);
    }
  }

  // ----- Counting the gradient steps

  function Gradients(ops: seq<Op>): nat {
    if ops == [] then 0 else (if ops[0].AllReduce? then 1 else 0) + Gradients(ops[1..])
  }

  lemma {:induction false} GradientsAppend(x: seq<Op>, y: seq<Op>)
    ensures Gradients(x + y) == Gradients(x) + Gradients(y)
  {
    if x == [] {
      assert x + y == y;
    } else {
      assert (x + y)[1..] == x[1..] + y;
      GradientsAppend(x[1..], y);
    }
  }

  lemma ValGradients(c: Config)
    ensures Gradients(ValOps(c)) == 0 && Gradients([Barrier]) == 0 && Gradients([AllReduce]) == 1
  {
    assert [Broadcast, Barrier][1..] == [Barrier] && [Barrier][1..] == [] && [AllReduce][1..] == [];
  }

  lemma {:induction false} StepsGradients(c: Config, b: nat, s: nat)
    requires s <= b
    ensures Gradients(StepsOps(c, b, s)) == b - s
    decreases b - s
  {
    if s < b {
      StepsGradients(c, b, s + 1);
      ValGradients(c);
      GradientsAppend([AllReduce], StepOps(c, s)[1..]);
      assert StepOps(c, s) == [AllReduce] + StepOps(c, s)[1..];
      assert StepOps(c, s)[1..] == ValOps(c) || StepOps(c, s)[1..] == [];
      GradientsAppend(StepOps(c, s), StepsOps(c, b, s + 1));
    }
  }

  lemma {:induction false} EpochsGradients(c: Config, b: nat, e: nat)
    requires e <= c.epochs
    ensures Gradients(EpochsOps(c, b, e)) == Times(c.epochs - e, b)
    decreases c.epochs - e
  {
    if e < c.epochs {
      var steps, rest := StepsOps(c, b, 0), EpochsOps(c, b, e + 1);
      EpochsGradients(c, b, e + 1);
      StepsGradients(c, b, 0);
      ValGradients(c);
      GradientsAppend(steps + ValOps(c) + [Barrier], rest);
      GradientsAppend(steps + ValOps(c), [Barrier]);
      GradientsAppend(steps, ValOps(c));
    }
  }

  /** A whole run takes one gradient step per batch and epoch. */
  lemma RunGradients(c: Config, b: nat)
    ensures Gradients(Solo(c, b, Begin, false)) == Times(c.epochs, b)
  {
    SoloIsNestedLoops(c, b);
    EpochsGradients(c, b, 0);
    ValGradients(c);
    GradientsAppend(ValOps(c), EpochsOps(c, b, 0));
  }

  lemma {:induction false} TimesInjective(n: nat, x: nat, y: nat)
    requires n > 0 && x < y
    ensures Times(n, x) < Times(n, y)
  {
    if n > 1 {
      TimesInjective(n - 1, x, y);
    }
  }

  lemma SameTrace(c: Config, w: World, r: nat, q: nat)
    requires Inv(c, w) && AllExited(w) && r < |w| && q < |w|
    ensures Solo(c, c.batches[r], Begin, false) == Solo(c, c.batches[q], Begin, false)
  {
    assert Followed(w[r], w[q]) && Followed(w[q], w[r]);
    assert Ops(w[r].calls) == Ops(w[q].calls);
    OwnTrace(c, c.batches[r], w[r]);
    OwnTrace(c, c.batches[q], w[q]);
  }

  lemma OwnTrace(c: Config, b: nat, me: Rank)
    requires OnOwnCourse(c, b, me) && me.pc.Exit? && !me.pending
    ensures Ops(me.calls) == Solo(c, b, Begin, false)
  {
    assert Solo(c, b, me.pc, false) == [];
    assert Ops(me.calls) + [] == Ops(me.calls);
  }

  /** Equal loaders are needed: without early stopping, if two ranks' loaders yield different numbers of
      batches, no run of a job with at least one epoch ever has all ranks at the end. */
  lemma NeverAllExit(c: Config, steps: seq<Step>, r: nat, q: nat)
    requires c.epochs > 0 && c.patience <= 0 && IsRun(c, Start(c), steps)
    requires r < |c.batches| && q < |c.batches| && c.batches[r] < c.batches[q]
    ensures !AllExited(After(c, Start(c), steps))
  {
    var w := After(c, Start(c), steps);
    StartInv(c);
    RunsKeepInv(c, Start(c), steps);
    if AllExited(w) {
      SameTrace(c, w, r, q);
      RunGradients(c, c.batches[r]);
      RunGradients(c, c.batches[q]);
      TimesInjective(c.epochs, c.batches[r], c.batches[q]);
    }
  }

  ghost predicate CanEnd(c: Config) {
    exists steps :: IsRun(c, Start(c), steps) && AllExited(After(c, Start(c), steps))
  }

  /** Without early stopping, a job with at least one epoch can end if and only if all loaders yield the same
      number of batches. */
  lemma LoadersMustAgree(c: Config)
    requires c.epochs > 0 && c.patience <= 0 && |c.batches| == c.world > 0
    ensures CanEnd(c) <==> forall r :: 0 <= r < c.world ==> c.batches[r] == c.batches[0]
  {
    if forall r :: 0 <= r < c.world ==> c.batches[r] == c.batches[0] {
      var all := Lockstep.EveryRunCanEnd(c, []);
    } else {
      var r: nat :| r < c.world && c.batches[r] != c.batches[0];
      forall steps | IsRun(c, Start(c), steps) ensures !AllExited(After(c, Start(c), steps)) {
        if c.batches[r] < c.batches[0] {
          NeverAllExit(c, steps, r, 0);
        } else {
          NeverAllExit(c, steps, 0, r);
        }
      }
    }
  }
}
