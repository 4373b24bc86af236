/** The control flow of the joint trainer (training/train.py, `_train_joint`) as a program counter with
    the collectives it issues, for one rank on its own. */
module Trainer {
  import opened Arith

  datatype Config = Config(
    world: nat,
    epochs: nat,
    batches: seq<nat>,      // batches per epoch that each rank's loader yields
    valEvery: int,
    valFullset: bool,
    patience: int,
    layerIds: set<int>)

  /** The three call sites of `_run_val_and_save`. */
  datatype Site = Pre | Mid(epoch: nat, step: nat) | End(epoch: nat, steps: nat)

  datatype Pc =
    | Begin
    | EpochTop(epoch: nat)
    | StepTop(epoch: nat, step: nat)
    | Backward(epoch: nat, step: nat)      // loss.backward(): the gradient all-reduce
    | AfterStep(epoch: nat, step: nat)
    | EnterVal(site: Site)
    | Validate(site: Site)                 // `if is_main:` evaluate and update the state
    | SyncFlag(site: Site)                 // dist.broadcast(es_tensor, src=0)
    | ValBarrier(site: Site)               // dist.barrier() at the end of the validation
    | LeaveVal(site: Site)
    | EpochDone(epoch: nat, steps: nat)    // the batch loop has ended or was left by `break`
    | EpochBarrier(epoch: nat, steps: nat)
    | AfterBarrier(epoch: nat, steps: nat)
    | Exit(epoch: nat, steps: nat)

  datatype Op = AllReduce | Broadcast | Barrier

  datatype Action = Goto(next: Pc) | RunVal(next: Pc) | Collect(op: Op, next: Pc) | Halt

  /** The trainer's control flow: what a rank with `b` batches does at `pc`, given its early-stop flag. */
  function Fetch(c: Config, b: nat, pc: Pc, stop: bool): Action {
    match pc
    case Begin => Goto(if c.valFullset then EnterVal(Pre) else EpochTop(0))
    case EpochTop(e) => Goto(if e < c.epochs then StepTop(e, 0) else Exit(e, 0))
    case StepTop(e, s) => Goto(if s < b then Backward(e, s) else EpochDone(e, s))
    case Backward(e, s) => Collect(AllReduce, AfterStep(e, s))
    case AfterStep(e, s) =>
      Goto(if c.valEvery > 0 && s > 0 && s % c.valEvery == 0 then EnterVal(Mid(e, s)) else StepTop(e, s + 1))
    case EnterVal(site) => Goto(if c.valFullset then Validate(site) else LeaveVal(site))
    case Validate(site) => RunVal(SyncFlag(site))
    case SyncFlag(site) => Collect(Broadcast, ValBarrier(site))
    case ValBarrier(site) => Collect(Barrier, LeaveVal(site))
    case LeaveVal(Pre) => Goto(EpochTop(0))
    case LeaveVal(Mid(e, s)) => Goto(if stop then EpochDone(e, s + 1) else StepTop(e, s + 1))
    case LeaveVal(End(e, n)) => Goto(EpochBarrier(e, n))
    case EpochDone(e, n) => Goto(if stop then Exit(e, n) else EnterVal(End(e, n)))
    case EpochBarrier(e, n) => Collect(Barrier, AfterBarrier(e, n))
    case AfterBarrier(e, n) => Goto(if stop then Exit(e, n) else EpochTop(e + 1))
    case Exit(_, _) => Halt
  }

  // ----- Remaining work of one rank

  function Left(n: nat, i: nat): nat {
    if i <= n then n - i else 0
  }

  function AfterEpoch(c: Config, b: nat, e: nat): nat {
    Times(Left(c.epochs, e + 1), 10 * b + 20) + 1
  }

  function AfterSteps(c: Config, b: nat, e: nat, s: nat): nat {
    AfterEpoch(c, b, e) + 9 + 10 * Left(b, s)
  }

  function AfterSite(c: Config, b: nat, site: Site): nat {
    match site
    case Pre => Times(c.epochs, 10 * b + 20) + 1
    case Mid(e, s) => AfterSteps(c, b, e, s + 1)
    case End(e, _) => AfterEpoch(c, b, e)
  }

  /** An upper bound on the program points still ahead of `pc`. */
  function Remaining(c: Config, b: nat, pc: Pc): nat {
    match pc
    case Begin => AfterSite(c, b, Pre) + 8
    case EpochTop(e) => Times(Left(c.epochs, e), 10 * b + 20) + 1
    case StepTop(e, s) => AfterSteps(c, b, e, s)
    case Backward(e, s) => AfterSteps(c, b, e, s + 1) + 9
    case AfterStep(e, s) => AfterSteps(c, b, e, s + 1) + 8
    case EnterVal(site) => AfterSite(c, b, site) + 7
    case Validate(site) => AfterSite(c, b, site) + 6
    case SyncFlag(site) => AfterSite(c, b, site) + 5
    case ValBarrier(site) => AfterSite(c, b, site) + 4
    case LeaveVal(site) => AfterSite(c, b, site) + 3
    case EpochDone(e, _) => AfterEpoch(c, b, e) + 8
    case EpochBarrier(e, _) => AfterEpoch(c, b, e) + 2
    case AfterBarrier(e, _) => AfterEpoch(c, b, e) + 1
    case Exit(_, _) => 0
  }

  lemma EpochProgress(c: Config, b: nat, e: nat)
    requires e < c.epochs
    ensures AfterSteps(c, b, e, 0) < Times(Left(c.epochs, e), 10 * b + 20) + 1
  {
    assert Left(c.epochs, e) == Left(c.epochs, e + 1) + 1;
  }

  lemma ValProgress(c: Config, b: nat, pc: Pc, stop: bool)
    requires pc.EnterVal? || pc.Validate? || pc.SyncFlag? || pc.ValBarrier? || pc.LeaveVal?
    ensures !Fetch(c, b, pc, stop).Halt?
    ensures Remaining(c, b, Fetch(c, b, pc, stop).next) < Remaining(c, b, pc)
  {
  }

  lemma Progress(c: Config, b: nat, pc: Pc, stop: bool)
    requires !Fetch(c, b, pc, stop).Halt?
    ensures Remaining(c, b, Fetch(c, b, pc, stop).next) < Remaining(c, b, pc)
  {
    if pc.EnterVal? || pc.Validate? || pc.SyncFlag? || pc.ValBarrier? || pc.LeaveVal? {
      ValProgress(c, b, pc, stop);
    } else if pc.EpochTop? && pc.epoch < c.epochs {
      EpochProgress(c, b, pc.epoch);
    }
  }

  /** The collective (or the exit) a rank at `pc` reaches next by local work alone. */
  function Ahead(c: Config, b: nat, pc: Pc, stop: bool): Pc
    decreases Remaining(c, b, pc)
  {
    match Fetch(c, b, pc, stop)
    case Goto(next) => (Progress(c, b, pc, stop); Ahead(c, b, next, stop))
    case RunVal(next) => (Progress(c, b, pc, stop); Ahead(c, b, next, stop))
    case Collect(_, _) => pc
    case Halt => pc
  }

  // ----- The program of one rank on its own

  /** The collectives a rank issues from `pc` to the exit if its flag stays as it is. */
  function Solo(c: Config, b: nat, pc: Pc, stop: bool): seq<Op>
    decreases Remaining(c, b, pc)
  {
    match Fetch(c, b, pc, stop)
    case Goto(next) => (Progress(c, b, pc, stop); Solo(c, b, next, stop))
    case RunVal(next) => (Progress(c, b, pc, stop); Solo(c, b, next, stop))
    case Collect(op, next) => (Progress(c, b, pc, stop); [op] + Solo(c, b, next, stop))
    case Halt => []
  }

  /** Where such a rank leaves the program. */
  function SoloExit(c: Config, b: nat, pc: Pc, stop: bool): Pc
    decreases Remaining(c, b, pc)
  {
    var act := Fetch(c, b, pc, stop);
    if act.Halt? then pc else (Progress(c, b, pc, stop); SoloExit(c, b, act.next, stop))
  }

  /** The trainer as nested loops: what one validation, one step, one epoch and all epochs issue. */
  function ValOps(c: Config): seq<Op> {
    if c.valFullset then [Broadcast, Barrier] else []
  }

  function StepOps(c: Config, s: nat): seq<Op> {
    [AllReduce] + (if c.valEvery > 0 && s > 0 && s % c.valEvery == 0 then ValOps(c) else [])
  }

  function StepsOps(c: Config, b: nat, s: nat): seq<Op>
    decreases Left(b, s)
  {
    if s >= b then [] else StepOps(c, s) + StepsOps(c, b, s + 1)
  }

  function EpochsOps(c: Config, b: nat, e: nat): seq<Op>
    decreases Left(c.epochs, e)
  {
    if e >= c.epochs then [] else StepsOps(c, b, 0) + ValOps(c) + [Barrier] + EpochsOps(c, b, e + 1)
  }

  lemma SoloVal(c: Config, b: nat, site: Site, stop: bool)
    ensures Solo(c, b, EnterVal(site), stop) == ValOps(c) + Solo(c, b, LeaveVal(site), stop)
    ensures SoloExit(c, b, EnterVal(site), stop) == SoloExit(c, b, LeaveVal(site), stop)
  {
    if c.valFullset {
      var rest := Solo(c, b, LeaveVal(site), stop);
      assert Solo(c, b, ValBarrier(site), stop) == [Barrier] + rest;
      assert Solo(c, b, SyncFlag(site), stop) == [Broadcast] + Solo(c, b, ValBarrier(site), stop);
      assert Solo(c, b, EnterVal(site), stop) == Solo(c, b, Validate(site), stop) == Solo(c, b, SyncFlag(site), stop);
      assert SoloExit(c, b, SyncFlag(site), stop) == SoloExit(c, b, ValBarrier(site), stop) == SoloExit(c, b, LeaveVal(site), stop);
    } else {
      assert Solo(c, b, EnterVal(site), stop) == Solo(c, b, LeaveVal(site), stop);
    }
  }

  lemma SoloEpochEnd(c: Config, b: nat, e: nat, n: nat)
    ensures Solo(c, b, EpochDone(e, n), false) == ValOps(c) + [Barrier] + Solo(c, b, EpochTop(e + 1), false)
    ensures SoloExit(c, b, EpochDone(e, n), false) == SoloExit(c, b, EpochTop(e + 1), false)
  {
    SoloVal(c, b, End(e, n), false);
    var rest := Solo(c, b, EpochTop(e + 1), false);
    assert Solo(c, b, AfterBarrier(e, n), false) == rest;
    assert Solo(c, b, EpochBarrier(e, n), false) == [Barrier] + rest;
    assert Solo(c, b, LeaveVal(End(e, n)), false) == Solo(c, b, EpochBarrier(e, n), false);
    assert SoloExit(c, b, EpochBarrier(e, n), false) == SoloExit(c, b, AfterBarrier(e, n), false);
    assert SoloExit(c, b, LeaveVal(End(e, n)), false) == SoloExit(c, b, EpochBarrier(e, n), false);
  }

  lemma SoloStep(c: Config, b: nat, e: nat, s: nat)
    requires s < b
    ensures Solo(c, b, StepTop(e, s), false) == StepOps(c, s) + Solo(c, b, StepTop(e, s + 1), false)
    ensures SoloExit(c, b, StepTop(e, s), false) == SoloExit(c, b, StepTop(e, s + 1), false)
  {
    SoloAfterStep(c, b, e, s);
    assert Solo(c, b, Backward(e, s), false) == [AllReduce] + Solo(c, b, AfterStep(e, s), false);
    assert Solo(c, b, StepTop(e, s), false) == Solo(c, b, Backward(e, s), false);
    assert SoloExit(c, b, Backward(e, s), false) == SoloExit(c, b, AfterStep(e, s), false);
    assert SoloExit(c, b, StepTop(e, s), false) == SoloExit(c, b, Backward(e, s), false);
  }

  lemma SoloAfterStep(c: Config, b: nat, e: nat, s: nat)
    ensures Solo(c, b, AfterStep(e, s), false) == StepOps(c, s)[1..] + Solo(c, b, StepTop(e, s + 1), false)
    ensures SoloExit(c, b, AfterStep(e, s), false) == SoloExit(c, b, StepTop(e, s + 1), false)
  {
    SoloVal(c, b, Mid(e, s), false);
    assert Solo(c, b, LeaveVal(Mid(e, s)), false) == Solo(c, b, StepTop(e, s + 1), false);
    assert SoloExit(c, b, LeaveVal(Mid(e, s)), false) == SoloExit(c, b, StepTop(e, s + 1), false);
  }

  lemma {:induction false} SoloSteps(c: Config, b: nat, e: nat, s: nat)
    requires s <= b
    ensures Solo(c, b, StepTop(e, s), false) == StepsOps(c, b, s) + ValOps(c) + [Barrier] + Solo(c, b, EpochTop(e + 1), false)
    ensures SoloExit(c, b, StepTop(e, s), false) == SoloExit(c, b, EpochTop(e + 1), false)
    decreases b - s
  {
    if s == b {
      SoloEpochEnd(c, b, e, s);
      assert Solo(c, b, StepTop(e, s), false) == Solo(c, b, EpochDone(e, s), false);
    } else {
      SoloStep(c, b, e, s);
      SoloSteps(c, b, e, s + 1);
    }
  }

  lemma {:induction false} SoloEpochs(c: Config, b: nat, e: nat)
    requires e <= c.epochs
    ensures Solo(c, b, EpochTop(e), false) == EpochsOps(c, b, e)
    ensures SoloExit(c, b, EpochTop(e), false) == Exit(c.epochs, 0)
    decreases c.epochs - e
  {
    if e < c.epochs {
      SoloSteps(c, b, e, 0);
      SoloEpochs(c, b, e + 1);
    } else {
      assert SoloExit(c, b, EpochTop(e), false) == SoloExit(c, b, Exit(e, 0), false);
    }
  }

  /** Without a stop, the program counters run the nested loops: one optional validation, then every epoch
      with an all-reduce per batch, the scheduled validations, the closing one and the barrier. */
  lemma SoloIsNestedLoops(c: Config, b: nat)
    ensures Solo(c, b, Begin, false) == ValOps(c) + EpochsOps(c, b, 0)
    ensures SoloExit(c, b, Begin, false) == Exit(c.epochs, 0)
  {
    SoloEpochs(c, b, 0);
    SoloVal(c, b, Pre, false);
    assert Solo(c, b, LeaveVal(Pre), false) == Solo(c, b, EpochTop(0), false);
    assert SoloExit(c, b, LeaveVal(Pre), false) == SoloExit(c, b, EpochTop(0), false);
  }

  /** A stop decided by a validation inside an epoch ends the program with no further collective; one
      decided at the end of an epoch, after that epoch's barrier. */
  lemma StopIsPrompt(c: Config, b: nat, e: nat, n: nat)
    ensures Solo(c, b, LeaveVal(Mid(e, n)), true) == [] && SoloExit(c, b, LeaveVal(Mid(e, n)), true) == Exit(e, n + 1)
    ensures Solo(c, b, LeaveVal(End(e, n)), true) == [Barrier] && SoloExit(c, b, LeaveVal(End(e, n)), true) == Exit(e, n)
  {
    assert Solo(c, b, LeaveVal(Mid(e, n)), true) == Solo(c, b, EpochDone(e, n + 1), true) == Solo(c, b, Exit(e, n + 1), true);
    assert SoloExit(c, b, LeaveVal(Mid(e, n)), true) == SoloExit(c, b, EpochDone(e, n + 1), true) == SoloExit(c, b, Exit(e, n + 1), true);
    assert Solo(c, b, AfterBarrier(e, n), true) == Solo(c, b, Exit(e, n), true) == [];
    assert Solo(c, b, EpochBarrier(e, n), true) == [Barrier] + Solo(c, b, AfterBarrier(e, n), true);
    assert Solo(c, b, LeaveVal(End(e, n)), true) == Solo(c, b, EpochBarrier(e, n), true);
    assert SoloExit(c, b, EpochBarrier(e, n), true) == SoloExit(c, b, AfterBarrier(e, n), true) == SoloExit(c, b, Exit(e, n), true);
  }

  // ----- What a stop prescribes, call site by call site

  function AllReduces(m: nat): seq<Op> {
    seq(m, _ => AllReduce)
  }

  /** A validation inside the first epoch comes after a first stretch of batches. */
  predicate StopsInside(c: Config, b: nat) {
    0 < c.valEvery < b
  }

  /** The batches of the first epoch up to and including the first that a validation follows, or all. */
  function FirstStretch(c: Config, b: nat): nat {
    if StopsInside(c, b) then c.valEvery + 1 else b
  }

  /** The collectives still issued after a stop decided at `site`. Before training: the first epoch runs on to
      its first scheduled validation or to its end, and nothing else. */
  function AfterStop(c: Config, b: nat, site: Site): seq<Op> {
    match site
    case Pre =>
      if c.epochs == 0 then []
      else AllReduces(FirstStretch(c, b)) + if StopsInside(c, b) then ValOps(c) else []
    case Mid(_, _) => []
    case End(_, _) => [Barrier]
  }

  function StopExit(c: Config, b: nat, site: Site): Pc {
    match site
    case Pre => Exit(0, if c.epochs == 0 then 0 else FirstStretch(c, b))
    case Mid(e, s) => Exit(e, s + 1)
    case End(e, n) => Exit(e, n)
  }

  lemma SmallRemainder(s: nat, m: nat)
    requires m > 0 && 0 < s <= m
    ensures s % m == 0 <==> s == m
  {
    if s < m {
      assert s % m == s;
    }
  }

  /** Within the first stretch a validation follows its last batch only, and only if it ends inside. */
  lemma StretchSchedule(c: Config, b: nat, s: nat)
    requires s < FirstStretch(c, b)
    ensures s < b
    ensures c.valEvery > 0 && s > 0 && s % c.valEvery == 0 <==> StopsInside(c, b) && s == c.valEvery
  {
    if c.valEvery > 0 && s > 0 && s <= c.valEvery {
      SmallRemainder(s, c.valEvery);
    }
  }

  lemma StretchEnd(c: Config, b: nat, s: nat)
    requires StopsInside(c, b) && s == c.valEvery
    ensures Solo(c, b, AfterStep(0, s), true) == ValOps(c) && SoloExit(c, b, AfterStep(0, s), true) == Exit(0, s + 1)
  {
    StretchSchedule(c, b, s);
    SoloVal(c, b, Mid(0, s), true);
    StopIsPrompt(c, b, 0, s);
    assert ValOps(c) + [] == ValOps(c);
  }

  lemma {:induction false} StoppedStretch(c: Config, b: nat, s: nat)
    requires s <= FirstStretch(c, b) && (s == FirstStretch(c, b) ==> !StopsInside(c, b))
    ensures var m := FirstStretch(c, b);
            && Solo(c, b, StepTop(0, s), true) == AllReduces(m - s) + (if StopsInside(c, b) then ValOps(c) else [])
            && SoloExit(c, b, StepTop(0, s), true) == Exit(0, m)
    decreases FirstStretch(c, b) - s
  {
    var m := FirstStretch(c, b);
    if s == m {
      assert Solo(c, b, StepTop(0, s), true) == Solo(c, b, EpochDone(0, s), true) == Solo(c, b, Exit(0, s), true) == [];
      assert SoloExit(c, b, StepTop(0, s), true) == SoloExit(c, b, EpochDone(0, s), true) == SoloExit(c, b, Exit(0, s), true);
    } else {
      StretchSchedule(c, b, s);
      StretchStep(c, b, s);
      if StopsInside(c, b) && s == c.valEvery {
        StretchEnd(c, b, s);
        assert AllReduces(1) == [AllReduce];
      } else {
        StoppedStretch(c, b, s + 1);
        assert AllReduces(m - s) == [AllReduce] + AllReduces(m - s - 1);
      }
    }
  }

  lemma StretchStep(c: Config, b: nat, s: nat)
    requires s < b
    ensures Solo(c, b, StepTop(0, s), true) == [AllReduce] + Solo(c, b, AfterStep(0, s), true)
    ensures SoloExit(c, b, StepTop(0, s), true) == SoloExit(c, b, AfterStep(0, s), true)
    ensures !(c.valEvery > 0 && s > 0 && s % c.valEvery == 0) ==>
              && Solo(c, b, AfterStep(0, s), true) == Solo(c, b, StepTop(0, s + 1), true)
              && SoloExit(c, b, AfterStep(0, s), true) == SoloExit(c, b, StepTop(0, s + 1), true)
  {
    assert Solo(c, b, Backward(0, s), true) == [AllReduce] + Solo(c, b, AfterStep(0, s), true);
    assert Solo(c, b, StepTop(0, s), true) == Solo(c, b, Backward(0, s), true);
    assert SoloExit(c, b, Backward(0, s), true) == SoloExit(c, b, AfterStep(0, s), true);
    assert SoloExit(c, b, StepTop(0, s), true) == SoloExit(c, b, Backward(0, s), true);
  }

  /** A stop decided at any of the call sites, spelled out. One decided before training lets the first epoch run
      on to its first scheduled validation, or to its end; the closing validation and the epoch's barrier are
      never reached. */
  lemma StopSpelledOut(c: Config, b: nat, site: Site)
    ensures Solo(c, b, LeaveVal(site), true) == AfterStop(c, b, site)
    ensures SoloExit(c, b, LeaveVal(site), true) == StopExit(c, b, site)
  {
    match site
    case Pre =>
      assert Solo(c, b, LeaveVal(Pre), true) == Solo(c, b, EpochTop(0), true);
      assert SoloExit(c, b, LeaveVal(Pre), true) == SoloExit(c, b, EpochTop(0), true);
      if c.epochs == 0 {
        assert Solo(c, b, EpochTop(0), true) == Solo(c, b, Exit(0, 0), true);
        assert SoloExit(c, b, EpochTop(0), true) == SoloExit(c, b, Exit(0, 0), true);
      } else {
        StoppedStretch(c, b, 0);
        assert Solo(c, b, EpochTop(0), true) == Solo(c, b, StepTop(0, 0), true);
        assert SoloExit(c, b, EpochTop(0), true) == SoloExit(c, b, StepTop(0, 0), true);
      }
    case Mid(e, s) => StopIsPrompt(c, b, e, s);
    case End(e, n) => StopIsPrompt(c, b, e, n);
  }

  // ----- The program of one rank that is told the verdict of every validation

  /** The early-stop flag after so many validations. */
  type Verdicts = nat -> bool

  /** The collectives a rank issues from `pc` to the exit if `n` validations have been shared so far and each
      further one sets its flag as `v` says. */
  function Guided(c: Config, b: nat, pc: Pc, stop: bool, n: nat, v: Verdicts): seq<Op>
    decreases Remaining(c, b, pc)
  {
    match Fetch(c, b, pc, stop)
    case Goto(next) => (Progress(c, b, pc, stop); Guided(c, b, next, stop, n, v))
    case RunVal(next) => (Progress(c, b, pc, stop); Guided(c, b, next, stop, n, v))
    case Collect(op, next) =>
      (Progress(c, b, pc, stop);
       [op] + if op.Broadcast? then Guided(c, b, next, v(n + 1), n + 1, v) else Guided(c, b, next, stop, n, v))
    case Halt => []
  }

  /** Where such a rank leaves the program. */
  function GuidedExit(c: Config, b: nat, pc: Pc, stop: bool, n: nat, v: Verdicts): Pc
    decreases Remaining(c, b, pc)
  {
    match Fetch(c, b, pc, stop)
    case Goto(next) => (Progress(c, b, pc, stop); GuidedExit(c, b, next, stop, n, v))
    case RunVal(next) => (Progress(c, b, pc, stop); GuidedExit(c, b, next, stop, n, v))
    case Collect(op, next) =>
      (Progress(c, b, pc, stop);
       if op.Broadcast? then GuidedExit(c, b, next, v(n + 1), n + 1, v) else GuidedExit(c, b, next, stop, n, v))
    case Halt => pc
  }

  lemma {:induction false} GuidedAhead(c: Config, b: nat, pc: Pc, stop: bool, n: nat, v: Verdicts)
    ensures Guided(c, b, Ahead(c, b, pc, stop), stop, n, v) == Guided(c, b, pc, stop, n, v)
    ensures GuidedExit(c, b, Ahead(c, b, pc, stop), stop, n, v) == GuidedExit(c, b, pc, stop, n, v)
    decreases Remaining(c, b, pc)
  {
    var act := Fetch(c, b, pc, stop);
    if act.Goto? || act.RunVal? {
      Progress(c, b, pc, stop);
      GuidedAhead(c, b, act.next, stop, n, v);
    }
  }

  function Broadcasts(ops: seq<Op>): nat {
    if ops == [] then 0 else Broadcasts(ops[..|ops| - 1]) + if ops[|ops| - 1].Broadcast? then 1 else 0
  }

  lemma BroadcastsLast(ops: seq<Op>, op: Op)
    ensures Broadcasts(ops + [op]) == Broadcasts(ops) + if op.Broadcast? then 1 else 0
  {
    assert (ops + [op])[..|ops|] == ops;
  }

  lemma {:induction false} BroadcastsAppend(x: seq<Op>, y: seq<Op>)
    ensures Broadcasts(x + y) == Broadcasts(x) + Broadcasts(y)
  {
    if y == [] {
      assert x + y == x;
    } else {
      var n := |y| - 1;
      BroadcastsAppend(x, y[..n]);
      assert x + y == (x + y[..n]) + [y[n]];
      BroadcastsLast(x + y[..n], y[n]);
    }
  }

  lemma BroadcastsFirst(op: Op, ops: seq<Op>)
    ensures Broadcasts([op] + ops) == Broadcasts(ops) + if op.Broadcast? then 1 else 0
  {
    BroadcastsAppend([op], ops);
    BroadcastsLast([], op);
    assert [] + [op] == [op];
  }

  /** A stop is never taken back. */
  ghost predicate Sticky(v: Verdicts) {
    forall i: nat, j: nat :: i <= j && v(i) ==> v(j)
  }

  /** The call sites the schedule provides for. */
  ghost predicate SiteOk(c: Config, b: nat, site: Site) {
    match site
    case Pre => c.valFullset
    case Mid(e, s) => e < c.epochs && 0 < s < b && c.valEvery > 0 && s % c.valEvery == 0
    case End(e, n) => e < c.epochs && n == b
  }

  /** A validation that takes place there. */
  ghost predicate CallSite(c: Config, b: nat, site: Site) {
    c.valFullset && SiteOk(c, b, site)
  }

  /** The program points of a run without a stop. */
  ghost predicate OnSchedule(c: Config, b: nat, pc: Pc) {
    match pc
    case Begin => true
    case EpochTop(e) => e <= c.epochs
    case StepTop(e, s) => e < c.epochs && s <= b
    case Backward(e, s) => e < c.epochs && s < b
    case AfterStep(e, s) => e < c.epochs && s < b
    case EnterVal(site) => SiteOk(c, b, site)
    case Validate(site) => CallSite(c, b, site)
    case SyncFlag(site) => CallSite(c, b, site)
    case ValBarrier(site) => CallSite(c, b, site)
    case LeaveVal(site) => SiteOk(c, b, site)
    case EpochDone(e, n) => e < c.epochs && n == b
    case EpochBarrier(e, n) => e < c.epochs && n == b
    case AfterBarrier(e, n) => e < c.epochs && n == b
    case Exit(_, _) => true
  }

  lemma ScheduleStep(c: Config, b: nat, pc: Pc)
    requires OnSchedule(c, b, pc) && !Fetch(c, b, pc, false).Halt?
    ensures OnSchedule(c, b, Fetch(c, b, pc, false).next)
  {
  }

  /** After a stop every verdict is a stop. */
  lemma {:induction false} GuidedStopped(c: Config, b: nat, pc: Pc, n: nat, v: Verdicts)
    requires Sticky(v) && v(n)
    ensures Guided(c, b, pc, true, n, v) == Solo(c, b, pc, true)
    ensures GuidedExit(c, b, pc, true, n, v) == SoloExit(c, b, pc, true)
    decreases Remaining(c, b, pc)
  {
    var act := Fetch(c, b, pc, true);
    if !act.Halt? {
      Progress(c, b, pc, true);
      var m := if act.Collect? && act.op.Broadcast? then n + 1 else n;
      assert v(m);
      GuidedStopped(c, b, act.next, m, v);
    }
  }

  /** From `pc` on, the first stop comes with the last validation of `cut`, the one called at `site`. */
  ghost predicate StopsAt(c: Config, b: nat, pc: Pc, n: nat, v: Verdicts, cut: seq<Op>, site: Site) {
    && CallSite(c, b, site)
    && cut + Solo(c, b, LeaveVal(site), false) == Solo(c, b, pc, false)
    && Guided(c, b, pc, false, n, v) == cut + Solo(c, b, LeaveVal(site), true)
    && GuidedExit(c, b, pc, false, n, v) == SoloExit(c, b, LeaveVal(site), true)
    && Broadcasts(cut) > 0 && v(n + Broadcasts(cut))
    && forall j: nat :: n < j < n + Broadcasts(cut) ==> !v(j)
  }

  /** From `pc` on, no validation stops the program. */
  ghost predicate NeverStops(c: Config, b: nat, pc: Pc, n: nat, v: Verdicts) {
    && Guided(c, b, pc, false, n, v) == Solo(c, b, pc, false)
    && GuidedExit(c, b, pc, false, n, v) == SoloExit(c, b, pc, false)
    && forall j: nat :: n < j <= n + Broadcasts(Solo(c, b, pc, false)) ==> !v(j)
  }

  lemma StopNow(c: Config, b: nat, site: Site, n: nat, v: Verdicts)
    requires CallSite(c, b, site) && Sticky(v) && v(n + 1)
    ensures StopsAt(c, b, SyncFlag(site), n, v, [Broadcast, Barrier], site)
  {
    var pc, next := SyncFlag(site), ValBarrier(site);
    GuidedStopped(c, b, next, n + 1, v);
    assert Solo(c, b, next, false) == [Barrier] + Solo(c, b, LeaveVal(site), false);
    assert Solo(c, b, next, true) == [Barrier] + Solo(c, b, LeaveVal(site), true);
    assert Solo(c, b, pc, false) == [Broadcast] + Solo(c, b, next, false);
    assert SoloExit(c, b, next, true) == SoloExit(c, b, LeaveVal(site), true);
    assert [Broadcast, Barrier] == [Broadcast] + [Barrier];
    BroadcastsLast([Broadcast], Barrier);
    BroadcastsLast([], Broadcast);
  }

  /** A collective that does not stop the program is one more at the front. */
  lemma StopLater(c: Config, b: nat, pc: Pc, n: nat, m: nat, v: Verdicts, cut: seq<Op>, site: Site)
    requires Fetch(c, b, pc, false).Collect?
    requires var act := Fetch(c, b, pc, false);
             if act.op.Broadcast? then m == n + 1 && !v(m) else m == n
    requires StopsAt(c, b, Fetch(c, b, pc, false).next, m, v, cut, site)
    ensures StopsAt(c, b, pc, n, v, [Fetch(c, b, pc, false).op] + cut, site)
  {
    var act := Fetch(c, b, pc, false);
    BroadcastsFirst(act.op, cut);
    Prepend(act.op, cut, Solo(c, b, LeaveVal(site), false));
    Prepend(act.op, cut, Solo(c, b, LeaveVal(site), true));
    assert Solo(c, b, pc, false) == [act.op] + Solo(c, b, act.next, false);
    assert Guided(c, b, pc, false, n, v) == [act.op] + Guided(c, b, act.next, false, m, v);
    assert GuidedExit(c, b, pc, false, n, v) == GuidedExit(c, b, act.next, false, m, v);
  }

  lemma Prepend(op: Op, x: seq<Op>, y: seq<Op>)
    ensures [op] + x + y == [op] + (x + y)
  {
  }

  lemma NeverLater(c: Config, b: nat, pc: Pc, n: nat, m: nat, v: Verdicts)
    requires Fetch(c, b, pc, false).Collect?
    requires var act := Fetch(c, b, pc, false);
             if act.op.Broadcast? then m == n + 1 && !v(m) else m == n
    requires NeverStops(c, b, Fetch(c, b, pc, false).next, m, v)
    ensures NeverStops(c, b, pc, n, v)
  {
    var act := Fetch(c, b, pc, false);
    BroadcastsFirst(act.op, Solo(c, b, act.next, false));
    assert Solo(c, b, pc, false) == [act.op] + Solo(c, b, act.next, false);
    assert Guided(c, b, pc, false, n, v) == [act.op] + Guided(c, b, act.next, false, m, v);
    assert GuidedExit(c, b, pc, false, n, v) == GuidedExit(c, b, act.next, false, m, v);
    assert SoloExit(c, b, pc, false) == SoloExit(c, b, act.next, false);
  }

  lemma LocalLater(c: Config, b: nat, pc: Pc, n: nat, v: Verdicts)
    requires Fetch(c, b, pc, false).Goto? || Fetch(c, b, pc, false).RunVal?
    requires var next := Fetch(c, b, pc, false).next;
             NeverStops(c, b, next, n, v) || exists cut, site :: StopsAt(c, b, next, n, v, cut, site)
    ensures NeverStops(c, b, pc, n, v) || exists cut, site :: StopsAt(c, b, pc, n, v, cut, site)
  {
    var next := Fetch(c, b, pc, false).next;
    assert Solo(c, b, pc, false) == Solo(c, b, next, false) && SoloExit(c, b, pc, false) == SoloExit(c, b, next, false);
    if cut, site :| StopsAt(c, b, next, n, v, cut, site) {
      assert StopsAt(c, b, pc, n, v, cut, site);
    }
  }

  /** A rank that is told the verdicts runs the whole program, or stops at the first stop: it issues what the
      run without a stop issues up to that validation, and then what a stop there prescribes. */
  lemma {:induction false} GuidedCut(c: Config, b: nat, pc: Pc, n: nat, v: Verdicts)
    requires OnSchedule(c, b, pc) && Sticky(v)
    ensures NeverStops(c, b, pc, n, v) || exists cut, site :: StopsAt(c, b, pc, n, v, cut, site)
    decreases Remaining(c, b, pc)
  {
    var act := Fetch(c, b, pc, false);
    if !act.Halt? {
      Progress(c, b, pc, false);
      ScheduleStep(c, b, pc);
      if act.Collect? && act.op.Broadcast? && v(n + 1) {
        StopNow(c, b, pc.site, n, v);
      } else {
        var m := if act.Collect? && act.op.Broadcast? then n + 1 else n;
        GuidedCut(c, b, act.next, m, v);
        if !act.Collect? {
          LocalLater(c, b, pc, n, v);
        } else if cut, site :| StopsAt(c, b, act.next, m, v, cut, site) {
          StopLater(c, b, pc, n, m, v, cut, site);
        } else {
          NeverLater(c, b, pc, n, m, v);
        }
      }
    }
  }

  /** A validation, and nothing else, leads to the point that shares its verdict; a broadcast, and nothing
      else, leaves it. */
  lemma SharingPoint(c: Config, b: nat, pc: Pc, stop: bool)
    ensures var act := Fetch(c, b, pc, stop);
            && (pc.SyncFlag? <==> act.Collect? && act.op.Broadcast?)
            && (!act.Halt? ==> (act.next.SyncFlag? <==> act.RunVal?))
  {
  }

  /** At a collective or exit the action does not depend on the flag. */
  lemma FetchFlagFree(c: Config, b: nat, pc: Pc, stop: bool, other: bool)
    requires Fetch(c, b, pc, stop).Collect?
    ensures Fetch(c, b, pc, stop) == Fetch(c, b, pc, other)
  {
  }

  // ----- A stop before training

  /** A stop decided by the validation before training does not stop anything by itself: the ranks go on
      to the same collective either way, exactly when there is a first batch to train on (or no epoch). */
  lemma StopBeforeTraining(c: Config, b: nat)
    ensures Ahead(c, b, LeaveVal(Pre), true) == Ahead(c, b, LeaveVal(Pre), false) <==> c.epochs == 0 || b > 0
  {
    if c.epochs > 0 {
      assert Ahead(c, b, LeaveVal(Pre), true) == Ahead(c, b, EpochTop(0), true) == Ahead(c, b, StepTop(0, 0), true);
      assert Ahead(c, b, LeaveVal(Pre), false) == Ahead(c, b, EpochTop(0), false) == Ahead(c, b, StepTop(0, 0), false);
      if b == 0 {
        var n := EnterVal(End(0, 0));
        assert Ahead(c, b, StepTop(0, 0), true) == Ahead(c, b, EpochDone(0, 0), true) == Ahead(c, b, Exit(0, 0), true);
        assert Ahead(c, b, StepTop(0, 0), false) == Ahead(c, b, EpochDone(0, 0), false) == Ahead(c, b, n, false);
        if c.valFullset {
          assert Ahead(c, b, n, false) == Ahead(c, b, Validate(End(0, 0)), false) == Ahead(c, b, SyncFlag(End(0, 0)), false);
        } else {
          assert Ahead(c, b, n, false) == Ahead(c, b, LeaveVal(End(0, 0)), false) == Ahead(c, b, EpochBarrier(0, 0), false);
        }
      } else {
        assert Ahead(c, b, StepTop(0, 0), true) == Ahead(c, b, Backward(0, 0), true);
        assert Ahead(c, b, StepTop(0, 0), false) == Ahead(c, b, Backward(0, 0), false);
      }
    } else {
      assert Ahead(c, b, EpochTop(0), true) == Ahead(c, b, Exit(0, 0), true);
      assert Ahead(c, b, EpochTop(0), false) == Ahead(c, b, Exit(0, 0), false);
    }
  }
}
