/** Rounds, failures and the progress bar of the multi-turn workload
    (sglang/benchmark/hicache/bench_multiturn.py): what every run keeps, with the round barrier on or off and
    whether or not requests fail. */
module WorkloadRounds {
  import opened Lists
  import opened Workload

  /** In play: ready, in flight, or with a reply not yet processed. */
  ghost predicate Active(s: State, x: nat) {
    ActiveCount(s, x) > 0
  }

  ghost predicate RepliesOk(s: State) {
    && (forall i :: 0 <= i < |s.inbox| ==> s.inbox[i].ok)
    && (s.sender.Delivering? ==> s.sender.reply.ok)
    && (s.handler.Got? ==> s.handler.reply.ok)
  }

  /** No request has failed so far. */
  ghost predicate NoFailure(s: State) {
    s.failed == multiset{} && RepliesOk(s)
  }

  /** Replies on their way to the handler. */
  function Underway(s: State): nat {
    One(s.sender.Delivering?) + |s.inbox| + One(s.handler.Got?)
  }

  /** The progress bar counts the processed replies and those on their way, and some of the failed ones. */
  ghost predicate BarOk(s: State) {
    s.completed + Underway(s) <= s.bar <= s.completed + Underway(s) + |s.failed|
  }

  lemma StepBarOk(c: Config, s: State, step: Step)
    requires c.rounds > 0 && BarOk(s) && Enabled(c, s, step)
    ensures BarOk(Apply(c, s, step))
  {
  }

  /** Clients in play, parked or failed have rounds left; finished ones have none. */
  ghost predicate RoundsOk(c: Config, s: State) {
    && c.rounds > 0 && |s.rounds| == c.clients && (!c.barrier ==> s.parked == [])
    && (forall x: nat :: Active(s, x) || x in s.parked || x in s.failed ==> x < c.clients && s.rounds[x] < c.rounds)
    && (forall x: nat :: x in s.finished ==> x < c.clients && s.rounds[x] == c.rounds)
  }

  lemma EveryoneSomewhere(c: Config, s: State, x: nat)
    requires Conserved(c, s) && x < c.clients
    ensures Active(s, x) || x in s.parked || x in s.finished || x in s.failed
  {
    assert PlaceCount(s, x) == 1;
    CountMember(s.parked, x);
  }

  /** The client whose reply is processed is in play, once, and nowhere else. */
  lemma ProcessedClient(c: Config, s: State)
    requires Conserved(c, s) && s.handler.Got?
    ensures var x := s.handler.reply.client;
            && x < c.clients && Active(s, x) && x !in s.parked && x !in s.finished && x !in s.failed
            && ActiveCount(s.(handler := Waiting), x) == 0
  {
    var x := s.handler.reply.client;
    CountLast([], x, x);
    CountMember(s.parked, x);
    assert PlaceCount(s, x) == (if x < c.clients then 1 else 0);
  }

  /** Without it, the clients in play are the others. */
  lemma OthersInPlay(s: State, y: nat)
    requires s.handler.Got?
    ensures Active(s.(handler := Waiting), y) ==> Active(s, y)
  {
  }

  lemma QuietStep(c: Config, s: State, step: Step)
    requires Enabled(c, s, step) && !step.Record? && !step.Lose?
    ensures var t := Apply(c, s, step);
            && t.parked == s.parked && t.finished == s.finished && t.failed == s.failed && t.rounds == s.rounds
            && forall x: nat :: Active(t, x) <==> Active(s, x)
  {
    var t := Apply(c, s, step);
    forall x: nat ensures Active(t, x) <==> Active(s, x) {
      StepKeepsActive(c, s, step, x);
    }
  }

  /** Failing takes one client out of play and changes nothing else. */
  lemma FailingStep(c: Config, s: State, step: Step) returns (x: nat)
    requires Enabled(c, s, step) && (step.Lose? || (step.Record? && !s.handler.reply.ok))
    ensures var t := Apply(c, s, step);
            && Active(s, x) && t.failed == s.failed + multiset{x}
            && t.parked == s.parked && t.finished == s.finished && t.rounds == s.rounds && !t.handler.Flush? == !s.handler.Flush?
            && forall y: nat :: Active(t, y) ==> Active(s, y)
  {
    var t := Apply(c, s, step);
    x := if step.Lose? then step.client else s.handler.reply.client;
    CountLast([], x, x);
    forall y: nat | Active(t, y) ensures Active(s, y) {
      FailingKeeps(c, s, step, y);
    }
  }

  lemma FailingKeeps(c: Config, s: State, step: Step, y: nat)
    requires Enabled(c, s, step) && (step.Lose? || (step.Record? && !s.handler.reply.ok))
    ensures ActiveCount(Apply(c, s, step), y) <= ActiveCount(s, y)
  {
  }

  // ----- Rounds

  lemma ProcessedHandler(c: Config, s: State)
    requires Enabled(c, s, Record) && s.handler.reply.ok
    ensures var x, t := s.handler.reply.client, Apply(c, s, Record);
            && t == t.(ready := s.ready, sender := s.sender, flying := s.flying, inbox := s.inbox)
            && (t.handler == Waiting || t.handler == Flush([x]) || t.handler == Flush(s.parked + [x]))
  {
  }

  /** After processing, a client in play was in play before, or is going back to the queue. */
  lemma ProcessedActive(c: Config, s: State, y: nat)
    requires Enabled(c, s, Record) && s.handler.reply.ok && Active(Apply(c, s, Record), y)
    ensures Active(s.(handler := Waiting), y)
         || (Apply(c, s, Record).handler.Flush? && (y in s.parked || y == s.handler.reply.client))
  {
    ProcessedHandler(c, s);
    BackOrBefore(s, Apply(c, s, Record), y);
  }

  lemma BackOrBefore(s: State, t: State, y: nat)
    requires t == t.(ready := s.ready, sender := s.sender, flying := s.flying, inbox := s.inbox)
    requires Active(t, y)
    ensures Active(s.(handler := Waiting), y) || y in InHandler(t)
  {
    CountMember(InHandler(t), y);
  }

  /** Where the clients are after a reply of `x` was processed. */
  lemma ProcessedPlaces(c: Config, s: State, y: nat)
    requires Conserved(c, s) && RoundsOk(c, s) && Enabled(c, s, Record) && s.handler.reply.ok
    ensures var x, t := s.handler.reply.client, Apply(c, s, Record);
            && (Active(t, y) || y in t.parked || y in t.failed ==>
                  if y == x then s.rounds[x] + 1 < c.rounds else Active(s, y) || y in s.parked || y in s.failed)
            && (y in t.finished ==> if y == x then s.rounds[x] + 1 >= c.rounds else y in s.finished)
  {
    var t := Apply(c, s, Record);
    ProcessedClient(c, s);
    if Active(t, y) {
      ProcessedActive(c, s, y);
      OthersInPlay(s, y);
    }
  }

  lemma RecordRounds(c: Config, s: State)
    requires Conserved(c, s) && RoundsOk(c, s) && Enabled(c, s, Record) && s.handler.reply.ok
    ensures RoundsOk(c, Apply(c, s, Record))
  {
    var x, t := s.handler.reply.client, Apply(c, s, Record);
    ProcessedClient(c, s);
    assert t.rounds == s.rounds[x := s.rounds[x] + 1];
    forall y: nat
      ensures Active(t, y) || y in t.parked || y in t.failed ==> y < c.clients && t.rounds[y] < c.rounds
      ensures y in t.finished ==> y < c.clients && t.rounds[y] == c.rounds
    {
      ProcessedPlaces(c, s, y);
    }
  }

  lemma StepRounds(c: Config, s: State, step: Step)
    requires Conserved(c, s) && RoundsOk(c, s) && Enabled(c, s, step)
    ensures RoundsOk(c, Apply(c, s, step))
  {
    if step.Record? && s.handler.reply.ok {
      RecordRounds(c, s);
    } else if step.Lose? || step.Record? {
      var x := FailingStep(c, s, step);
    } else {
      QuietStep(c, s, step);
    }
  }

  /** What holds throughout every run. */
  ghost predicate Sound(c: Config, s: State) {
    Inv(c, s) && RoundsOk(c, s) && BarOk(s) && (s.sender.Stopped? ==> s.bar == Total(c))
  }

  lemma StepStopped(c: Config, s: State, step: Step)
    requires Enabled(c, s, step) && (s.sender.Stopped? ==> s.bar == Total(c))
    ensures var t := Apply(c, s, step); t.sender.Stopped? ==> t.bar == Total(c)
  {
  }

  lemma StepSound(c: Config, s: State, step: Step)
    requires Sound(c, s) && Enabled(c, s, step)
    ensures Sound(c, Apply(c, s, step))
  {
    StepInv(c, s, step);
    StepRounds(c, s, step);
    StepBarOk(c, s, step);
    StepStopped(c, s, step);
  }

  lemma StartSound(c: Config)
    requires c.rounds > 0
    ensures Sound(c, Start(c))
  {
    StartInv(c);
    var s := Start(c);
    forall x: nat | Active(s, x) ensures x < c.clients && s.rounds[x] < c.rounds {
      NumbersOnce(c.clients, x);
    }
  }

  lemma {:induction false} RunsStaySound(c: Config, s: State, steps: seq<Step>)
    requires Sound(c, s) && IsRun(c, s, steps)
    ensures Sound(c, After(c, s, steps))
    decreases |steps|
  {
    if steps != [] {
      StepSound(c, s, steps[0]);
      RunsStaySound(c, Apply(c, s, steps[0]), steps[1..]);
    }
  }

  // ----- The round barrier

  /** The whole job is in round `k`: every client in play or failed has had `k` replies processed, every
      parked one `k + 1`, and clients finish only in the last round. */
  ghost predicate InRound(c: Config, s: State, k: nat) {
    && k < c.rounds && |s.rounds| == c.clients
    && (forall x: nat :: Active(s, x) || x in s.failed ==> x < c.clients && s.rounds[x] == k)
    && (forall x: nat :: x in s.parked ==> x < c.clients && s.rounds[x] == k + 1)
    && (forall x: nat :: x in s.finished ==> x < c.clients && s.rounds[x] == c.rounds)
    && (s.parked != [] ==> k + 1 < c.rounds && |s.parked| < c.clients)
    && (s.finished != multiset{} ==> k + 1 == c.rounds)
  }

  lemma StartInRound(c: Config)
    requires c.rounds > 0
    ensures InRound(c, Start(c), 0)
  {
    var s := Start(c);
    forall x: nat | Active(s, x) ensures x < c.clients && s.rounds[x] == 0 {
      NumbersOnce(c.clients, x);
    }
  }

  /** A full parking list means nobody else is in play, finished or failed. */
  lemma FullBarrier(c: Config, s: State)
    requires Conserved(c, s) && s.handler.Got? && |s.parked| + 1 == c.clients
    ensures s.ready == [] && InSender(s) == [] && s.flying == multiset{} && s.inbox == []
    ensures s.finished == multiset{} && s.failed == multiset{}
  {
    SizesAddUp(c, s);
  }

  lemma ReleaseInRound(c: Config, s: State, k: nat)
    requires c.barrier && Conserved(c, s) && InRound(c, s, k) && Enabled(c, s, Record) && s.handler.reply.ok
    requires k + 1 < c.rounds && |s.parked| + 1 == c.clients
    ensures InRound(c, Apply(c, s, Record), k + 1)
  {
    var x, t := s.handler.reply.client, Apply(c, s, Record);
    ProcessedClient(c, s);
    FullBarrier(c, s);
    var all := s.parked + [x];
    forall y: nat | Active(t, y) ensures y < c.clients && t.rounds[y] == k + 1 {
      CountMember(all, y);
      assert InHandler(t) == all && Clients(t.inbox) == [];
      assert y != x ==> y in s.parked;
    }
  }

  lemma ParkInRound(c: Config, s: State, k: nat)
    requires c.barrier && Conserved(c, s) && InRound(c, s, k) && Enabled(c, s, Record) && s.handler.reply.ok
    requires k + 1 < c.rounds && |s.parked| + 1 != c.clients
    ensures InRound(c, Apply(c, s, Record), k)
  {
    var x, t := s.handler.reply.client, Apply(c, s, Record);
    ProcessedClient(c, s);
    SizesAddUp(c, s);
    PlayUnchanged(c, s, t, k);
    forall y: nat | y in t.parked ensures y < c.clients && t.rounds[y] == k + 1 {
      assert y in s.parked || y == x;
    }
  }

  /** After a reply of round `k` is processed without a release, everyone in play is still in round `k`. */
  lemma PlayUnchanged(c: Config, s: State, t: State, k: nat)
    requires Conserved(c, s) && InRound(c, s, k) && s.handler.Got?
    requires var x := s.handler.reply.client;
             && x < |s.rounds| && t.rounds == s.rounds[x := s.rounds[x] + 1] && t.handler == Waiting
             && t.ready == s.ready && t.sender == s.sender && t.flying == s.flying && t.inbox == s.inbox
    ensures forall y: nat :: Active(t, y) ==> y < c.clients && t.rounds[y] == k
  {
    ProcessedClient(c, s);
    forall y: nat | Active(t, y) ensures y < c.clients && t.rounds[y] == k {
      assert ActiveCount(t, y) == ActiveCount(s.(handler := Waiting), y);
      OthersInPlay(s, y);
    }
  }

  lemma FinishInRound(c: Config, s: State, k: nat)
    requires Conserved(c, s) && InRound(c, s, k) && Enabled(c, s, Record) && s.handler.reply.ok
    requires k + 1 == c.rounds
    ensures InRound(c, Apply(c, s, Record), k)
  {
    var x, t := s.handler.reply.client, Apply(c, s, Record);
    ProcessedClient(c, s);
    assert s.parked == [] && s.rounds[x] == k;
    PlayUnchanged(c, s, t, k);
  }

  lemma RecordInRound(c: Config, s: State, k: nat) returns (k': nat)
    requires c.barrier && Conserved(c, s) && InRound(c, s, k) && Enabled(c, s, Record) && s.handler.reply.ok
    ensures InRound(c, Apply(c, s, Record), k')
  {
    k' := k;
    if k + 1 == c.rounds {
      FinishInRound(c, s, k);
    } else if |s.parked| + 1 == c.clients {
      ReleaseInRound(c, s, k);
      k' := k + 1;
    } else {
      ParkInRound(c, s, k);
    }
  }

  lemma StepInRound(c: Config, s: State, k: nat, step: Step) returns (k': nat)
    requires c.barrier && Conserved(c, s) && InRound(c, s, k) && Enabled(c, s, step)
    ensures InRound(c, Apply(c, s, step), k')
  {
    k' := k;
    if step.Record? && s.handler.reply.ok {
      k' := RecordInRound(c, s, k);
    } else if step.Lose? || step.Record? {
      var x := FailingStep(c, s, step);
    } else {
      QuietStep(c, s, step);
    }
  }

  lemma {:induction false} RunsStayInRound(c: Config, s: State, k: nat, steps: seq<Step>) returns (k': nat)
    requires c.barrier && Inv(c, s) && InRound(c, s, k) && IsRun(c, s, steps)
    ensures InRound(c, After(c, s, steps), k')
    decreases |steps|
  {
    k' := k;
    if steps != [] {
      k' := StepInRound(c, s, k, steps[0]);
      StepInv(c, s, steps[0]);
      k' := RunsStayInRound(c, Apply(c, s, steps[0]), k', steps[1..]);
    }
  }

  /** In every run with the barrier on, failures included: a client with a request ready, in flight or
      unprocessed has no more rounds behind it than any other client, so no request of round r + 1 is ready
      before every client's reply of round r is processed; and rounds never differ by more than one. */
  lemma BarrierTheorem(c: Config, steps: seq<Step>, x: nat, y: nat)
    requires c.barrier && c.rounds > 0 && IsRun(c, Start(c), steps)
    requires x < c.clients && y < c.clients
    ensures var s := After(c, Start(c), steps);
            && |s.rounds| == c.clients
            && (Active(s, x) ==> s.rounds[x] <= s.rounds[y] && s.rounds[x] < c.rounds)
            && s.rounds[x] <= s.rounds[y] + 1
  {
    var s := After(c, Start(c), steps);
    StartInv(c);
    StartInRound(c);
    var k := RunsStayInRound(c, Start(c), 0, steps);
    RunsKeepInv(c, Start(c), steps);
    EveryoneSomewhere(c, s, x);
    EveryoneSomewhere(c, s, y);
  }

  /** With the barrier on, one failed client is enough: unless a release is under way, no later round is
      ever released, in any continuation of the run, and the ready queue only gets shorter. */
  lemma {:induction false} FailureStopsTheBarrier(c: Config, s: State, steps: seq<Step>)
    requires c.barrier && Inv(c, s) && IsRun(c, s, steps) && s.failed != multiset{} && !s.handler.Flush?
    ensures var t := After(c, s, steps); !t.handler.Flush? && |t.ready| <= |s.ready| && t.failed != multiset{}
    decreases |steps|
  {
    if steps != [] {
      NoRelease(c, s, steps[0]);
      StepInv(c, s, steps[0]);
      FailureStopsTheBarrier(c, Apply(c, s, steps[0]), steps[1..]);
    }
  }

  lemma NoRelease(c: Config, s: State, step: Step)
    requires c.barrier && Conserved(c, s) && Enabled(c, s, step) && s.failed != multiset{} && !s.handler.Flush?
    ensures var t := Apply(c, s, step); !t.handler.Flush? && |t.ready| <= |s.ready| && t.failed != multiset{}
  {
    if step.Record? {
      SizesAddUp(c, s);
    }
  }
}
