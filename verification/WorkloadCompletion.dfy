/** How runs of the multi-turn workload (sglang/benchmark/hicache/bench_multiturn.py) end: when all replies
    can still be processed, and what is missing when the response handler leaves. */
module WorkloadCompletion {
  import opened Arith
  import opened Lists
  import opened Workload
  import opened WorkloadRounds

  // ----- How much is missing

  lemma SumStrict(s: seq<nat>, v: nat, i: nat)
    requires i < |s| && s[i] < v && forall j :: 0 <= j < |s| ==> s[j] <= v
    ensures Sum(s) < Times(|s|, v)
  {
    SumUpdate(s, i, v);
    SumBound(s[i := v], v);
  }

  lemma RoundsBounded(c: Config, s: State)
    requires Sound(c, s)
    ensures |s.rounds| == c.clients && forall i: nat :: i < c.clients ==> s.rounds[i] <= c.rounds
  {
    forall i: nat | i < c.clients ensures s.rounds[i] <= c.rounds {
      EveryoneSomewhere(c, s, i);
    }
  }

  /** As long as a client has rounds left, replies are missing. */
  lemma Missing(c: Config, s: State, x: nat)
    requires Sound(c, s) && x < c.clients && s.rounds[x] < c.rounds
    ensures s.completed < Total(c)
  {
    RoundsBounded(c, s);
    SumStrict(s.rounds, c.rounds, x);
  }

  /** Every entry short of `v` leaves at least one to be added. */
  lemma {:induction false} SumShort(s: seq<nat>, v: nat)
    requires forall i :: 0 <= i < |s| ==> s[i] <= v
    ensures Sum(s) + |s| <= Times(|s|, v) + Count(s, v)
  {
    if s != [] {
      SumShort(s[..|s| - 1], v);
    }
  }

  lemma {:induction false} FewFull(s: seq<nat>, v: nat, m: multiset<nat>)
    requires forall i: nat :: i < |s| && s[i] == v ==> i in m
    ensures Count(s, v) <= |m|
  {
    if s != [] {
      var n := |s| - 1;
      if s[n] == v {
        FewFull(s[..n], v, m - multiset{n});
      } else {
        FewFull(s[..n], v, m);
      }
    }
  }

  /** Every client that has not finished still lacks a reply. */
  lemma Room(c: Config, s: State)
    requires Sound(c, s)
    ensures s.completed + c.clients <= Total(c) + |s.finished|
  {
    RoundsBounded(c, s);
    SumShort(s.rounds, c.rounds);
    forall i: nat | i < |s.rounds| && s.rounds[i] == c.rounds ensures i in s.finished {
      EveryoneSomewhere(c, s, i);
    }
    FewFull(s.rounds, c.rounds, s.finished);
  }

  /** The progress bar never passes its total, and once it is full no request is waiting or in flight. */
  lemma BarRoom(c: Config, s: State)
    requires Sound(c, s)
    ensures s.bar + |s.ready| + One(s.sender.Holding?) + |s.flying| + |s.parked| <= Total(c)
    ensures s.completed + Underway(s) + |s.failed| <= Total(c)
  {
    Room(c, s);
    SizesAddUp(c, s);
  }

  // ----- Failures

  lemma TakeKeepsReplies(c: Config, s: State)
    requires Enabled(c, s, Take) && RepliesOk(Apply(c, s, Take))
    ensures RepliesOk(s)
  {
    var t := Apply(c, s, Take);
    forall i | 0 <= i < |s.inbox| ensures s.inbox[i].ok {
      assert i > 0 ==> t.inbox[i - 1] == s.inbox[i];
    }
  }

  lemma PutKeepsReplies(c: Config, s: State)
    requires Enabled(c, s, Put) && RepliesOk(Apply(c, s, Put))
    ensures RepliesOk(s)
  {
    var t := Apply(c, s, Put);
    assert t.inbox[|s.inbox|] == s.sender.reply;
    assert forall i :: 0 <= i < |s.inbox| ==> t.inbox[i] == s.inbox[i];
  }

  /** A failure is never undone. */
  lemma FailureStays(c: Config, s: State, step: Step)
    requires Enabled(c, s, step) && NoFailure(Apply(c, s, step))
    ensures NoFailure(s)
  {
    if step.Take? {
      TakeKeepsReplies(c, s);
    } else if step.Put? {
      PutKeepsReplies(c, s);
    }
  }

  lemma {:induction false} FailureStaysRun(c: Config, s: State, steps: seq<Step>)
    requires IsRun(c, s, steps) && !NoFailure(s)
    ensures !NoFailure(After(c, s, steps))
    decreases |steps|
  {
    if steps != [] {
      if NoFailure(Apply(c, s, steps[0])) {
        FailureStays(c, s, steps[0]);
      }
      FailureStaysRun(c, Apply(c, s, steps[0]), steps[1..]);
    }
  }

  /** A reply on its way belongs to a client in play. */
  lemma UnderwayActive(s: State, i: nat)
    requires i < |s.inbox|
    ensures Active(s, s.inbox[i].client)
  {
    var x := s.inbox[i].client;
    assert Clients(s.inbox)[i] == x;
    CountMember(Clients(s.inbox), x);
  }

  /** With a failure, some client never gets to its last round. */
  lemma FailureMisses(c: Config, s: State)
    requires Sound(c, s) && !NoFailure(s)
    ensures s.completed < Total(c)
  {
    if x: nat :| x in s.failed {
      Missing(c, s, x);
    } else {
      assert s.failed == multiset{};
      var x: nat;
      if s.sender.Delivering? && !s.sender.reply.ok {
        x := s.sender.reply.client;
        CountLast([], x, x);
      } else if s.handler.Got? && !s.handler.reply.ok {
        x := s.handler.reply.client;
        CountLast([], x, x);
      } else {
        var i :| 0 <= i < |s.inbox| && !s.inbox[i].ok;
        x := s.inbox[i].client;
        UnderwayActive(s, i);
      }
      assert Active(s, x);
      Missing(c, s, x);
    }
  }

  // ----- Completion stays within reach

  /** A run so far without failures, in round `k` if the barrier is on. */
  ghost predicate OnSchedule(c: Config, s: State, k: nat) {
    Sound(c, s) && NoFailure(s) && (c.barrier ==> InRound(c, s, k))
  }

  /** The handler has left, or is bound to: it has timed out and will find the bar full. */
  ghost predicate HandlerGone(c: Config, s: State) {
    s.handler.Done? || (s.handler.TimedOut? && s.bar == Total(c))
  }

  /** Nobody is stranded, with or without the barrier: when no client has a request in play, all have
      finished and exactly num_clients * num_rounds replies have been processed. */
  lemma AllProcessed(c: Config, s: State, k: nat)
    requires OnSchedule(c, s, k) && forall x: nat :: !Active(s, x)
    ensures s.completed == c.clients * c.rounds && |s.finished| == c.clients
    ensures s.pool == if c.rounds >= 2 then 0 else c.clients
  {
    NobodyParked(c, s, k);
    forall i | 0 <= i < |s.rounds| ensures s.rounds[i] == c.rounds {
      EveryoneSomewhere(c, s, i);
    }
    SumBound(s.rounds, c.rounds);
    TimesIs(c.clients, c.rounds);
    PoolAtEnd(c, s);
  }

  lemma NobodyParked(c: Config, s: State, k: nat)
    requires OnSchedule(c, s, k) && forall x: nat :: !Active(s, x)
    ensures s.parked == [] && |s.finished| == c.clients
  {
    SizesAddUp(c, s);
    EmptyList(s.ready, s);
    EmptyList(InSender(s), s);
    EmptyList(Clients(s.inbox), s);
    EmptyList(InHandler(s), s);
    assert forall x: nat :: s.flying[x] <= ActiveCount(s, x);
    assert forall x: nat :: x in s.flying ==> Active(s, x);
    assert s.flying == multiset{};
  }

  lemma EmptyList(list: seq<nat>, s: State)
    requires forall x: nat :: Count(list, x) <= ActiveCount(s, x)
    requires forall x: nat :: !Active(s, x)
    ensures list == []
  {
    if list != [] {
      CountMember(list, list[0]);
      assert Active(s, list[0]);
    }
  }

  /** Processing still to do: every missing reply, and how far each client is from its next one. */
  function Work(c: Config, s: State): int {
    8 * (Total(c) - s.completed)
    + 7 * (|s.parked| + (if s.handler.Flush? then |s.handler.rest| else 0)) + 6 * |s.ready| + 5 * One(s.sender.Holding?)
    + 4 * |s.flying| + 3 * One(s.sender.Delivering?) + 2 * |s.inbox| + One(s.handler.Got?)
  }

  /** Polling steps before the next one that moves a client. */
  function Polling(s: State): nat {
    One(s.handler == Flush([]) || s.handler.TimedOut?) +
    if s.ready == [] then (if s.sender.Armed? then 2 else One(s.sender.Checking?))
    else (if s.sender.Checking? then 2 else One(s.sender.Idle?))
  }

  ghost predicate Nearer(c: Config, t: State, s: State) {
    Work(c, t) < Work(c, s) || (Work(c, t) == Work(c, s) && Polling(t) < Polling(s))
  }

  /** A step that brings completion nearer, without a failure and with the handler still there. */
  ghost predicate GoodMove(c: Config, s: State, step: Step) {
    && Enabled(c, s, step)
    && var t := Apply(c, s, step); Nearer(c, t, s) && NoFailure(t) && !HandlerGone(c, t)
  }

  /** A processed reply is one less to do, and its client is back at the start of a round at the most. */
  lemma RecordNearer(c: Config, s: State)
    requires s.handler.Got? && s.handler.reply.ok && s.handler.reply.client < |s.rounds|
    ensures var t := Processed(c, s, s.handler.reply.client);
            Work(c, t) < Work(c, s) && !t.handler.Done? && !t.handler.TimedOut?
  {
    var t := Processed(c, s, s.handler.reply.client);
    assert |t.parked| + (if t.handler.Flush? then |t.handler.rest| else 0) <= |s.parked| + 1;
  }

  lemma RecordMove(c: Config, s: State)
    requires Conserved(c, s) && |s.rounds| == c.clients && NoFailure(s) && s.handler.Got?
    ensures GoodMove(c, s, Record)
  {
    ProcessedClient(c, s);
    RecordNearer(c, s);
  }

  lemma TakeMove(c: Config, s: State)
    requires NoFailure(s) && s.handler.Waiting? && s.inbox != []
    ensures GoodMove(c, s, Take)
  {
  }

  lemma FlushMove(c: Config, s: State)
    requires NoFailure(s) && s.handler.Flush?
    ensures GoodMove(c, s, FlushOne)
  {
  }

  lemma HandlerMove(c: Config, s: State) returns (step: Step)
    requires Conserved(c, s) && |s.rounds| == c.clients && NoFailure(s)
    requires !HandlerGone(c, s) && (s.handler.Waiting? ==> s.inbox != [])
    ensures GoodMove(c, s, step)
  {
    match s.handler
    case Got(_) =>
      RecordMove(c, s);
      step := Record;
    case Flush(_) =>
      FlushMove(c, s);
      step := FlushOne;
    case Waiting =>
      TakeMove(c, s);
      step := Take;
    case TimedOut => step := Retry;
  }

  lemma IdleMove(c: Config, s: State) returns (step: Step)
    requires NoFailure(s) && c.maxParallel > 0 && s.handler.Waiting? && s.inbox == [] && exists x: nat :: Active(s, x)
    requires s.sender.Idle? && s.sent == s.completed + |s.flying|
    ensures GoodMove(c, s, step)
  {
    if x: nat :| x in s.flying {
      step := Return(x, true);
    } else {
      assert s.flying == multiset{};
      step := Arm;
    }
  }

  lemma ArmedMove(c: Config, s: State) returns (step: Step)
    requires NoFailure(s) && s.handler.Waiting? && s.sender.Armed?
    ensures GoodMove(c, s, step)
  {
    step := if s.ready == [] then PopNothing else Pop(0);
  }

  lemma LaunchMove(c: Config, s: State)
    requires NoFailure(s) && s.handler.Waiting? && s.sender.Holding?
    ensures GoodMove(c, s, Launch)
  {
  }

  lemma CheckMove(c: Config, s: State)
    requires NoFailure(s) && s.handler.Waiting? && s.sender.Checking?
    requires s.bar != Total(c)
    ensures GoodMove(c, s, Check)
  {
  }

  lemma PutMove(c: Config, s: State)
    requires NoFailure(s) && s.handler.Waiting? && s.sender.Delivering?
    ensures GoodMove(c, s, Put)
  {
  }

  lemma SenderMove(c: Config, s: State) returns (step: Step)
    requires NoFailure(s) && c.maxParallel > 0 && s.handler.Waiting? && s.inbox == [] && exists x: nat :: Active(s, x)
    requires s.completed < Total(c) && BarOk(s) && (s.sender.Stopped? ==> s.bar == Total(c))
    requires s.sent == s.completed + |s.flying| + One(s.sender.Delivering?)
    ensures GoodMove(c, s, step)
  {
    match s.sender
    case Holding(_) =>
      LaunchMove(c, s);
      step := Launch;
    case Delivering(_) =>
      PutMove(c, s);
      step := Put;
    case Checking =>
      CheckMove(c, s);
      step := Check;
    case Armed => step := ArmedMove(c, s);
    case Idle => step := IdleMove(c, s);
  }

  lemma NextMove(c: Config, s: State, k: nat) returns (step: Step, j: nat)
    requires OnSchedule(c, s, k) && c.maxParallel > 0 && !HandlerGone(c, s) && exists x: nat :: Active(s, x)
    ensures GoodMove(c, s, step) && OnSchedule(c, Apply(c, s, step), j)
  {
    if s.handler.Waiting? && s.inbox == [] {
      var x: nat :| Active(s, x);
      Missing(c, s, x);
      step := SenderMove(c, s);
    } else {
      step := HandlerMove(c, s);
    }
    j := k;
    if c.barrier {
      j := StepInRound(c, s, k, step);
    }
    StepSound(c, s, step);
  }

  lemma WorkBounded(c: Config, s: State)
    requires Sound(c, s)
    ensures Work(c, s) >= 0
  {
    BarRoom(c, s);
  }

  /** From every point of a run without failures at which the handler is still there, the run can go on
      to process every reply. */
  lemma {:induction false} CanFinish(c: Config, s: State, k: nat) returns (more: seq<Step>)
    requires OnSchedule(c, s, k) && c.maxParallel > 0 && !HandlerGone(c, s)
    ensures IsRun(c, s, more) && After(c, s, more).completed == c.clients * c.rounds
    decreases Work(c, s), Polling(s)
  {
    WorkBounded(c, s);
    if exists x: nat :: Active(s, x) {
      var step, j := NextMove(c, s, k);
      var t := Apply(c, s, step);
      WorkBounded(c, t);
      var rest := CanFinish(c, t, j);
      more := [step] + rest;
      RunOne(c, s, step, rest);
    } else {
      more := [];
      AllProcessed(c, s, k);
    }
  }

  lemma RunOne(c: Config, s: State, step: Step, rest: seq<Step>)
    requires Enabled(c, s, step) && IsRun(c, Apply(c, s, step), rest)
    ensures IsRun(c, s, [step] + rest)
    ensures After(c, s, [step] + rest) == After(c, Apply(c, s, step), rest)
  {
    assert ([step] + rest)[1..] == rest;
  }

  /** A handler that is bound to leave stays so: the bar is full and nobody is left to count on it. */
  lemma GoneStays(c: Config, s: State, step: Step)
    requires Sound(c, s) && HandlerGone(c, s) && Enabled(c, s, step)
    ensures HandlerGone(c, Apply(c, s, step)) && Apply(c, s, step).completed == s.completed
  {
    BarRoom(c, s);
  }

  /** Without room to send, or once the handler is gone, no further reply is processed in any run. */
  lemma {:induction false} Frozen(c: Config, s: State, steps: seq<Step>)
    requires Sound(c, s) && IsRun(c, s, steps) && (c.maxParallel <= 0 || HandlerGone(c, s))
    ensures After(c, s, steps).completed == s.completed
    decreases |steps|
  {
    if steps != [] {
      if c.maxParallel > 0 {
        GoneStays(c, s, steps[0]);
      }
      StepSound(c, s, steps[0]);
      Frozen(c, Apply(c, s, steps[0]), steps[1..]);
    }
  }

  /** Some continuation of the run processes every reply. */
  ghost predicate CanComplete(c: Config, s: State) {
    exists more :: IsRun(c, s, more) && After(c, s, more).completed == c.clients * c.rounds
  }

  lemma Reached(c: Config, steps: seq<Step>) returns (k: nat)
    requires c.rounds > 0 && IsRun(c, Start(c), steps)
    ensures var s := After(c, Start(c), steps); Sound(c, s) && (c.barrier ==> InRound(c, s, k))
  {
    StartSound(c);
    RunsStaySound(c, Start(c), steps);
    k := 0;
    if c.barrier {
      StartInRound(c);
      k := RunsStayInRound(c, Start(c), 0, steps);
    }
  }

  /** At every point of every run, with or without the barrier: processing all num_clients * num_rounds
      replies is within reach if and only if anything may be sent at all, no request has failed and the
      handler is neither gone nor bound to leave, or it has happened already. */
  lemma CompletionTheorem(c: Config, steps: seq<Step>)
    requires c.rounds > 0 && IsRun(c, Start(c), steps)
    ensures var s := After(c, Start(c), steps);
            CanComplete(c, s) <==>
              (c.maxParallel > 0 && NoFailure(s) && !HandlerGone(c, s)) || s.completed == c.clients * c.rounds
  {
    var s := After(c, Start(c), steps);
    var k := Reached(c, steps);
    if c.maxParallel > 0 && NoFailure(s) && !HandlerGone(c, s) {
      var more := CanFinish(c, s, k);
    } else {
      if more :| IsRun(c, s, more) && After(c, s, more).completed == c.clients * c.rounds {
        OutOfReach(c, s, more);
      }
      assert IsRun(c, s, []) && After(c, s, []) == s;
    }
  }

  lemma OutOfReach(c: Config, s: State, more: seq<Step>)
    requires Sound(c, s) && IsRun(c, s, more) && (c.maxParallel <= 0 || !NoFailure(s) || HandlerGone(c, s))
    requires After(c, s, more).completed == c.clients * c.rounds
    ensures s.completed == c.clients * c.rounds
  {
    TimesIs(c.clients, c.rounds);
    if c.maxParallel <= 0 || HandlerGone(c, s) {
      Frozen(c, s, more);
    } else {
      FailureStaysRun(c, s, more);
      RunsStaySound(c, s, more);
      FailureMisses(c, After(c, s, more));
    }
  }

  // ----- When the handler leaves

  /** In every run: the handler leaves having processed every reply if and only if no request has failed, no
      reply is in the queue, and no request is between counting itself on the progress bar and queueing its
      reply. */
  lemma HandlerLeavesExactly(c: Config, steps: seq<Step>)
    requires c.rounds > 0 && IsRun(c, Start(c), steps) && Enabled(c, After(c, Start(c), steps), GiveUp)
    ensures var s := After(c, Start(c), steps);
            s.completed == c.clients * c.rounds <==> s.failed == multiset{} && s.inbox == [] && !s.sender.Delivering?
  {
    var k := Reached(c, steps);
    BarRoom(c, After(c, Start(c), steps));
    TimesIs(c.clients, c.rounds);
  }

  // ----- Runs that lose a reply

  lemma {:induction false} RunMore(c: Config, s: State, steps: seq<Step>, more: seq<Step>)
    requires IsRun(c, s, steps) && IsRun(c, After(c, s, steps), more)
    ensures IsRun(c, s, steps + more) && After(c, s, steps + more) == After(c, After(c, s, steps), more)
    decreases |steps|
  {
    if steps == [] {
      assert steps + more == more;
    } else {
      assert (steps + more)[1..] == steps[1..] + more;
      RunMore(c, Apply(c, s, steps[0]), steps[1..], more);
    }
  }

  const FIRST_REQUEST := [Arm, Pop(0), Launch, Check]

  /** The first client's request is in flight. */
  function OneFlying(c: Config): State
    requires c.clients > 0
  {
    Start(c).(ready := Without(Start(c).ready, 0), flying := multiset{0}, sent := 1)
  }

  lemma FirstRequest(c: Config)
    requires c.clients > 0 && c.rounds > 0 && c.maxParallel > 0
    ensures IsRun(c, Start(c), FIRST_REQUEST) && After(c, Start(c), FIRST_REQUEST) == OneFlying(c)
  {
    TimesIs(c.clients, c.rounds);
    assert c.clients * c.rounds > 0;
    var s0 := Start(c);
    assert s0.ready[0] == 0;
    var s1 := Apply(c, s0, Arm);
    var s2 := Apply(c, s1, Pop(0));
    var s3 := Apply(c, s2, Launch);
    RunOne(c, s3, Check, []);
    RunOne(c, s2, Launch, [Check]);
    RunOne(c, s1, Pop(0), [Launch, Check]);
    RunOne(c, s0, Arm, [Pop(0), Launch, Check]);
  }

  /** One failed request, and not all replies can be processed any more, whatever the configuration. */
  lemma FailingRun(c: Config)
    requires c.clients > 0 && c.rounds > 0 && c.maxParallel > 0
    ensures var steps := FIRST_REQUEST + [Lose(0)];
            && IsRun(c, Start(c), steps)
            && After(c, Start(c), steps).failed == multiset{0} && !CanComplete(c, After(c, Start(c), steps))
  {
    FirstRequest(c);
    var s := OneFlying(c);
    RunOne(c, s, Lose(0), []);
    RunMore(c, Start(c), FIRST_REQUEST, [Lose(0)]);
    CompletionTheorem(c, FIRST_REQUEST + [Lose(0)]);
    TimesIs(c.clients, c.rounds);
    assert c.clients * c.rounds > 0;
  }

  /** The handler times out, the last request comes back, and the handler leaves before or after the reply is
      queued. `early`: between the request's progress-bar update and its reply. */
  function LosingRun(early: bool): seq<Step> {
    FIRST_REQUEST + if early then [Return(0, true), Empty] else [Empty, Return(0, true), Put]
  }

  lemma EarlyRun(c: Config)
    requires c.clients == 1 && c.rounds == 1 && c.maxParallel > 0
    ensures IsRun(c, OneFlying(c), [Return(0, true), Empty])
    ensures var s := After(c, OneFlying(c), [Return(0, true), Empty]);
            s.handler.TimedOut? && s.sender == Delivering(Reply(0, true)) && s.inbox == [] && s.bar == 1 && s.completed == 0
            && s.failed == multiset{}
  {
    var s0 := OneFlying(c);
    var s1 := Apply(c, s0, Return(0, true));
    RunOne(c, s1, Empty, []);
    RunOne(c, s0, Return(0, true), [Empty]);
  }

  lemma LateRun(c: Config)
    requires c.clients == 1 && c.rounds == 1 && c.maxParallel > 0
    ensures IsRun(c, OneFlying(c), [Empty, Return(0, true), Put])
    ensures var s := After(c, OneFlying(c), [Empty, Return(0, true), Put]);
            s.handler.TimedOut? && s.sender.Idle? && s.inbox == [Reply(0, true)] && s.bar == 1 && s.completed == 0
            && s.failed == multiset{}
  {
    var s0 := OneFlying(c);
    var s1 := Apply(c, s0, Empty);
    var s2 := Apply(c, s1, Return(0, true));
    RunOne(c, s2, Put, []);
    RunOne(c, s1, Return(0, true), [Put]);
    RunOne(c, s0, Empty, [Return(0, true), Put]);
  }

  /** Without any failure, in both ways: the handler may leave with nothing processed, and then nothing ever
      will be. */
  lemma LastReplyCanBeLost(c: Config, early: bool)
    requires c.clients == 1 && c.rounds == 1 && c.maxParallel > 0
    ensures IsRun(c, Start(c), LosingRun(early))
    ensures var s := After(c, Start(c), LosingRun(early));
            && Enabled(c, s, GiveUp) && NoFailure(s) && s.completed == 0
            && s.sender.Delivering? == early && s.inbox == (if early then [] else [Reply(0, true)])
            && !CanComplete(c, s)
  {
    assert Times(1, 1) == 1 + Times(0, 1) == 1;
    FirstRequest(c);
    if early {
      EarlyRun(c);
      RunMore(c, Start(c), FIRST_REQUEST, [Return(0, true), Empty]);
    } else {
      LateRun(c);
      RunMore(c, Start(c), FIRST_REQUEST, [Empty, Return(0, true), Put]);
    }
    CompletionTheorem(c, LosingRun(early));
  }
}
