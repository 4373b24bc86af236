/** The multi-turn request workload (sglang/benchmark/hicache/bench_multiturn.py, `ReadyQueue` and
    `WorkloadGenerator`): a sender thread running an event loop, requests in flight, and a handler
    thread, as atomic steps under every interleaving. A client is known by its number. */
module Workload {
  import opened Arith
  import opened Lists
  import opened Wrappers

  // ----- The ready queue

  datatype Policy = Random | Fifo

  /** `draw` stands for random.randrange. */
  class ReadyQueue {
    var requests: seq<nat>
    const policy: Policy

    constructor (init: seq<nat>, policy: Policy)
      ensures requests == init && this.policy == policy
    {
      requests, this.policy := init, policy;
    }

    method Append(item: nat)
      modifies this
      ensures requests == old(requests) + [item]
    {
      requests := requests + [item];
    }

    method Pop(draw: nat) returns (r: Option<nat>)
      requires requests != [] ==> draw < |requests|
      modifies this
      ensures Popped(old(requests), policy, draw, r, requests)
      ensures old(requests) == [] ==> r == None && requests == []
      ensures old(requests) != [] && policy.Fifo? ==> r == Some(old(requests)[0]) && requests == old(requests)[1..]
      ensures old(requests) != [] && policy.Random? ==>
        r == Some(old(requests)[draw]) && requests == old(requests)[..draw] + old(requests)[draw + 1..]
    {
      if requests == [] {
        return None;
      }
      var i := Place(policy, draw);
      r := Some(requests[i]);
      requests := Without(requests, i);
    }
  }

  /** The place a queue of this policy takes from. */
  function Place(policy: Policy, draw: nat): nat {
    if policy.Random? then draw else 0
  }

  /** Taking from `was` gives `r` and leaves `now`. */
  ghost predicate Popped(was: seq<nat>, policy: Policy, draw: nat, r: Option<nat>, now: seq<nat>) {
    if was == [] then r == None && now == was
    else Place(policy, draw) < |was| && r == Some(was[Place(policy, draw)]) && now == Without(was, Place(policy, draw))
  }

  function Without<T>(s: seq<T>, i: nat): seq<T>
    requires i < |s|
  {
    s[..i] + s[i + 1..]
  }

  // ----- The state

  datatype Config = Config(clients: nat, rounds: nat, maxParallel: int, barrier: bool)

  datatype Reply = Reply(client: nat, ok: bool)

  /** Where the event-loop thread is. `Idle`: every coroutine is suspended. `Delivering`: a request has
      counted itself on the progress bar and is about to put its reply on the queue. */
  datatype Sender = Idle | Armed | Holding(client: nat) | Checking | Delivering(reply: Reply) | Stopped

  /** Where the response handler is. `TimedOut`: queue.Empty was raised and the progress bar is not read yet.
      `Flush`: appending these clients to the ready queue, one by one. */
  datatype Handler = Waiting | TimedOut | Got(reply: Reply) | Flush(rest: seq<nat>) | Done

  datatype State = State(
    ready: seq<nat>,
    sender: Sender,
    flying: multiset<nat>,
    inbox: seq<Reply>,
    handler: Handler,
    parked: seq<nat>,          // next_round_reqs
    finished: multiset<nat>,
    failed: multiset<nat>,
    rounds: seq<nat>,
    sent: nat,
    completed: nat,
    bar: nat,                  // pbar.n
    pool: int)                 // sub-questions left

  function Numbers(n: nat): seq<nat> {
    seq(n, i requires 0 <= i < n => i)
  }

  function Total(c: Config): nat {
    Times(c.clients, c.rounds)
  }

  function MaxLater(c: Config): nat {
    if c.rounds >= 2 then c.rounds - 1 else 1
  }

  function Start(c: Config): State {
    State(Numbers(c.clients), Idle, multiset{}, [], Waiting, [], multiset{}, multiset{},
          seq(c.clients, _ => 0), 0, 0, 0, Times(c.clients, MaxLater(c)))
  }

  // ----- The steps

  datatype Step =
    | Arm                        // the sender sees room under the cap
    | Pop(index: nat)            // and takes a ready request,
    | PopNothing                 // or finds none
    | Launch                     // create_task, then sent_requests += 1
    | Check                      // compare the progress bar with its total
    | Return(client: nat, ok: bool)   // a request comes back and counts on the bar
    | Lose(client: nat)          // a request ends in handle_request's own exception handler
    | Put                        // its reply goes on the response queue
    | Take                       // the handler gets a reply
    | Record                     // and processes it
    | FlushOne                   // one client goes back to the ready queue
    | Empty                      // the handler's wait for a reply runs out: queue.Empty
    | Retry                      // then it reads the bar: not full, wait again;
    | GiveUp                     // full, leave

  ghost predicate Enabled(c: Config, s: State, step: Step) {
    match step
    case Arm => s.sender.Idle? && s.sent - s.completed < c.maxParallel
    case Pop(i) => s.sender.Armed? && i < |s.ready|
    case PopNothing => s.sender.Armed? && s.ready == []
    case Launch => s.sender.Holding?
    case Check => s.sender.Checking?
    case Return(k, _) => s.sender.Idle? && k in s.flying
    case Lose(k) => s.sender.Idle? && k in s.flying
    case Put => s.sender.Delivering?
    case Take => s.handler.Waiting? && s.inbox != []
    case Record => s.handler.Got? && s.handler.reply.client < |s.rounds|
    case FlushOne => s.handler.Flush?
    case Empty => s.handler.Waiting? && s.inbox == []
    case Retry => s.handler.TimedOut? && s.bar != Total(c)
    case GiveUp => s.handler.TimedOut? && s.bar == Total(c)
  }

  function Processed(c: Config, s: State, k: nat): State
    requires k < |s.rounds|
  {
    var round := s.rounds[k] + 1;
    var t := s.(rounds := s.rounds[k := round], completed := s.completed + 1, handler := Waiting);
    if round >= c.rounds then t.(finished := s.finished + multiset{k})
    else
      var t := t.(pool := s.pool - 1);
      if !c.barrier then t.(handler := Flush([k]))
      else if |s.parked| + 1 == c.clients then t.(parked := [], handler := Flush(s.parked + [k]))
      else t.(parked := s.parked + [k])
  }

  /** A progress bar whose total is 0 is false in Python and is not counted on. */
  ghost function Apply(c: Config, s: State, step: Step): State
    requires Enabled(c, s, step)
  {
    match step
    case Arm => s.(sender := Armed)
    case Pop(i) => s.(sender := Holding(s.ready[i]), ready := Without(s.ready, i))
    case PopNothing => s.(sender := Checking)
    case Launch => s.(sender := Checking, flying := s.flying + multiset{s.sender.client}, sent := s.sent + 1)
    case Check => s.(sender := if s.bar == Total(c) then Stopped else Idle)
    case Return(k, ok) => s.(sender := Delivering(Reply(k, ok)), flying := s.flying - multiset{k}, bar := s.bar + One(c.rounds > 0))
    case Lose(k) => s.(flying := s.flying - multiset{k}, failed := s.failed + multiset{k})
    case Put => s.(sender := Idle, inbox := s.inbox + [s.sender.reply])
    case Take => s.(handler := Got(s.inbox[0]), inbox := s.inbox[1..])
    case Record =>
      var r := s.handler.reply;
      if r.ok then Processed(c, s, r.client) else s.(handler := Waiting, failed := s.failed + multiset{r.client})
    case FlushOne =>
      if s.handler.rest == [] then s.(handler := Waiting)
      else s.(ready := s.ready + [s.handler.rest[0]], handler := Flush(s.handler.rest[1..]))
    case Empty => s.(handler := TimedOut)
    case Retry => s.(handler := Waiting)
    case GiveUp => s.(handler := Done)
  }

  /** What the queue does is a step of the sender: an empty queue gives `PopNothing`, any other `Pop` at the
      front or at the drawn place. */
  lemma QueueIsStep(c: Config, s: State, policy: Policy, draw: nat, r: Option<nat>, now: seq<nat>)
    requires s.sender.Armed? && Popped(s.ready, policy, draw, r, now)
    ensures var step := if r.None? then PopNothing else Pop(if policy.Fifo? then 0 else draw);
            && Enabled(c, s, step)
            && Apply(c, s, step) == s.(ready := now, sender := if r.None? then Checking else Holding(r.value))
  {
  }

  ghost predicate IsRun(c: Config, s: State, steps: seq<Step>)
    decreases |steps|
  {
    steps == [] || (Enabled(c, s, steps[0]) && IsRun(c, Apply(c, s, steps[0]), steps[1..]))
  }

  ghost function After(c: Config, s: State, steps: seq<Step>): State
    requires IsRun(c, s, steps)
    decreases |steps|
  {
    if steps == [] then s else After(c, Apply(c, s, steps[0]), steps[1..])
  }

  // ----- Conservation

  function Clients(replies: seq<Reply>): seq<nat> {
    seq(|replies|, i requires 0 <= i < |replies| => replies[i].client)
  }

  function InSender(s: State): seq<nat> {
    match s.sender
    case Holding(k) => [k]
    case Delivering(r) => [r.client]
    case _ => []
  }

  function InHandler(s: State): seq<nat> {
    match s.handler
    case Got(r) => [r.client]
    case Flush(rest) => rest
    case _ => []
  }

  /** How often client `x` occurs among requests not processed in the current round. */
  function ActiveCount(s: State, x: nat): nat {
    Count(s.ready, x) + Count(InSender(s), x) + s.flying[x] + Count(Clients(s.inbox), x) + Count(InHandler(s), x)
  }

  /** How often it occurs anywhere: in play, parked at the barrier, finished or failed. */
  function PlaceCount(s: State, x: nat): nat {
    ActiveCount(s, x) + Count(s.parked, x) + s.finished[x] + s.failed[x]
  }

  /** Each client is in exactly one place, and there once. */
  ghost predicate Conserved(c: Config, s: State) {
    forall x: nat :: PlaceCount(s, x) == if x < c.clients then 1 else 0
  }

  lemma CountWithout(s: seq<nat>, i: nat, x: nat)
    requires i < |s|
    ensures Count(s, x) == Count(Without(s, i), x) + One(s[i] == x)
  {
    assert s == s[..i] + [s[i]] + s[i + 1..];
    CountAppend(s[..i] + [s[i]], s[i + 1..], x);
    CountLast(s[..i], s[i], x);
    CountAppend(s[..i], s[i + 1..], x);
  }

  lemma CountFirst(s: seq<nat>, x: nat)
    requires s != []
    ensures Count(s, x) == One(s[0] == x) + Count(s[1..], x)
  {
    CountWithout(s, 0, x);
    assert Without(s, 0) == s[1..];
  }

  lemma PopKeepsActive(c: Config, s: State, i: nat, x: nat)
    requires Enabled(c, s, Pop(i))
    ensures ActiveCount(Apply(c, s, Pop(i)), x) == ActiveCount(s, x)
  {
    CountWithout(s.ready, i, x);
    CountLast([], s.ready[i], x);
  }

  lemma LaunchKeepsActive(c: Config, s: State, x: nat)
    requires Enabled(c, s, Launch)
    ensures ActiveCount(Apply(c, s, Launch), x) == ActiveCount(s, x)
  {
    CountLast([], s.sender.client, x);
  }

  lemma ReturnKeepsActive(c: Config, s: State, k: nat, ok: bool, x: nat)
    requires Enabled(c, s, Return(k, ok))
    ensures ActiveCount(Apply(c, s, Return(k, ok)), x) == ActiveCount(s, x)
  {
    CountLast([], k, x);
  }

  lemma LoseMoves(c: Config, s: State, k: nat, x: nat)
    requires Enabled(c, s, Lose(k))
    ensures PlaceCount(Apply(c, s, Lose(k)), x) == PlaceCount(s, x)
  {
  }

  lemma PutKeepsActive(c: Config, s: State, x: nat)
    requires Enabled(c, s, Put)
    ensures ActiveCount(Apply(c, s, Put), x) == ActiveCount(s, x)
  {
    var k, t := s.sender.reply.client, Apply(c, s, Put);
    assert Clients(t.inbox) == Clients(s.inbox) + [k];
    CountLast(Clients(s.inbox), k, x);
    assert InSender(s) == [k] && InSender(t) == [] && InHandler(t) == InHandler(s);
  }

  lemma TakeKeepsActive(c: Config, s: State, x: nat)
    requires Enabled(c, s, Take)
    ensures ActiveCount(Apply(c, s, Take), x) == ActiveCount(s, x)
  {
    var k := s.inbox[0].client;
    assert Clients(s.inbox)[1..] == Clients(s.inbox[1..]);
    CountFirst(Clients(s.inbox), x);
    CountLast([], k, x);
  }

  lemma FlushKeepsActive(c: Config, s: State, x: nat)
    requires Enabled(c, s, FlushOne)
    ensures ActiveCount(Apply(c, s, FlushOne), x) == ActiveCount(s, x)
  {
    var rest, t := s.handler.rest, Apply(c, s, FlushOne);
    assert t.flying == s.flying && t.inbox == s.inbox && InSender(t) == InSender(s);
    if rest == [] {
      assert InHandler(t) == [] == InHandler(s) && t.ready == s.ready;
    } else {
      CountFirst(rest, x);
      CountLast(s.ready, rest[0], x);
      assert InHandler(t) == rest[1..] && InHandler(s) == rest;
    }
  }

  /** Steps other than losing a request or processing a reply keep every client in play. */
  lemma StepKeepsActive(c: Config, s: State, step: Step, x: nat)
    requires Enabled(c, s, step) && !step.Record? && !step.Lose?
    ensures ActiveCount(Apply(c, s, step), x) == ActiveCount(s, x)
  {
    match step
    case Pop(i) => PopKeepsActive(c, s, i, x);
    case Launch => LaunchKeepsActive(c, s, x);
    case Return(k, ok) => ReturnKeepsActive(c, s, k, ok, x);
    case Put => PutKeepsActive(c, s, x);
    case Take => TakeKeepsActive(c, s, x);
    case FlushOne => FlushKeepsActive(c, s, x);
    case _ =>
  }

  /** How often a client is with the handler, parked, finished or failed. */
  function TailCount(s: State, x: nat): nat {
    Count(InHandler(s), x) + Count(s.parked, x) + s.finished[x] + s.failed[x]
  }

  /** A client with rounds left goes to the barrier, or (released or without a barrier) back towards the
      ready queue. */
  lemma AgainTail(c: Config, s: State, x: nat)
    requires s.handler.Got? && s.handler.reply.client < |s.rounds| && s.rounds[s.handler.reply.client] + 1 < c.rounds
    ensures TailCount(Processed(c, s, s.handler.reply.client), x) == TailCount(s, x)
  {
    var k := s.handler.reply.client;
    var t := Processed(c, s, k);
    CountLast(s.parked, k, x);
    assert InHandler(s) == [k] && t.finished == s.finished && t.failed == s.failed;
    if !c.barrier {
      assert InHandler(t) == [k] && t.parked == s.parked;
    } else if |s.parked| + 1 == c.clients {
      assert InHandler(t) == s.parked + [k] && t.parked == [];
    } else {
      assert InHandler(t) == [] && t.parked == s.parked + [k];
    }
  }

  /** One without goes to the finish. */
  lemma FinishTail(c: Config, s: State, x: nat)
    requires s.handler.Got? && s.handler.reply.client < |s.rounds| && s.rounds[s.handler.reply.client] + 1 >= c.rounds
    ensures TailCount(Processed(c, s, s.handler.reply.client), x) == TailCount(s, x)
  {
    var k := s.handler.reply.client;
    var t := Processed(c, s, k);
    CountLast([], k, x);
    assert InHandler(s) == [k] && InHandler(t) == [] && t.parked == s.parked;
  }

  /** Processing moves one client out of play: to the barrier, to the finish, to the failures, or back
      towards the ready queue. */
  lemma RecordMoves(c: Config, s: State, x: nat)
    requires Enabled(c, s, Record)
    ensures PlaceCount(Apply(c, s, Record), x) == PlaceCount(s, x)
  {
    var t, k := Apply(c, s, Record), s.handler.reply.client;
    assert t.ready == s.ready && t.sender == s.sender && t.flying == s.flying && t.inbox == s.inbox;
    assert TailCount(t, x) == TailCount(s, x) by {
      if !s.handler.reply.ok {
        CountLast([], k, x);
        assert InHandler(s) == [k] && InHandler(t) == [] && t.parked == s.parked;
      } else if s.rounds[k] + 1 < c.rounds {
        AgainTail(c, s, x);
      } else {
        FinishTail(c, s, x);
      }
    }
  }

  lemma StepConserves(c: Config, s: State, step: Step, x: nat)
    requires Enabled(c, s, step)
    ensures PlaceCount(Apply(c, s, step), x) == PlaceCount(s, x)
  {
    if step.Record? {
      RecordMoves(c, s, x);
    } else if step.Lose? {
      LoseMoves(c, s, step.client, x);
    } else {
      StepKeepsActive(c, s, step, x);
    }
  }

  lemma {:induction false} NumbersOnce(n: nat, x: nat)
    ensures Count(Numbers(n), x) == if x < n then 1 else 0
  {
    if n > 0 {
      NumbersOnce(n - 1, x);
      assert Numbers(n)[..n - 1] == Numbers(n - 1);
    }
  }

  lemma StartConserved(c: Config)
    ensures Conserved(c, Start(c))
  {
    forall x: nat ensures PlaceCount(Start(c), x) == if x < c.clients then 1 else 0 {
      NumbersOnce(c.clients, x);
    }
  }

  /** The sizes of all places add up to the number of clients. */
  lemma SizesAddUp(c: Config, s: State)
    requires Conserved(c, s)
    ensures |s.ready| + |InSender(s)| + |s.flying| + |s.inbox| + |InHandler(s)| + |s.parked| + |s.finished| + |s.failed| == c.clients
  {
    var listed := s.ready + InSender(s) + Clients(s.inbox) + InHandler(s) + s.parked;
    var all := multiset(listed) + s.flying + s.finished + s.failed;
    forall x: nat ensures all[x] == multiset(Numbers(c.clients))[x] {
      ListedCount(s, x);
      CountMember(listed, x);
      NumbersOnce(c.clients, x);
      CountMember(Numbers(c.clients), x);
      assert PlaceCount(s, x) == Count(listed, x) + s.flying[x] + s.finished[x] + s.failed[x];
    }
    assert all == multiset(Numbers(c.clients));
    assert |all| == |listed| + |s.flying| + |s.finished| + |s.failed|;
  }

  lemma ListedCount(s: State, x: nat)
    ensures var listed := s.ready + InSender(s) + Clients(s.inbox) + InHandler(s) + s.parked;
            Count(listed, x) == Count(s.ready, x) + Count(InSender(s), x) + Count(Clients(s.inbox), x)
                              + Count(InHandler(s), x) + Count(s.parked, x)
  {
    CountAppend(s.ready, InSender(s), x);
    CountAppend(s.ready + InSender(s), Clients(s.inbox), x);
    CountAppend(s.ready + InSender(s) + Clients(s.inbox), InHandler(s), x);
    CountAppend(s.ready + InSender(s) + Clients(s.inbox) + InHandler(s), s.parked, x);
  }

  // ----- Counting

  function Sum(s: seq<nat>): nat {
    if s == [] then 0 else Sum(s[..|s| - 1]) + s[|s| - 1]
  }

  lemma {:induction false} SumUpdate(s: seq<nat>, i: nat, v: nat)
    requires i < |s|
    ensures Sum(s[i := v]) + s[i] == Sum(s) + v
  {
    var n := |s| - 1;
    if i == n {
      assert s[i := v][..n] == s[..n];
    } else {
      SumUpdate(s[..n], i, v);
      assert s[i := v][..n] == s[..n][i := v];
    }
  }

  lemma {:induction false} SumBound(s: seq<nat>, v: nat)
    requires forall i :: 0 <= i < |s| ==> s[i] <= v
    ensures Sum(s) <= Times(|s|, v)
    ensures (forall i :: 0 <= i < |s| ==> s[i] == v) ==> Sum(s) == Times(|s|, v)
  {
    if s != [] {
      SumBound(s[..|s| - 1], v);
    }
  }

  /** Follow-up questions a client has drawn after `r` processed replies. */
  function Drawn(c: Config, r: nat): nat {
    if r < c.rounds then r else if c.rounds == 0 then 0 else c.rounds - 1
  }

  function DrawnAll(c: Config, rounds: seq<nat>): seq<nat> {
    seq(|rounds|, i requires 0 <= i < |rounds| => Drawn(c, rounds[i]))
  }

  /** Requests sent and not yet processed successfully, failures included. */
  ghost predicate Counted(c: Config, s: State) {
    && |s.rounds| == c.clients
    && s.sent == s.completed + |s.flying| + One(s.sender.Delivering?) + |s.inbox| + One(s.handler.Got?) + |s.failed|
    && s.completed == Sum(s.rounds)
    && s.pool + Sum(DrawnAll(c, s.rounds)) == Times(c.clients, MaxLater(c))
  }

  ghost predicate Capped(c: Config, s: State) {
    && s.sent - s.completed <= (if c.maxParallel > 0 then c.maxParallel else 0)
    && (s.sender.Armed? || s.sender.Holding? ==> s.sent - s.completed < c.maxParallel)
  }

  ghost predicate Inv(c: Config, s: State) {
    Conserved(c, s) && Counted(c, s) && Capped(c, s)
  }

  lemma {:induction false} SumZero(n: nat)
    ensures Sum(seq(n, _ => 0)) == 0
  {
    if n > 0 {
      SumZero(n - 1);
      assert seq(n, _ => 0)[..n - 1] == seq(n - 1, _ => 0);
    }
  }

  lemma StartInv(c: Config)
    ensures Inv(c, Start(c))
  {
    SumZero(c.clients);
    StartConserved(c);
    assert DrawnAll(c, Start(c).rounds) == seq(c.clients, _ => 0);
  }

  lemma ProcessedCounts(c: Config, s: State, k: nat)
    requires Counted(c, s) && k < |s.rounds| && s.handler.Got?
    ensures Counted(c, Processed(c, s, k))
  {
    var t := Processed(c, s, k);
    SumUpdate(s.rounds, k, s.rounds[k] + 1);
    DrawnUpdate(c, s.rounds, k);
  }

  /** One more processed reply draws a question exactly if the client has a round left. */
  lemma DrawnUpdate(c: Config, rounds: seq<nat>, k: nat)
    requires k < |rounds|
    ensures var more := if rounds[k] + 1 < c.rounds then 1 else 0;
            Sum(DrawnAll(c, rounds[k := rounds[k] + 1])) == Sum(DrawnAll(c, rounds)) + more
  {
    var d := DrawnAll(c, rounds);
    SumUpdate(d, k, Drawn(c, rounds[k] + 1));
    assert DrawnAll(c, rounds[k := rounds[k] + 1]) == d[k := Drawn(c, rounds[k] + 1)];
  }

  lemma StepCounts(c: Config, s: State, step: Step)
    requires Counted(c, s) && Enabled(c, s, step)
    ensures Counted(c, Apply(c, s, step))
  {
    if step.Record? && s.handler.reply.ok {
      ProcessedCounts(c, s, s.handler.reply.client);
    }
  }

  lemma StepCaps(c: Config, s: State, step: Step)
    requires Capped(c, s) && Enabled(c, s, step)
    ensures Capped(c, Apply(c, s, step))
  {
  }

  lemma StepInv(c: Config, s: State, step: Step)
    requires Inv(c, s) && Enabled(c, s, step)
    ensures Inv(c, Apply(c, s, step))
  {
    var t := Apply(c, s, step);
    forall x: nat ensures PlaceCount(t, x) == if x < c.clients then 1 else 0 {
      StepConserves(c, s, step, x);
    }
    StepCounts(c, s, step);
    StepCaps(c, s, step);
  }

  lemma {:induction false} RunsKeepInv(c: Config, s: State, steps: seq<Step>)
    requires Inv(c, s) && IsRun(c, s, steps)
    ensures Inv(c, After(c, s, steps))
    decreases |steps|
  {
    if steps != [] {
      StepInv(c, s, steps[0]);
      RunsKeepInv(c, Apply(c, s, steps[0]), steps[1..]);
    }
  }

  /** Under every interleaving and with any failures: each client is in exactly one place, at most
      `max_parallel` requests are unprocessed, and the pool of follow-up questions never runs out. */
  lemma ConservationTheorem(c: Config, steps: seq<Step>)
    requires IsRun(c, Start(c), steps)
    ensures var s := After(c, Start(c), steps);
            && Conserved(c, s)
            && s.sent - s.completed <= (if c.maxParallel > 0 then c.maxParallel else 0)
            && |s.flying| + |s.failed| <= s.sent - s.completed
            && s.pool >= 0
  {
    StartInv(c);
    RunsKeepInv(c, Start(c), steps);
    PoolLasts(c, After(c, Start(c), steps));
  }

  lemma PoolLasts(c: Config, s: State)
    requires Counted(c, s)
    ensures s.pool >= 0
  {
    SumBound(DrawnAll(c, s.rounds), MaxLater(c));
  }

  /** Once every client has been through all rounds, the pool is used up, but for the one spare question per
      client that a single round leaves. */
  lemma PoolAtEnd(c: Config, s: State)
    requires Counted(c, s) && c.rounds >= 1 && forall i :: 0 <= i < |s.rounds| ==> s.rounds[i] == c.rounds
    ensures s.pool == if c.rounds >= 2 then 0 else c.clients
  {
    SumBound(DrawnAll(c, s.rounds), c.rounds - 1);
    TimesIs(c.clients, c.rounds - 1);
    TimesIs(c.clients, 1);
  }

  /** A failure is never taken off the count: each one lowers the cap for the rest of the run. */
  lemma FailuresEatTheCap(c: Config, s: State)
    requires Inv(c, s)
    ensures |s.flying| + |s.inbox| + |s.failed| <= (if c.maxParallel > 0 then c.maxParallel else 0)
    ensures |s.failed| >= c.maxParallel ==> !s.sender.Armed? && !s.sender.Holding? && !Enabled(c, s, Arm)
  {
  }

  /** With as many failures as the cap, nothing is ever sent again, in any continuation of the run. */
  lemma {:induction false} SendingStops(c: Config, s: State, steps: seq<Step>)
    requires Inv(c, s) && IsRun(c, s, steps) && |s.failed| >= c.maxParallel
    ensures After(c, s, steps).sent == s.sent && |After(c, s, steps).failed| >= c.maxParallel
    decreases |steps|
  {
    if steps != [] {
      FailuresEatTheCap(c, s);
      StepInv(c, s, steps[0]);
      SendingStops(c, Apply(c, s, steps[0]), steps[1..]);
    }
  }
}
