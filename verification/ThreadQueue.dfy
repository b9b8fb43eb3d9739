/**
 * The run queue is fair and conserves threads.
 */
module ThreadQueue {
  import opened Sequences
  import opened Threads
  import opened ThreadRuns
  import opened ThreadTheorems

  function Ids(queue: seq<Thread>): seq<nat> {
    if queue == [] then [] else Ids(queue[..|queue| - 1]) + [queue[|queue| - 1].id]
  }

  /** The ids that one event takes off the queue, puts on it, brings into being and ends. */
  function TakenBy(s: State, e: Event): seq<nat> {
    if e.Dispatch? && s.queue != [] then [s.queue[0].id] else []
  }

  function PushedBy(s: State, e: Event): seq<nat> {
    if e.Fork? then [s.counter] else if e.Yield? && s.current.Some? then [s.current.value.id] else []
  }

  function BornBy(s: State, e: Event): seq<nat> {
    if e.Fork? then [s.counter] else []
  }

  function EndedBy(s: State, e: Event): seq<nat> {
    if e.Exit? && s.current.Some? then [s.current.value.id] else []
  }

  /** The ids that the events from `i` to `j` give rise to, in order. */
  function Log(count: (State, Event) -> seq<nat>, states: seq<State>, events: seq<Event>, i: nat, j: nat): seq<nat>
    requires i <= j <= |events| < |states|
    decreases j
  {
    if i == j then [] else Log(count, states, events, i, j - 1) + count(states[j - 1], events[j - 1])
  }

  lemma {:induction false} IdsOfAll(queue: seq<Thread>)
    ensures |Ids(queue)| == |queue|
    ensures forall i :: 0 <= i < |queue| ==> Ids(queue)[i] == queue[i].id
    decreases |queue|
  {
    if queue != [] {
      IdsOfAll(queue[..|queue| - 1]);
    }
  }

  lemma IdsPush(queue: seq<Thread>, t: Thread)
    ensures Ids(queue + [t]) == Ids(queue) + [t.id]
  {
    assert (queue + [t])[..|queue|] == queue;
  }

  lemma IdsPop(queue: seq<Thread>)
    requires queue != []
    ensures Ids(queue) == [queue[0].id] + Ids(queue[1..])
  {
    IdsOfAll(queue);
    IdsOfAll(queue[1..]);
  }

  /** One event takes from the front of the queue and pushes on the back. */
  ghost predicate Conserves(s: State, e: Event, s': State) {
    Ids(s.queue) + PushedBy(s, e) == TakenBy(s, e) + Ids(s'.queue)
  }

  lemma StepConserves(l: Layout, s: State, e: Event, s': State)
    requires Next(l, s, e, s')
    ensures Conserves(s, e, s')
  {
    match e
    case MainCompute =>
    case Compute =>
    case Dispatch(back) => IdsPop(s.queue);
    case Fork(code, arg, stack, low) => IdsPush(s.queue, Thread(s.counter, stack, stack + STACK - 2, l.trampoline));
    case Yield => IdsPush(s.queue, s.current.value.(sp := s.cpu.sp - 9, pc := l.YieldReentry()));
    case Exit =>
  }

  lemma Slide(start: seq<nat>, pushed: seq<nat>, push: seq<nat>, taken: seq<nat>, take: seq<nat>,
        mid: seq<nat>, end: seq<nat>)
    requires start + pushed == taken + mid && mid + push == take + end
    ensures start + (pushed + push) == (taken + take) + end
  {
    assert start + (pushed + push) == (start + pushed) + push == taken + (mid + push);
    assert (taken + take) + end == taken + (take + end);
  }

  lemma {:induction false} LogsConserve(states: seq<State>, events: seq<Event>, i: nat, j: nat)
    requires i <= j <= |events| < |states|
    requires forall k {:trigger events[k]} :: i <= k < j ==> Conserves(states[k], events[k], states[k + 1])
    ensures Ids(states[i].queue) + Log(PushedBy, states, events, i, j)
            == Log(TakenBy, states, events, i, j) + Ids(states[j].queue)
    decreases j - i
  {
    if i < j {
      LogsConserve(states, events, i, j - 1);
      assert Conserves(states[j - 1], events[j - 1], states[j - 1 + 1]);
      Slide(Ids(states[i].queue),
            Log(PushedBy, states, events, i, j - 1), PushedBy(states[j - 1], events[j - 1]),
            Log(TakenBy, states, events, i, j - 1), TakenBy(states[j - 1], events[j - 1]),
            Ids(states[j - 1].queue), Ids(states[j].queue));
    }
  }

  /** First in, first out: what is pushed comes out again in the same order. */
  lemma FirstInFirstOut(l: Layout, states: seq<State>, events: seq<Event>, i: nat, j: nat)
    requires Run(l, states, events) && i <= j <= |events|
    ensures Ids(states[i].queue) + Log(PushedBy, states, events, i, j)
            == Log(TakenBy, states, events, i, j) + Ids(states[j].queue)
  {
    forall k | i <= k < j
      ensures Conserves(states[k], events[k], states[k + 1])
    {
      StepConserves(l, states[k], events[k], states[k + 1]);
    }
    LogsConserve(states, events, i, j);
  }

  lemma QueueMovesUp(start: seq<nat>, pushed: seq<nat>, taken: seq<nat>, end: seq<nat>, p: nat)
    requires start + pushed == taken + end && p < |start|
    requires forall i, j :: 0 <= i < j < |start| ==> start[i] != start[j]
    ensures forall k :: 0 <= k < p && k < |taken| ==> taken[k] != start[p]
    ensures if |taken| > p then taken[p] == start[p] else p - |taken| < |end| && end[p - |taken|] == start[p]
  {
    var all := start + pushed;
    assert all[p] == start[p];
    forall k | 0 <= k < p && k < |taken|
      ensures taken[k] != start[p]
    {
      assert taken[k] == all[k] == start[k];
    }
  }

  lemma IdsDistinct(l: Layout, s: State)
    requires Inv(l, s)
    ensures forall i, j :: 0 <= i < j < |Ids(s.queue)| ==> Ids(s.queue)[i] != Ids(s.queue)[j]
  {
    IdsOfAll(s.queue);
  }

  /** What became of the thread at position `p` of a queue once these were taken off it. */
  ghost predicate MovedUp(queue: seq<Thread>, taken: seq<nat>, queue': seq<Thread>, p: nat)
    requires p < |queue|
  {
    var id := queue[p].id;
    (forall k :: 0 <= k < p && k < |taken| ==> taken[k] != id)
    && if |taken| > p then taken[p] == id
       else p - |taken| < |queue'| && queue'[p - |taken|].id == id
  }

  lemma LogsMoveUp(l: Layout, s: State, s': State, pushed: seq<nat>, taken: seq<nat>, p: nat)
    requires Inv(l, s) && p < |s.queue| && Ids(s.queue) + pushed == taken + Ids(s'.queue)
    ensures MovedUp(s.queue, taken, s'.queue, p)
  {
    IdsDistinct(l, s);
    IdsOfAll(s.queue);
    IdsOfAll(s'.queue);
    QueueMovesUp(Ids(s.queue), pushed, taken, Ids(s'.queue), p);
  }

  /**
   * A thread at position `p` is the one dispatched after exactly `p` other dispatches,
   * whatever those threads fork or yield; until then it has moved up by one for each.
   */
  lemma Fairness(l: Layout, states: seq<State>, events: seq<Event>, i: nat, j: nat, p: nat)
    requires Run(l, states, events) && i <= j <= |events| && p < |states[i].queue|
    ensures MovedUp(states[i].queue, Log(TakenBy, states, events, i, j), states[j].queue, p)
  {
    FirstInFirstOut(l, states, events, i, j);
    RunKeeps(l, states, events, i);
    LogsMoveUp(l, states[i], states[j], Log(PushedBy, states, events, i, j), Log(TakenBy, states, events, i, j), p);
  }

  // -------------------------------------------------------- conservation

  function Running(s: State): seq<nat> {
    if s.running && s.current.Some? then [s.current.value.id] else []
  }

  /** The threads that exist: those in the queue and the one that is running. */
  function Live(s: State): seq<nat> {
    Ids(s.queue) + Running(s)
  }

  /** Who gets the CPU, and where it goes from there. */
  ghost predicate HandsOver(s: State, e: Event, s': State) {
    match e
    case MainCompute => Running(s') == Running(s)
    case Compute => Running(s') == Running(s)
    case Dispatch(_) => Running(s) == [] && Running(s') == TakenBy(s, e)
    case Fork(_, _, _, _) => Running(s') == Running(s) && PushedBy(s, e) == BornBy(s, e)
    case Yield => Running(s') == [] && Running(s) == PushedBy(s, e)
    case Exit => Running(s') == [] && Running(s) == EndedBy(s, e)
  }

  lemma StepHandsOver(l: Layout, s: State, e: Event, s': State)
    requires Next(l, s, e, s')
    ensures HandsOver(s, e, s')
  {
  }

  /** One event ends and brings into being what it says. */
  ghost predicate Balances(s: State, e: Event, s': State, id: nat) {
    Count(Live(s'), id) + Count(EndedBy(s, e), id) == Count(Live(s), id) + Count(BornBy(s, e), id)
  }

  lemma StepBalances(s: State, e: Event, s': State, id: nat)
    requires Conserves(s, e, s') && HandsOver(s, e, s')
    ensures Balances(s, e, s', id)
  {
    CountConcat(Ids(s.queue), PushedBy(s, e), id);
    CountConcat(TakenBy(s, e), Ids(s'.queue), id);
    CountConcat(Ids(s.queue), Running(s), id);
    CountConcat(Ids(s'.queue), Running(s'), id);
  }

  /** The balance of `id` over a stretch of the run. */
  ghost predicate Balanced(states: seq<State>, events: seq<Event>, i: nat, j: nat, id: nat)
    requires i <= j <= |events| < |states|
  {
    Count(Live(states[j]), id) + Count(Log(EndedBy, states, events, i, j), id)
    == Count(Live(states[i]), id) + Count(Log(BornBy, states, events, i, j), id)
  }

  lemma CountLog(count: (State, Event) -> seq<nat>, states: seq<State>, events: seq<Event>, i: nat, j: nat, id: nat)
    requires i < j <= |events| < |states|
    ensures Count(Log(count, states, events, i, j), id)
            == Count(Log(count, states, events, i, j - 1), id) + Count(count(states[j - 1], events[j - 1]), id)
  {
    CountConcat(Log(count, states, events, i, j - 1), count(states[j - 1], events[j - 1]), id);
  }

  lemma BalancedMore(states: seq<State>, events: seq<Event>, i: nat, j: nat, id: nat)
    requires i < j <= |events| < |states|
    requires Balanced(states, events, i, j - 1, id) && Balances(states[j - 1], events[j - 1], states[j], id)
    ensures Balanced(states, events, i, j, id)
  {
    CountLog(EndedBy, states, events, i, j, id);
    CountLog(BornBy, states, events, i, j, id);
  }

  lemma {:induction false} LogsBalance(states: seq<State>, events: seq<Event>, i: nat, j: nat, id: nat)
    requires i <= j <= |events| < |states|
    requires forall k {:trigger events[k]} :: i <= k < j ==> Balances(states[k], events[k], states[k + 1], id)
    ensures Balanced(states, events, i, j, id)
    decreases j - i
  {
    if i < j {
      LogsBalance(states, events, i, j - 1, id);
      assert Balances(states[j - 1], events[j - 1], states[j - 1 + 1], id);
      BalancedMore(states, events, i, j, id);
    }
  }

  /** What is live is what was, and what was forked, and not what has exited. */
  lemma Accounts(l: Layout, states: seq<State>, events: seq<Event>, i: nat, j: nat, id: nat)
    requires Run(l, states, events) && i <= j <= |events|
    ensures Balanced(states, events, i, j, id)
  {
    forall k | i <= k < j
      ensures Balances(states[k], events[k], states[k + 1], id)
    {
      StepConserves(l, states[k], events[k], states[k + 1]);
      StepHandsOver(l, states[k], events[k], states[k + 1]);
      StepBalances(states[k], events[k], states[k + 1], id);
    }
    LogsBalance(states, events, i, j, id);
  }

  ghost predicate Numbers(s: State, e: Event, s': State) {
    s'.counter == s.counter + if e.Fork? then 1 else 0
  }

  lemma {:induction false} LogsNumber(states: seq<State>, events: seq<Event>, i: nat, j: nat)
    requires i <= j <= |events| < |states|
    requires forall k {:trigger events[k]} :: i <= k < j ==> Numbers(states[k], events[k], states[k + 1])
    ensures var born := Log(BornBy, states, events, i, j);
            states[j].counter == states[i].counter + |born|
            && forall k :: 0 <= k < |born| ==> born[k] == states[i].counter + k
    decreases j - i
  {
    if i < j {
      LogsNumber(states, events, i, j - 1);
      assert Numbers(states[j - 1], events[j - 1], states[j - 1 + 1]);
    }
  }

  /** Ids are given out in order, and never twice. */
  lemma {:induction false} BornInOrder(l: Layout, states: seq<State>, events: seq<Event>, i: nat, j: nat)
    requires Run(l, states, events) && i <= j <= |events|
    ensures var born := Log(BornBy, states, events, i, j);
            states[j].counter == states[i].counter + |born|
            && forall k :: 0 <= k < |born| ==> born[k] == states[i].counter + k
  {
    forall k | i <= k < j
      ensures Numbers(states[k], events[k], states[k + 1])
    {
      assert Next(l, states[k], events[k], states[k + 1]);
    }
    LogsNumber(states, events, i, j);
  }

  /** No thread is live twice. */
  lemma LiveOnce(l: Layout, s: State)
    requires Inv(l, s)
    ensures forall i, j :: 0 <= i < j < |Live(s)| ==> Live(s)[i] != Live(s)[j]
    ensures forall id :: id in Live(s) ==> id < s.counter
  {
    IdsOfAll(s.queue);
  }

  /** A system that has run dry has ended each thread that was ever forked, once. */
  lemma EachExitsOnce(l: Layout, states: seq<State>, events: seq<Event>, id: nat)
    requires Run(l, states, events) && states[0].counter == 0
    requires Live(states[0]) == [] && Live(states[|events|]) == []
    ensures Count(Log(EndedBy, states, events, 0, |events|), id) == if id < states[|events|].counter then 1 else 0
  {
    Accounts(l, states, events, 0, |events|, id);
    BornInOrder(l, states, events, 0, |events|);
    CountUp(Log(BornBy, states, events, 0, |events|), id);
  }

  // --------------------------------------------------------------- panics

  /**
   * The two pushes fail in no other case than these: a fork by the main thread exactly
   * with ten threads live, and a fork or a yield by a thread exactly with eleven.  So
   * neither fails while at most ten threads are live, counting the one that a fork adds.
   */
  lemma PushFails(l: Layout, s: State)
    requires Inv(l, s)
    ensures |s.queue| >= THREAD_COUNT <==> |Live(s)| == if s.running then 11 else 10
    ensures |Live(s)| < 10 || (s.running && |Live(s)| <= 10) ==> |s.queue| < THREAD_COUNT
  {
    IdsOfAll(s.queue);
  }
}
