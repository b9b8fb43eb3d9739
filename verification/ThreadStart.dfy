/**
 * `start`, with threads that compute, fork, yield and exit as they please: it returns when
 * no thread is left, provided that the threads fork and yield only so many times in all.
 */
module ThreadStart {
  import opened Sequences
  import opened Threads
  import opened ThreadRuns
  import opened ThreadTheorems
  import opened ThreadQueue

  lemma RunGrows(l: Layout, states: seq<State>, events: seq<Event>, e: Event, s: State)
    requires Run(l, states, events) && Next(l, states[|events|], e, s)
    ensures Run(l, states + [s], events + [e])
  {
    var states', events' := states + [s], events + [e];
    forall i | 0 <= i < |events'|
      ensures Next(l, states'[i], events'[i], states'[i + 1])
    {
      if i < |events| {
        assert Next(l, states[i], events[i], states[i + 1]);
      }
    }
  }

  /** An address past every stack in the queue. */
  function Past(queue: seq<Thread>, from: int): (top: int)
    ensures from <= top
    ensures forall t :: t in queue ==> t.stack + STACK <= top
  {
    if queue == [] then from
    else
      var t := queue[|queue| - 1];
      assert queue == queue[..|queue| - 1] + [t];
      Past(queue[..|queue| - 1], if from < t.stack + STACK then t.stack + STACK else from)
  }

  function Max(a: int, b: int): int {
    if a < b then b else a
  }

  /** Memory with whatever was written to it, but for the stacks in the queue. */
  function Scribbled(mem: Memory, noise: Memory, queue: seq<Thread>): (mem': Memory)
    ensures forall a :: Queued(queue, a) ==> At(mem', a) == At(mem, a)
  {
    map a | a in mem.Keys + noise.Keys :: if Queued(queue, a) then At(mem, a) else At(noise, a)
  }

  /** Likewise, and but for the dump and the stack of the main thread. */
  function ThreadScribbled(mem: Memory, noise: Memory, queue: seq<Thread>, l: Layout): (mem': Memory)
    ensures forall a :: Queued(queue, a) || Within(a, l.dump, 11) || l.mainLow <= a < l.mainHigh ==>
              At(mem', a) == At(mem, a)
  {
    map a | a in mem.Keys + noise.Keys ::
      if Queued(queue, a) || Within(a, l.dump, 11) || l.mainLow <= a < l.mainHigh then At(mem, a) else At(noise, a)
  }

  class Kernel {
    const p: Processor
    /** How many more times threads fork or yield. */
    var budget: nat
    ghost const first: State
    ghost var states: seq<State>
    ghost var events: seq<Event>

    /** What has happened so far is a run, and the processor is where it has led. */
    ghost predicate Valid()
      reads this, p
    {
      Run(p.l, states, events) && states[0] == first && states[|events|] == p.Snapshot()
    }

    constructor (p: Processor, budget: nat)
      requires Inv(p.l, p.Snapshot())
      ensures Valid() && this.p == p && this.budget == budget && first == p.Snapshot()
    {
      this.p, this.budget := p, budget;
      first, states, events := p.Snapshot(), [p.Snapshot()], [];
    }

    ghost method Happened(e: Event)
      requires Run(p.l, states, events) && states[0] == first && Next(p.l, states[|events|], e, p.Snapshot())
      modifies this`states, this`events
      ensures Valid() && Inv(p.l, p.Snapshot())
    {
      RunGrows(p.l, states, events, e, p.Snapshot());
      states, events := states + [p.Snapshot()], events + [e];
      RunKeeps(p.l, states, events, |events|);
    }

    /** Code of the main thread: it may do anything but write a live thread's stack. */
    method MainCode()
      requires Valid() && !p.running
      modifies this`states, this`events, p
      ensures Valid() && !p.running && p.queue == old(p.queue) && p.counter == old(p.counter)
      ensures p.l.mainLow + 2 <= p.sp <= p.l.mainHigh
    {
      RunKeeps(p.l, states, events, |events|);
      var noise: Memory := *;
      p.AnyCode(p.l.mainLow + 2, p.l.mainHigh);
      p.mem := Scribbled(p.mem, noise, p.queue);
      Happened(MainCompute);
    }

    /** Code of the running thread: it may write its own stack and what is shared. */
    method ThreadCode()
      requires Valid() && p.running
      modifies this`states, this`events, p
      ensures Valid() && p.running && p.queue == old(p.queue) && p.counter == old(p.counter)
      ensures Room(p.l, p.Snapshot(), 9)
    {
      RunKeeps(p.l, states, events, |events|);
      var noise: Memory := *;
      p.AnyCode(p.current.value.stack + 9, p.current.value.stack + STACK);
      p.mem := ThreadScribbled(p.mem, noise, p.queue, p.l);
      Happened(Compute);
    }

    /** A fork by whoever has the CPU, onto any stack that is free. */
    method Fork(code: int, arg: int) returns (ok: bool)
      requires Valid() && Room(p.l, p.Snapshot(), 0)
      modifies this`states, this`events, p
      ensures ok <==> |old(p.queue)| < THREAD_COUNT
      ensures ok ==> Valid() && p.running == old(p.running) && p.counter == old(p.counter) + 1
      ensures ok ==> |p.queue| == |old(p.queue)| + 1
      ensures !ok ==> p.queue == old(p.queue)
    {
      RunKeeps(p.l, states, events, |events|);
      ghost var s := p.Snapshot();
      var low := if p.running && p.current.Some? then p.current.value.stack else p.l.mainLow;
      var stack: int := *;
      if !FreshStack(p.l, p.Snapshot(), stack) {
        stack := Past(p.queue, Max(Max(p.l.mainHigh, p.l.dump + 11), low + STACK));
      }
      ok := p.Fork(code, arg, stack, low);
      if ok {
        Happened(Event.Fork(code, arg, stack, low));
      }
    }

    /** A thread has the CPU until it yields or exits. */
    method RunThread() returns (ok: bool)
      requires Valid() && p.running
      modifies this, p
      ensures budget <= old(budget)
      ensures ok ==> Valid() && !p.running && 2 * budget + |p.queue| <= 2 * old(budget) + |old(p.queue)|
      ensures !ok ==> |p.queue| == THREAD_COUNT
    {
      ok := true;
      while ok && p.running
        invariant budget <= old(budget)
        invariant ok ==> Valid() && 2 * budget + |p.queue| <= 2 * old(budget) + |old(p.queue)|
        invariant !ok ==> |p.queue| == THREAD_COUNT
        decreases budget, ok && p.running
      {
        ThreadCode();
        RunKeeps(p.l, states, events, |events|);
        var choice: int := *;
        if choice == 0 && budget > 0 {
          budget := budget - 1;
          var code, arg := *, *;
          ok := Fork(code, arg);
        } else if choice == 1 && budget > 0 {
          budget := budget - 1;
          ok := p.ThreadYield();
          if ok {
            Happened(Yield);
          }
        } else {
          if p.pc == p.l.Landing() {
            p.ReturnFromFunction();
          } else {
            p.Exit();
          }
          Happened(Event.Exit);
        }
      }
    }

    /** The loop of `start`. */
    method Start(back: int) returns (ok: bool)
      requires Valid() && !p.running
      modifies this, p
      ensures ok ==> Valid() && !p.running && p.queue == []
      ensures ok && Live(first) == [] && first.counter == 0 ==>
                forall id: nat :: Count(Log(EndedBy, states, events, 0, |events|),
                  id) == if id < p.counter then 1 else 0
      ensures !ok ==> |p.queue| == THREAD_COUNT
    {
      ok := true;
      MainCode();
      while p.queue != []
        invariant Valid() && !p.running && p.l.mainLow + 2 <= p.sp <= p.l.mainHigh
        decreases 2 * budget + |p.queue|
      {
        RunKeeps(p.l, states, events, |events|);
        p.RunFirst(back);
        Happened(Dispatch(back));
        ok := RunThread();
        if !ok {
          return;
        }
        MainCode();
      }
      if Live(first) == [] && first.counter == 0 {
        forall id: nat
          ensures Count(Log(EndedBy, states, events, 0, |events|), id) == if id < p.counter then 1 else 0
        {
          EachExitsOnce(p.l, states, events, id);
        }
      }
    }
  }
}
