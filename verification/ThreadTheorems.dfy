/**
 * What holds over every run of the thread system: a yield is an ordinary call to the
 * thread that makes it, a dispatch is one to `start`, and the queue is fair and loses no
 * thread.
 */
module ThreadTheorems {
  import opened Threads
  import opened ThreadRuns

  ghost predicate Run(l: Layout, states: seq<State>, events: seq<Event>) {
    |states| == |events| + 1 && Inv(l, states[0])
    && forall i {:trigger events[i]} :: 0 <= i < |events| ==> Next(l, states[i], events[i], states[i + 1])
  }

  lemma {:induction false} RunKeeps(l: Layout, states: seq<State>, events: seq<Event>, n: nat)
    requires Run(l, states, events) && n < |states|
    ensures Inv(l, states[n])
    decreases n
  {
    if n > 0 {
      RunKeeps(l, states, events, n - 1);
      NextKeeps(l, states[n - 1], events[n - 1], states[n]);
    }
  }

  ghost predicate Dispatches(s: State, e: Event, id: nat) {
    e.Dispatch? && s.queue != [] && s.queue[0].id == id
  }

  // --------------------------------------------- a yield is a procedure call

  ghost predicate SameStack(t: Thread, s: State, s': State) {
    forall a :: t.stack <= a < t.stack + STACK ==> At(s'.mem, a) == At(s.mem, a)
  }

  lemma QueuedElsewhere(l: Layout, s: State, t: Thread)
    requires Inv(l, s) && t in s.queue
    ensures Parked(l, t) && t.stack <= t.sp
    ensures s.running ==> t.id != s.current.value.id && Apart(t.stack, STACK, s.current.value.stack, STACK)
    ensures forall a :: t.stack <= a < t.stack + STACK ==>
              Queued(s.queue, a) && !(l.mainLow <= a < l.mainHigh) && !(l.dump <= a < l.dump + 11)
  {
    forall a | t.stack <= a < t.stack + STACK
      ensures Queued(s.queue, a)
    {
      assert Within(a, t.stack, STACK);
    }
  }

  /** Whatever happens, a queued thread keeps its place and its stack until it is dispatched. */
  lemma QueuedKept(l: Layout, s: State, e: Event, s': State, t: Thread)
    requires Inv(l, s) && Next(l, s, e, s') && t in s.queue && !Dispatches(s, e, t.id)
    ensures t in s'.queue && SameStack(t, s, s')
  {
    QueuedElsewhere(l, s, t);
    match e
    case MainCompute =>
    case Compute =>
    case Dispatch(back) =>
      var i :| 0 <= i < |s.queue| && s.queue[i] == t;
      assert s'.queue[i - 1] == t;
    case Fork(code, arg, stack, low) =>
      assert Apart(stack, STACK, t.stack, STACK);
    case Yield =>
    case Exit =>
  }

  ghost predicate StaysQueued(t: Thread, s: State, s': State) {
    t in s.queue ==> t in s'.queue && SameStack(t, s, s')
  }

  lemma {:induction false} StaysQueuedAlong(states: seq<State>, i: nat, j: nat, t: Thread)
    requires i <= j < |states| && t in states[i].queue
    requires forall k :: i <= k < j ==> StaysQueued(t, states[k], states[k + 1])
    ensures t in states[j].queue && SameStack(t, states[i], states[j])
    decreases j - i
  {
    if i < j {
      StaysQueuedAlong(states, i, j - 1, t);
      assert StaysQueued(t, states[j - 1], states[j - 1 + 1]);
    }
  }

  lemma AsleepKept(l: Layout, states: seq<State>, events: seq<Event>, i: nat, j: nat, t: Thread)
    requires Run(l, states, events) && i <= j < |states| && t in states[i].queue
    requires forall k :: i <= k < j ==> !Dispatches(states[k], events[k], t.id)
    ensures t in states[j].queue && SameStack(t, states[i], states[j])
  {
    forall k | i <= k < j
      ensures StaysQueued(t, states[k], states[k + 1])
    {
      RunKeeps(l, states, events, k);
      if t in states[k].queue {
        QueuedKept(l, states[k], events[k], states[k + 1], t);
      }
    }
    StaysQueuedAlong(states, i, j, t);
  }

  /** Where a yield leaves the thread that makes it. */
  lemma YieldParks(l: Layout, s: State, s': State, t: Thread)
    requires Inv(l, s) && Next(l, s, Yield, s')
    requires s.current.Some? && t == s.current.value.(sp := s.cpu.sp - 9, pc := l.YieldReentry())
    ensures t in s'.queue && Holds(s'.mem, t.sp, s.cpu.saved) && At(s'.mem, t.sp + 8) == s.cpu.lr
    ensures forall a :: s.cpu.sp <= a < t.stack + STACK ==> At(s'.mem, a) == At(s.mem, a)
  {
  }

  /** Where the next dispatch of a parked thread leaves it. */
  lemma DispatchWakes(l: Layout, s: State, e: Event, s': State, t: Thread, cpu: Cpu)
    requires Inv(l, s) && Next(l, s, e, s') && e.Dispatch? && t in s.queue && s.queue[0] == t
    requires t.pc == l.YieldReentry() && t.sp == cpu.sp - 9
    requires Holds(s.mem, t.sp, cpu.saved) && At(s.mem, t.sp + 8) == cpu.lr
    ensures Returned(s'.cpu, ContextOf(cpu))
    ensures forall a :: t.stack <= a < t.stack + STACK ==> At(s'.mem, a) == At(s.mem, a)
  {
    QueuedElsewhere(l, s, t);
  }

  /**
   * A yield is an ordinary procedure call.  However many other threads run, fork, yield or
   * exit before the thread's next dispatch, that dispatch returns from the call with the
   * registers that a procedure preserves, sp and the stack as they were.
   */
  lemma YieldIsACall(l: Layout, states: seq<State>, events: seq<Event>, i: nat, j: nat)
    requires Run(l, states, events) && i < j < |events| && events[i] == Yield
    requires states[i].current.Some?
    requires var id := states[i].current.value.id;
             Dispatches(states[j], events[j], id) && forall k :: i < k < j ==> !Dispatches(states[k], events[k], id)
    ensures Returned(states[j + 1].cpu, ContextOf(states[i].cpu))
    ensures forall a :: states[i].cpu.sp <= a < states[i].current.value.stack + STACK ==>
              At(states[j + 1].mem, a) == At(states[i].mem, a)
  {
    var was := states[i];
    var t := was.current.value.(sp := was.cpu.sp - 9, pc := l.YieldReentry());
    RunKeeps(l, states, events, i);
    RunKeeps(l, states, events, i + 1);
    YieldParks(l, was, states[i + 1], t);
    AsleepKept(l, states, events, i + 1, j, t);
    RunKeeps(l, states, events, j);
    FirstIs(l, states[j], t);
    QueuedElsewhere(l, states[j], t);
    DispatchWakes(l, states[j], events[j], states[j + 1], t, was.cpu);
  }

  lemma FirstIs(l: Layout, s: State, t: Thread)
    requires Inv(l, s) && t in s.queue && s.queue[0].id == t.id
    ensures s.queue[0] == t
  {
    var i :| 0 <= i < |s.queue| && s.queue[i] == t;
    assert i != 0 ==> s.queue[0].id != s.queue[i].id;
  }

  ghost predicate Zeroed(mem: Memory, low: int, n: nat) {
    forall a :: low <= a < low + n ==> At(mem, a) == 0
  }

  /** A forked thread starts in its function, with its argument and the whole of its own stack, zeroed. */
  lemma ForkIsACall(l: Layout, states: seq<State>, events: seq<Event>, i: nat, j: nat)
    requires Run(l, states, events) && i < j < |events| && events[i].Fork?
    requires Dispatches(states[j], events[j], states[i].counter)
    requires forall k :: i < k < j ==> !Dispatches(states[k], events[k], states[i].counter)
    ensures var cpu := states[j + 1].cpu;
            cpu.pc == events[i].code && cpu.r0 == events[i].arg && cpu.lr == l.Landing()
            && cpu.sp == events[i].stack + 2048
    ensures Zeroed(states[j + 1].mem, events[i].stack, 2046)
  {
    var t := Thread(states[i].counter, events[i].stack, events[i].stack + STACK - 2, l.trampoline);
    RunKeeps(l, states, events, i);
    RunKeeps(l, states, events, i + 1);
    assert Next(l, states[i], events[i], states[i + 1]);
    assert t in states[i + 1].queue;
    AsleepKept(l, states, events, i + 1, j, t);
    RunKeeps(l, states, events, j);
    FirstIs(l, states[j], t);
    assert Next(l, states[j], events[j], states[j + 1]);
    QueuedElsewhere(l, states[j], t);
  }

  // ------------------------------------------ a dispatch is a procedure call

  ghost predicate Leaves(e: Event) {
    e.Yield? || e.Exit?
  }

  /** The dump and the main thread's stack. */
  ghost predicate OfMain(l: Layout, a: int) {
    Within(a, l.dump, 11) || l.mainLow <= a < l.mainHigh
  }

  ghost predicate LeavesMain(l: Layout, s: State, s': State) {
    s.running ==> s'.running && forall a :: OfMain(l, a) ==> At(s'.mem, a) == At(s.mem, a)
  }

  lemma RunningLeavesMain(l: Layout, s: State, e: Event, s': State)
    requires Inv(l, s) && Next(l, s, e, s') && !Leaves(e)
    ensures LeavesMain(l, s, s')
  {
  }

  lemma {:induction false} LeavesMainAlong(l: Layout, states: seq<State>, i: nat, j: nat)
    requires i <= j < |states| && states[i].running
    requires forall k :: i <= k < j ==> LeavesMain(l, states[k], states[k + 1])
    ensures states[j].running && forall a :: OfMain(l, a) ==> At(states[j].mem, a) == At(states[i].mem, a)
    decreases j - i
  {
    if i < j {
      LeavesMainAlong(l, states, i, j - 1);
      assert LeavesMain(l, states[j - 1], states[j - 1 + 1]);
    }
  }

  lemma DumpKept(l: Layout, mem: Memory, mem': Memory, c: Context)
    requires DumpHolds(l, mem, c) && forall a :: OfMain(l, a) ==> At(mem', a) == At(mem, a)
    ensures DumpHolds(l, mem', c)
  {
  }

  /** While threads run, the dump and the main thread's stack stay as the dispatch left them. */
  lemma MainKept(l: Layout, states: seq<State>, events: seq<Event>, i: nat, j: nat)
    requires Run(l, states, events) && i < j < |states| && events[i].Dispatch?
    requires forall k :: i < k < j ==> !Leaves(events[k])
    ensures states[j].running && l.mainLow <= states[i].cpu.sp
    ensures DumpHolds(l, states[j].mem, Context(states[i].cpu.saved, states[i].cpu.sp, events[i].back))
    ensures forall a :: states[i].cpu.sp <= a < l.mainHigh ==> At(states[j].mem, a) == At(states[i].mem, a)
  {
    RunKeeps(l, states, events, i);
    assert Next(l, states[i], events[i], states[i + 1]);
    forall k | i + 1 <= k < j
      ensures LeavesMain(l, states[k], states[k + 1])
    {
      RunKeeps(l, states, events, k);
      RunningLeavesMain(l, states[k], events[k], states[k + 1]);
    }
    LeavesMainAlong(l, states, i + 1, j);
    DumpKept(l, states[i + 1].mem, states[j].mem, Context(states[i].cpu.saved, states[i].cpu.sp, events[i].back));
  }

  /**
   * A dispatch is an ordinary procedure call.  Whether the thread leaves by exiting, by
   * returning through the trampoline or by yielding, and whether it was new or in a yield,
   * `start` gets back the registers that a procedure preserves, its sp and its
   * stack, at the address that the call was to return to.
   */
  lemma DispatchIsACall(l: Layout, states: seq<State>, events: seq<Event>, i: nat, j: nat)
    requires Run(l, states, events) && i < j < |events| && events[i].Dispatch? && Leaves(events[j])
    requires forall k :: i < k < j ==> !Leaves(events[k])
    ensures Returned(states[j + 1].cpu, Context(states[i].cpu.saved, states[i].cpu.sp, events[i].back))
    ensures forall a :: states[i].cpu.sp <= a < l.mainHigh ==> At(states[j + 1].mem, a) == At(states[i].mem, a)
  {
    RunKeeps(l, states, events, i);
    assert Next(l, states[i], events[i], states[i + 1]);
    MainKept(l, states, events, i, j);
    RunKeeps(l, states, events, j);
    LeavesToMain(l, states[j], events[j], states[j + 1], Context(states[i].cpu.saved, states[i].cpu.sp,
      events[i].back));
  }

  lemma LeavesToMain(l: Layout, s: State, e: Event, s': State, c: Context)
    requires Inv(l, s) && Next(l, s, e, s') && Leaves(e) && DumpHolds(l, s.mem, c)
    ensures Returned(s'.cpu, c)
    ensures forall a :: l.mainLow <= a < l.mainHigh ==> At(s'.mem, a) == At(s.mem, a)
  {
  }
}
