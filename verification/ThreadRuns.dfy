/**
 * Whole runs of the thread system: the main thread and the threads compute, fork, yield
 * and exit in any order, each writing only its own stack and what is shared.
 */
module ThreadRuns {
  import opened Bytes
  import opened Threads

  datatype Event =
    | MainCompute
    | Compute
    | Dispatch(back: int)
    | Fork(code: int, arg: int, stack: int, low: int)
    | Yield
    | Exit

  predicate Within(a: int, low: int, n: nat) {
    low <= a < low + n
  }

  predicate Queued(queue: seq<Thread>, a: int) {
    exists t :: t in queue && Within(a, t.stack, STACK)
  }

  /** Code of the main thread between two dispatches, or outside `start`. */
  ghost predicate MainComputed(s: State, s': State) {
    !s.running && s' == s.(cpu := s'.cpu, mem := s'.mem)
    && forall a :: Queued(s.queue, a) ==> At(s'.mem, a) == At(s.mem, a)
  }

  /** Code of the running thread. */
  ghost predicate Computed(l: Layout, s: State, s': State) {
    s.running && s' == s.(cpu := s'.cpu, mem := s'.mem)
    && forall a :: Queued(s.queue, a) || Within(a, l.dump, 11) || l.mainLow <= a < l.mainHigh ==>
         At(s'.mem, a) == At(s.mem, a)
  }

  /** What an allocator gives out: memory that no live thread, the dump or the main stack uses. */
  predicate FreshStack(l: Layout, s: State, stack: int) {
    Clear(l, stack) && (forall t :: t in s.queue ==> Apart(stack, STACK, t.stack, STACK))
    && (s.running && s.current.Some? ==> Apart(stack, STACK, s.current.value.stack, STACK))
  }

  /** `sp` leaves room for what the switch pushes. */
  ghost predicate Room(l: Layout, s: State, n: nat) {
    if s.running then
      s.current.Some? && s.current.value.stack + n <= s.cpu.sp <= s.current.value.stack + STACK
    else
      l.mainLow + n <= s.cpu.sp <= l.mainHigh
  }

  function Low(l: Layout, s: State): int {
    if s.running && s.current.Some? then s.current.value.stack else l.mainLow
  }

  ghost predicate Next(l: Layout, s: State, e: Event, s': State) {
    match e
    case MainCompute => MainComputed(s, s')
    case Compute => Computed(l, s, s')
    case Dispatch(back) => Room(l, s, 2) && Dispatched(l, back, s, s')
    case Fork(code, arg, stack, low) =>
      Room(l, s, 0) && low == Low(l, s) && FreshStack(l, s, stack) && |s.queue| < THREAD_COUNT
      && Forked(l, code, arg, stack, low, s, s')
    case Yield => Room(l, s, 9) && |s.queue| < THREAD_COUNT && Yielded(l, s, s')
    case Exit => Room(l, s, 0) && Exited(l, s, s')
  }

  // ----------------------------------------------------------- invariant

  ghost predicate Separate(queue: seq<Thread>) {
    forall i, j :: 0 <= i < j < |queue| ==>
      queue[i].id != queue[j].id && Apart(queue[i].stack, STACK, queue[j].stack, STACK)
  }

  ghost predicate Inv(l: Layout, s: State) {
    l.Fits() && |s.queue| <= THREAD_COUNT && Separate(s.queue)
    && (forall t :: t in s.queue ==> Parked(l, t) && t.id < s.counter)
    && (s.running ==>
          s.current.Some? && s.returnPc == Some(l.Reentry())
          && var c := s.current.value;
             Clear(l, c.stack) && c.id < s.counter
             && forall t :: t in s.queue ==> t.id != c.id && Apart(t.stack, STACK, c.stack, STACK))
  }

  lemma DispatchKeeps(l: Layout, back: int, s: State, s': State)
    requires Inv(l, s) && Dispatched(l, back, s, s')
    ensures Inv(l, s')
  {
    assert s.queue[0] in s.queue;
    forall t | t in s'.queue
      ensures t in s.queue && t.id != s.queue[0].id && Apart(t.stack, STACK, s.queue[0].stack, STACK)
    {
      var i :| 0 <= i < |s'.queue| && s'.queue[i] == t;
      assert s.queue[i + 1] == t;
    }
  }

  lemma PushKeeps(queue: seq<Thread>, t: Thread)
    requires Separate(queue)
    requires forall u :: u in queue ==> u.id != t.id && Apart(u.stack, STACK, t.stack, STACK)
    ensures Separate(queue + [t])
  {
  }

  lemma NextKeeps(l: Layout, s: State, e: Event, s': State)
    requires Inv(l, s) && Next(l, s, e, s')
    ensures Inv(l, s')
  {
    match e
    case MainCompute =>
    case Compute =>
    case Dispatch(back) => DispatchKeeps(l, back, s, s');
    case Fork(code, arg, stack, low) => PushKeeps(s.queue, Thread(s.counter, stack, stack + STACK - 2, l.trampoline));
    case Yield => PushKeeps(s.queue, s.current.value.(sp := s.cpu.sp - 9, pc := l.YieldReentry()));
    case Exit =>
  }
}
