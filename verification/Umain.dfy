/**
 * `umain` itself: two threads are spawned, run, taken back, reset and run again with
 * A_STOP counting up, and every run preempts thread 0 at a known instruction.
 */
module Umain {
  import opened Bytes
  import opened Debugging
  import opened Interleaving
  import opened InterleavingTheorems
  import opened InterleavingIsolation
  import opened Exploration
  import Crc

  function Reset(t: Thread, entry: word, finish: word): Thread {
    t.(entry := entry, registers := Registers.Registers(entry, finish, t.stackTop, t.registers.r),
       finished := false, count := 0, crc := Crc.ZERO)
  }

  /** A thread that has not run: at its function, returning to `thread_finished`, on its own stack. */
  ghost predicate Fresh(t: Thread, id: nat, entry: word, finish: word) {
    t.id == id && t.entry == entry && t.registers.pc == entry && t.registers.lr == finish
    && t.registers.sp == t.stackTop && !t.finished && t.count == 0 && t.crc == Crc.ZERO
  }

  /** The registers of such a thread. */
  function FreshRegisters(entry: word, finish: word, stackTop: word, r: Words13): Registers {
    Registers.Registers(entry, finish, stackTop, r)
  }

  /** The code of thread 0, from any fresh thread on its stack and any memory, is `n0` instructions in a row. */
  ghost predicate LineCode(exec: Instruction, entry: word, finish: word, stackTop: word, at: Line, n0: nat) {
    forall r, memory :: StraightLine(exec, finish, FreshRegisters(entry, finish, stackTop, r), memory, at, n0)
  }

  ghost predicate Ends(exec: Instruction, finish: word, regs: Registers, memory: Memory) {
    exists n1 :: Takes(exec, finish, regs, memory, n1)
  }

  /** The code of thread 1 ends when it is run alone, on any memory. */
  ghost predicate EndingCode(exec: Instruction, entry: word, finish: word, stackTop: word) {
    forall r, memory :: Ends(exec, finish, FreshRegisters(entry, finish, stackTop, r), memory)
  }

  /** Wherever thread 0 is on its line, it still is after all of thread 1, from these registers. */
  ghost predicate KeepsLine(exec: Instruction, finish: word, regs: Registers, at: Line, n0: nat) {
    forall i: nat, r, memory, n1: nat {:trigger at(i, r, memory), Takes(exec, finish, regs, memory, n1)} ::
      i < n0 && at(i, r, memory) && Takes(exec, finish, regs, memory, n1) ==>
        at(i, r, Alone(exec, regs, memory, n1).1)
  }

  /** The code of thread 1 does not knock thread 0 off its line, say by writing to its stack. */
  ghost predicate HarmlessCode(exec: Instruction, entry: word, finish: word, stackTop: word, at: Line, n0: nat) {
    forall r :: KeepsLine(exec, finish, FreshRegisters(entry, finish, stackTop, r), at, n0)
  }

  /** The two thread functions, their stacks, and how thread 0's code is laid out. */
  datatype Code = Code(entryA: word, entryB: word, stackA: word, stackB: word, at: Line, n0: nat) {
    ghost predicate Suits(exec: Instruction, finish: word) {
      ChangesPc(exec) && n0 > 0 && entryA != finish && entryB != finish
      && LineCode(exec, entryA, finish, stackA, at, n0)
      && EndingCode(exec, entryB, finish, stackB) && HarmlessCode(exec, entryB, finish, stackB, at, n0)
    }

    /** What this run is, with how long thread 1 takes in it. */
    lemma Plans(exec: Instruction, trigger: word, finish: word, s: Start, stop: nat) returns (q: Search)
      requires Suits(exec, finish) && Lead(stop) < n0
      requires s.threads.Keys == {0, 1} && s.finished == []
      requires Fresh(s.threads[0], 0, entryA, finish) && s.threads[0].stackTop == stackA
      requires Fresh(s.threads[1], 1, entryB, finish) && s.threads[1].stackTop == stackB
      requires s.address != entryA
      ensures q.Fits() && q.n1 > 0
      ensures q == Search(Umain(stop, trigger, finish), exec, s, at, stop, n0, q.n1)
    {
      var a, b := s.threads[0].registers, s.threads[1].registers;
      assert a == FreshRegisters(entryA, finish, stackA, a.r) && b == FreshRegisters(entryB, finish, stackB, b.r);
      var memory := Alone(exec, a, s.memory, Lead(stop)).1;
      assert Ends(exec, finish, b, memory) && KeepsLine(exec, finish, b, at, n0);
      var n1: nat :| Takes(exec, finish, b, memory, n1);
      q := Search(Umain(stop, trigger, finish), exec, s, at, stop, n0, n1);
      ZeroOnLine(q, Lead(stop));
    }
  }

  /** The instructions of thread 0 before the first of another thread. */
  function Leading(order: seq<nat>): nat {
    if order == [] || order[0] != 0 then 0 else 1 + Leading(order[1..])
  }

  lemma {:induction false} LeadingOfPlan(lead: nat, n0: nat, n1: nat, i: nat)
    requires i <= lead < n0 && n1 > 0
    ensures Leading(Plan(lead, n0, n1)[i..]) == lead - i
    decreases lead - i
  {
    var rest := Plan(lead, n0, n1)[i..];
    assert rest[0] == if i == lead then 1 else 0;
    if i < lead {
      LeadingOfPlan(lead, n0, n1, i + 1);
      assert rest[1..] == Plan(lead, n0, n1)[i + 1..];
    }
  }

  lemma {:induction false} RunExtends(p: Setup, exec: Instruction, m: Machine, n: nat)
    requires Run(p, exec, m, n).Some?
    ensures var x := Run(p, exec, m, n).value;
            x.debug.running.Some? ==>
              Run(p, exec, m, n + 1) == Step(p, exec, x)
              && (Step(p, exec, x).Some? ==> Schedule(p, exec, m, n + 1) == Schedule(p, exec, m, n) + Moved(x))
    decreases n
  {
    if n != 0 && m.debug.running.Some? {
      RunExtends(p, exec, Step(p, exec, m).value, n - 1);
    }
  }

  lemma {:induction false} RunStays(p: Setup, exec: Instruction, m: Machine, n: nat, limit: nat)
    requires n <= limit && Run(p, exec, m, n).Some? && Run(p, exec, m, n).value.debug.running.None?
    ensures Run(p, exec, m, limit) == Run(p, exec, m, n)
    ensures Schedule(p, exec, m, limit) == Schedule(p, exec, m, n)
    decreases n
  {
    if n != 0 && m.debug.running.Some? {
      RunStays(p, exec, Step(p, exec, m).value, n - 1, limit - 1);
    }
  }

  lemma StillRunning(q: Search, n: nat, m: Machine, order: seq<nat>)
    requires q.Fits() && Reached(q, n, m, order) && m.debug.running.Some?
    ensures n < 2 * (q.n0 + q.n1) + 2
    ensures Step(q.setup, q.exec, m).Some?
    ensures Reached(q, n + 1, Step(q.setup, q.exec, m).value, order + Moved(m))
  {
    if n >= 2 * (q.n0 + q.n1) + 2 {
      var x := RunCompletesPlan(q, n);
    }
    var x, more := RunFollows(q, n + 1);
    RunExtends(q.setup, q.exec, Initial(q.start), n);
  }

  /** What a run leaves behind. */
  ghost predicate Explored(q: Search, m: Machine, order: seq<nat>)
    requires 0 in q.start.threads && 1 in q.start.threads
  {
    HandedBack(q.start, m) && order == q.Whole() && BothFinished(q, m.debug.finished)
  }

  lemma HasRun(q: Search, n: nat, m: Machine, order: seq<nat>)
    requires q.Fits() && Reached(q, n, m, order) && m.debug.running.None?
    ensures Explored(q, m, order)
  {
    var limit := n + 2 * (q.n0 + q.n1) + 2;
    RunStays(q.setup, q.exec, Initial(q.start), n, limit);
    var x := RunIsPlan(q, limit);
  }

  /** Steps the CPU through the traps and instructions of a run, until it is over. */
  method StepThrough(p: Setup, exec: Instruction, start: Machine, ghost q: Search)
    returns (machine: Machine, order: seq<nat>)
    requires q.Fits() && q.setup == p && q.exec == exec && start == Initial(q.start)
    ensures Explored(q, machine, order)
  {
    machine, order := start, [];
    ghost var n := 0;
    while machine.debug.running.Some?
      invariant Reached(q, n, machine, order)
      decreases 2 * (q.n0 + q.n1) + 2 - n
    {
      StillRunning(q, n, machine, order);
      order := order + Moved(machine);
      machine := Step(p, exec, machine).value;
      n := n + 1;
    }
    HasRun(q, n, machine, order);
  }

  class Explorer {
    const exec: Instruction
    const trigger: word
    const finish: word
    var debug: Debug
    var memory: Memory
    var threadCount: nat
    var aStop: nat

    constructor (exec: Instruction, trigger: word, finish: word, memory: Memory)
      ensures this.exec == exec && this.trigger == trigger && this.finish == finish
      ensures debug == Debug(map[], [], None, 0, Disabled) && threadCount == 0 && aStop == 0
    {
      this.exec, this.trigger, this.finish, this.memory := exec, trigger, finish, memory;
      debug := Debug(map[], [], None, 0, Disabled);
      threadCount, aStop := 0, 0;
    }

    /** `Thread::from_fn`; the stack that is allocated for it ends at `stackTop`. */
    method FromFn(entry: word, stackTop: word) returns (t: Thread)
      modifies this`threadCount
      ensures Fresh(t, old(threadCount), entry, finish) && t.stackTop == stackTop
      ensures forall i :: 0 <= i < 13 ==> t.registers.r[i] == 0
      ensures threadCount == old(threadCount) + 1
    {
      t := Thread(threadCount, entry,
                  Registers.Registers(entry, finish, stackTop, [0, 0, 0, 0, 0, 0, 0, 0, 0, 0, 0, 0, 0]),
                  stackTop, false, 0, Crc.ZERO);
      threadCount := threadCount + 1;
    }

    method Spawn(t: Thread)
      modifies this`debug
      ensures debug == old(debug).(threads := old(debug.threads)[t.id := t])
    {
      debug := debug.(threads := debug.threads[t.id := t]);
    }

    /** The run that `trigger_interleaving` starts, stepped on the CPU until the main thread is back. */
    method RunInterleaving(stash: Registers, ghost q: Search) returns (order: seq<nat>)
      requires stash.pc == trigger && debug.address != trigger
      requires debug.status == Enabled(false) && debug.running == None && debug.threads != map[]
      requires q.Fits() && q.setup == Umain(aStop, trigger, finish) && q.exec == exec
      requires q.start == Start(debug.threads, memory, stash, debug.finished, debug.address)
      modifies this`debug, this`memory
      ensures Explored(q, Machine(stash, memory, debug), order)
    {
      var p := Umain(aStop, trigger, finish);
      TriggerStarts(p, exec, Machine(stash, memory, debug));
      var machine := Step(p, exec, Machine(stash, memory, debug)).value;
      machine, order := StepThrough(p, exec, machine, q);
      debug, memory := machine.debug, machine.memory;
    }

    ghost predicate Idle()
      reads this
    {
      debug.threads == map[] && debug.finished == [] && debug.running == None
    }

    /** Both threads are spawned, and neither has run. */
    ghost predicate Ready(entryA: word, entryB: word, stackA: word, stackB: word)
      reads this
    {
      debug.threads.Keys == {0, 1} && debug.finished == [] && debug.running == None
      && Fresh(debug.threads[0], 0, entryA, finish) && debug.threads[0].stackTop == stackA
      && Fresh(debug.threads[1], 1, entryB, finish) && debug.threads[1].stackTop == stackB
    }

    /** One run, and the two threads that are popped off `FINISHED_THREADS` after it. */
    method RunAndTake(code: Code, stash: Registers, caller: word, shared: Memory)
      returns (a: Thread, b: Thread, order: seq<nat>)
      requires code.Suits(exec, finish) && stash.pc == trigger && caller != trigger && caller != code.entryA
      requires Ready(code.entryA, code.entryB, code.stackA, code.stackB) && Lead(aStop) < code.n0
      modifies this`debug, this`memory
      ensures Idle() && a.id == 0 && b.id == 1 && a.finished && b.finished && a.count == code.n0 + 1
      ensures a.stackTop == code.stackA && b.stackTop == code.stackB
      ensures Leading(order) == Lead(aStop)
    {
      // syscall_enable_breakpoint_mismatch, and the main thread stepped up to the call
      debug := debug.(status := Enabled(false), address := caller);
      memory := shared;
      ghost var s := Start(debug.threads, memory, stash, debug.finished, debug.address);
      ghost var q := code.Plans(exec, trigger, finish, s, aStop);
      order := RunInterleaving(stash, q);
      LeadingOfPlan(Lead(aStop), code.n0, q.n1, 0);
      assert order == order[0..];
      a, b := debug.finished[1], debug.finished[0];
      debug := debug.(finished := []);
    }

    /** Both threads go back to their functions and into the table, with what is left in r0-r12. */
    method Respawn(code: Code, a: Thread, b: Thread)
      requires Idle() && a.id == 0 && b.id == 1 && a.stackTop == code.stackA && b.stackTop == code.stackB
      modifies this`debug
      ensures Ready(code.entryA, code.entryB, code.stackA, code.stackB)
      ensures debug.threads[0].registers.r == a.registers.r && debug.threads[1].registers.r == b.registers.r
    {
      Spawn(Reset(a, code.entryA, finish));
      Spawn(Reset(b, code.entryB, finish));
    }

    /** The search: the first run, then one for each value of `a_stop` below thread 0's count. */
    method Explore(code: Code, stash: Registers, caller: word, shared: nat -> Memory) returns (points: seq<nat>)
      requires code.Suits(exec, finish) && stash.pc == trigger && caller != trigger && caller != code.entryA
      requires Idle() && threadCount == 0 && aStop == 0
      modifies this
      ensures Searched(points, code.n0)
      ensures forall k: nat :: k in points <==> k < if code.n0 == 1 then 1 else code.n0 - 1
      ensures Ready(code.entryA, code.entryB, code.stackA, code.stackB)
    {
      var a := FromFn(code.entryA, code.stackA);
      var b := FromFn(code.entryB, code.stackB);
      Spawn(a);
      Spawn(b);
      var order;
      a, b, order := RunAndTake(code, stash, caller, shared(0));
      assert a.finished && b.finished;
      var aEnd := a.count;
      Respawn(code, a, b);
      points := [];
      for i := 0 to aEnd
        invariant Ready(code.entryA, code.entryB, code.stackA, code.stackB)
        invariant aStop == if i == 0 then 0 else i - 1
        invariant SearchedTo(points, i)
      {
        a, b, order := RunAndTake(code, stash, caller, shared(i + 1));
        aStop := i;
        assert a.finished && b.finished;
        SearchedOneMore(points, i);
        points := points + [Leading(order)];
        Respawn(code, a, b);
      }
      PointsExplored(code.n0, points);
    }
  }

  /** Where each of the first `n` iterations of the search preempts thread 0. */
  ghost predicate SearchedTo(points: seq<nat>, n: nat) {
    |points| == n && forall i :: 0 <= i < n ==> points[i] == Lead(if i == 0 then 0 else i - 1)
  }

  lemma SearchedOneMore(points: seq<nat>, n: nat)
    requires SearchedTo(points, n)
    ensures SearchedTo(points + [Lead(if n == 0 then 0 else n - 1)], n + 1)
  {
  }

  ghost predicate Searched(points: seq<nat>, n0: nat) {
    SearchedTo(points, n0 + 1)
  }

  /**
   * The preemption points of the search never go back.  There are N, from 0 to N - 1, and
   * the last one is missing unless it is the only one.
   */
  lemma PointsExplored(n0: nat, points: seq<nat>)
    requires n0 > 0 && Searched(points, n0)
    ensures forall i, j :: 0 <= i <= j <= n0 ==> points[i] <= points[j]
    ensures forall k: nat :: k in points <==> k < if n0 == 1 then 1 else n0 - 1
    ensures (forall k: nat :: k < n0 ==> k in points) <==> n0 == 1
  {
    assert points[0] == 0;
    forall k: nat | k < n0 - 1
      ensures k in points
    {
      assert points[k + if k == 0 then 0 else 2] == k;
    }
    if n0 > 1 {
      assert n0 - 1 !in points;
    }
  }
}
