/**
 * What holds of every run of the debugger: it refines the interleaving of its threads
 * under whatever schedule the scheduler chose, and it ends when they do.
 */
module InterleavingTheorems {
  import opened Bytes
  import opened Sequences
  import opened Debugging
  import opened Interleaving
  import InterleavingProof

  // ---------------------------------------------------------- refinement

  predicate InTrap(m: Machine) {
    m.debug.running.Some? && Traps(m)
  }

  function Owed(m: Machine): nat {
    if InTrap(m) then 1 else 0
  }

  /** The instruction that a step from here executes, if it is not a trap. */
  function Moved(m: Machine): seq<nat>
    requires m.debug.running.Some?
  {
    if Traps(m) then [] else [m.debug.running.value.0]
  }

  /** A step does not panic, and an instruction follows a trap and a trap an instruction. */
  ghost predicate Advances(p: Setup, exec: Instruction, m: Machine) {
    m.debug.running.Some? && Step(p, exec, m).Some?
    && var x := Step(p, exec, m).value;
       (Traps(m) ==> !InTrap(x)) && (!Traps(m) ==> InTrap(x))
  }

  ghost predicate Kept(p: Setup, exec: Instruction, inv: (Machine, seq<nat>) -> bool) {
    forall m, order {:trigger Advances(p, exec, m), inv(m, order)} :: inv(m, order) && m.debug.running.Some? ==>
      Advances(p, exec, m) && inv(Step(p, exec, m).value, order + Moved(m))
  }

  /** What every step keeps holds of every run. */
  lemma {:induction false} RunKeeps(p: Setup, exec: Instruction, inv: (Machine, seq<nat>) -> bool, m: Machine,
        order: seq<nat>, n: nat)
    requires Kept(p, exec, inv) && inv(m, order)
    ensures Run(p, exec, m, n).Some?
    ensures inv(Run(p, exec, m, n).value, order + Schedule(p, exec, m, n))
    decreases n
  {
    if n == 0 || m.debug.running.None? {
      assert order + [] == order;
    } else {
      assert Advances(p, exec, m);
      var x := Step(p, exec, m).value;
      RunKeeps(p, exec, inv, x, order + Moved(m), n - 1);
      Regroup(order, Moved(m), Schedule(p, exec, x, n - 1));
    }
  }

  /** One trap for each instruction, and one more if the run began with a trap and is over. */
  lemma {:induction false} RunCounts(p: Setup, exec: Instruction, inv: (Machine, seq<nat>) -> bool, m: Machine,
        order: seq<nat>, n: nat)
    requires Kept(p, exec, inv) && inv(m, order) && Run(p, exec, m, n).Some?
    ensures var x, traps, moves := Run(p, exec, m, n).value, TrapCount(p, exec, m, n), |Schedule(p, exec, m, n)|;
            traps + Owed(x) == moves + Owed(m) && (x.debug.running.Some? ==> traps + moves == n)
    decreases n
  {
    if n != 0 && m.debug.running.Some? {
      assert Advances(p, exec, m);
      RunCounts(p, exec, inv, Step(p, exec, m).value, order + Moved(m), n - 1);
    }
  }

  lemma StepSimulates(p: Setup, exec: Instruction, s: Start, m: Machine, order: seq<nat>)
    requires ChangesPc(exec) && LiveScheduler(p) && Simulates(p, exec, s, m, order)
    requires m.debug.running.Some?
    ensures Advances(p, exec, m)
    ensures Simulates(p, exec, s, Step(p, exec, m).value, order + Moved(m))
  {
    if Traps(m) {
      assert order + [] == order;
      InterleavingProof.TrapSimulates(p, exec, s, m, order);
    } else {
      InterleavingProof.ExecuteSimulates(p, exec, s, m, order);
    }
  }

  /**
   * However many steps a run has made, under any scheduler that names live threads, it has
   * not panicked, and memory, every saved thread and every retired one are what running
   * the scheduled instructions one after another on the abstract machine produces.
   */
  lemma RunRefinesInterleaving(p: Setup, exec: Instruction, s: Start, n: nat)
    requires ChangesPc(exec) && LiveScheduler(p) && Spawned(p, s)
    ensures Run(p, exec, Initial(s), n).Some?
    ensures Simulates(p, exec, s, Run(p, exec, Initial(s), n).value, Schedule(p, exec, Initial(s), n))
    ensures var m, traps := Run(p, exec, Initial(s), n).value, TrapCount(p, exec, Initial(s), n);
            var moves := |Schedule(p, exec, Initial(s), n)|;
            traps + Owed(m) == moves + 1 && (m.debug.running.Some? ==> traps + moves == n)
  {
    var inv := (m: Machine, order: seq<nat>) => Simulates(p, exec, s, m, order);
    forall m, order | inv(m, order) && m.debug.running.Some?
      ensures Advances(p, exec, m) && inv(Step(p, exec, m).value, order + Moved(m))
    {
      StepSimulates(p, exec, s, m, order);
    }
    InterleavingProof.StartSimulates(p, exec, s);
    RunKeeps(p, exec, inv, Initial(s), [], n);
    RunCounts(p, exec, inv, Initial(s), [], n);
    assert [] + Schedule(p, exec, Initial(s), n) == Schedule(p, exec, Initial(s), n);
  }

  /** The running thread is in the table, its registers are in the CPU and the breakpoint is at its pc. */
  predicate Resumed(m: Machine) {
    m.debug.running.Some? && m.debug.address == m.cpu.pc
    && var current := m.debug.running.value.0;
       current in m.debug.threads && m.cpu == m.debug.threads[current].registers
  }

  /** That is how every trap that does not end the run leaves the machine. */
  lemma TrapResumes(p: Setup, exec: Instruction, s: Start, m: Machine, order: seq<nat>)
    requires LiveScheduler(p) && Simulates(p, exec, s, m, order) && InTrap(m)
    ensures Trap(p, m).Some?
    ensures Trap(p, m).value.debug.running.Some? ==> Resumed(Trap(p, m).value)
  {
    InterleavingProof.TrapSimulates(p, exec, s, m, order);
  }

  /**
   * In every state of a run the running thread is in the table, the table and the
   * retired threads split the spawned ones between them, a thread is marked finished
   * exactly if it is retired, and every trap, unless it ends the run, resumes a thread
   * with its own registers in the CPU and the breakpoint at its pc.
   */
  lemma EveryState(p: Setup, exec: Instruction, s: Start, n: nat)
    requires ChangesPc(exec) && LiveScheduler(p) && Spawned(p, s)
    ensures Run(p, exec, Initial(s), n).Some?
    ensures var m := Run(p, exec, Initial(s), n).value;
            s.finished <= m.debug.finished
            && (m.debug.running.None? <==> m.debug.threads == map[])
            && (m.debug.running.Some? ==>
                  var (current, stash) := m.debug.running.value;
                  current in m.debug.threads && stash == s.stash && (!Traps(m) ==> Resumed(m)))
    ensures var m := Run(p, exec, Initial(s), n).value;
            InTrap(m) ==> Trap(p, m).Some?
                          && (Trap(p, m).value.debug.running.Some? ==> Resumed(Trap(p, m).value))
    ensures var m := Run(p, exec, Initial(s), n).value;
            Splits(s.threads.Keys, m.debug.threads.Keys, m.debug.finished[|s.finished|..])
            && (forall id :: id in m.debug.threads ==> m.debug.threads[id].id == id && !m.debug.threads[id].finished)
            && (forall t :: t in m.debug.finished[|s.finished|..] ==> t.finished)
  {
    RunRefinesInterleaving(p, exec, s, n);
    var m, order := Run(p, exec, Initial(s), n).value, Schedule(p, exec, Initial(s), n);
    forall id | id in m.debug.threads
      ensures m.debug.threads[id].id == id && !m.debug.threads[id].finished
    {
      assert Live(p, exec, s, m, order, id);
    }
    if InTrap(m) {
      TrapResumes(p, exec, s, m, order);
    }
  }

  // ------------------------------------------------------------ counting

  /** The keys of the ordered map, ascending. */
  function Ids(threads: Threads): seq<nat>
    decreases |threads|
  {
    if threads == map[] then []
    else
      var first := FirstKey(threads);
      assert (threads - {first}).Keys == threads.Keys - {first};
      [first] + Ids(threads - {first})
  }

  ghost predicate Distinct(ids: seq<nat>) {
    forall i, j :: 0 <= i < j < |ids| ==> ids[i] != ids[j]
  }

  lemma {:induction false} IdsEnumerate(threads: Threads)
    ensures Distinct(Ids(threads))
    ensures forall id :: id in Ids(threads) <==> id in threads
    decreases |threads|
  {
    if threads != map[] {
      var first := FirstKey(threads);
      assert (threads - {first}).Keys == threads.Keys - {first};
      IdsEnumerate(threads - {first});
    }
  }

  function Total(order: seq<nat>, ids: seq<nat>): nat {
    if ids == [] then 0 else Total(order, ids[..|ids| - 1]) + Count(order, ids[|ids| - 1])
  }

  function Budget(bound: map<nat, nat>, ids: seq<nat>): nat {
    if ids == [] then 0
    else
      var last := ids[|ids| - 1];
      Budget(bound, ids[..|ids| - 1]) + if last in bound then bound[last] else 0
  }

  lemma {:induction false} TotalOfOneMore(order: seq<nat>, t: nat, ids: seq<nat>)
    requires Distinct(ids)
    ensures Total(order + [t], ids) == Total(order, ids) + if t in ids then 1 else 0
    decreases |ids|
  {
    assert (order + [t])[..|order|] == order;
    if ids != [] {
      var n := |ids| - 1;
      TotalOfOneMore(order, t, ids[..n]);
      assert ids == ids[..n] + [ids[n]];
    }
  }

  /** Every instruction belongs to exactly one thread. */
  lemma {:induction false} TotalIsLength(order: seq<nat>, ids: seq<nat>)
    requires Distinct(ids) && forall t :: t in order ==> t in ids
    ensures Total(order, ids) == |order|
    decreases |order|
  {
    if order == [] {
      TotalOfNothing(ids);
    } else {
      var n := |order| - 1;
      TotalIsLength(order[..n], ids);
      TotalOfOneMore(order[..n], order[n], ids);
      assert order == order[..n] + [order[n]];
    }
  }

  lemma {:induction false} TotalOfNothing(ids: seq<nat>)
    ensures Total([], ids) == 0
    decreases |ids|
  {
    if ids != [] {
      TotalOfNothing(ids[..|ids| - 1]);
    }
  }

  lemma {:induction false} TotalWithinBudget(order: seq<nat>, bound: map<nat, nat>, ids: seq<nat>)
    requires forall id :: id in ids ==> id in bound && Count(order, id) <= bound[id]
    ensures Total(order, ids) <= Budget(bound, ids)
    decreases |ids|
  {
    if ids != [] {
      TotalWithinBudget(order, bound, ids[..|ids| - 1]);
    }
  }

  lemma {:induction false} TraceLength(exec: Instruction, a: Abstract, order: seq<nat>, t: nat)
    requires Over(a, order)
    ensures |Trace(exec, a, order, t)| == Count(order, t)
    decreases |order|
  {
    if order != [] {
      TraceLength(exec, a, order[..|order| - 1], t);
    }
  }

  /**
   * A retired thread stopped at `thread_finished`; its count is the number of its
   * instructions, plus one for the first thread, which traps before its first one; and its
   * digest is that of its own trapped register files, each once, in order.
   */
  lemma RetiredThread(p: Setup, exec: Instruction, s: Start, n: nat, t: Thread)
    requires ChangesPc(exec) && LiveScheduler(p) && Spawned(p, s)
    requires Run(p, exec, Initial(s), n).Some?
    requires t in Retired(s, Run(p, exec, Initial(s), n).value)
    ensures Fair(exec, Files(s), p.finish, Schedule(p, exec, Initial(s), n))
    ensures RetiredWell(p, exec, s, Schedule(p, exec, Initial(s), n), t)
    ensures var order := Schedule(p, exec, Initial(s), n);
            t.registers == Interleave(exec, Files(s), order).registers[t.id] && t.registers.pc == p.finish
            && t.count == Count(order, t.id) + (if t.id == FirstKey(s.threads) then 1 else 0)
            && t.crc == DigestOf(Recorded(exec, s, order, t.id))
            && t.entry == s.threads[t.id].entry && t.stackTop == s.threads[t.id].stackTop
  {
    RunRefinesInterleaving(p, exec, s, n);
    var m, order := Run(p, exec, Initial(s), n).value, Schedule(p, exec, Initial(s), n);
    var i :| 0 <= i < |Retired(s, m)| && Retired(s, m)[i] == t;
    assert RetiredWell(p, exec, s, order, t);
    TraceLength(exec, Files(s), order, t.id);
  }

  // --------------------------------------------------------- termination

  /** No thread has more than so many instructions in it, however the threads interleave. */
  ghost predicate Bounded(p: Setup, exec: Instruction, s: Start, bound: map<nat, nat>) {
    bound.Keys == s.threads.Keys
    && forall order, t :: Fair(exec, Files(s), p.finish, order) && t in s.threads ==> Count(order, t) <= bound[t]
  }

  /** The main thread has the CPU back, and every thread of the run is retired. */
  ghost predicate HandedBack(s: Start, m: Machine) {
    m.cpu == s.stash && m.debug.running == None && m.debug.status == Disabled && m.debug.threads == map[]
  }

  /** A run goes on no longer than its schedule does. */
  lemma RunOver(p: Setup, exec: Instruction, s: Start, limit: nat, n: nat)
    requires ChangesPc(exec) && LiveScheduler(p) && Spawned(p, s)
    requires |Schedule(p, exec, Initial(s), n)| <= limit && n >= 2 * limit + 2
    ensures Run(p, exec, Initial(s), n).Some? && HandedBack(s, Run(p, exec, Initial(s), n).value)
    ensures TrapCount(p, exec, Initial(s), n) == |Schedule(p, exec, Initial(s), n)| + 1
  {
    RunRefinesInterleaving(p, exec, s, n);
  }

  /**
   * A run of bounded threads ends, after one trap for each of their instructions and one
   * more, with the CPU as the main thread left it.
   */
  lemma RunEnds(p: Setup, exec: Instruction, s: Start, bound: map<nat, nat>, n: nat)
    requires ChangesPc(exec) && LiveScheduler(p) && Spawned(p, s) && Bounded(p, exec, s, bound)
    requires n >= 2 * Budget(bound, Ids(s.threads)) + 2
    ensures Run(p, exec, Initial(s), n).Some? && HandedBack(s, Run(p, exec, Initial(s), n).value)
    ensures TrapCount(p, exec, Initial(s), n) == 1 + Total(Schedule(p, exec, Initial(s), n), Ids(s.threads))
  {
    var order, ids := Schedule(p, exec, Initial(s), n), Ids(s.threads);
    RunRefinesInterleaving(p, exec, s, n);
    IdsEnumerate(s.threads);
    TotalIsLength(order, ids);
    TotalWithinBudget(order, bound, ids);
    RunOver(p, exec, s, Budget(bound, ids), n);
  }
}
