/**
 * Every step of the machine keeps it a simulation: an instruction step is a step of the
 * running thread, and a trap changes nothing but which thread runs next.
 */
module InterleavingProof {
  import opened Bytes
  import opened Debugging
  import opened Interleaving

  lemma StartSimulates(p: Setup, exec: Instruction, s: Start)
    requires Spawned(p, s)
    ensures Simulates(p, exec, s, Initial(s), [])
  {
    var m := Initial(s);
    assert Retired(s, m) == [];
    forall id | id in m.debug.threads
      ensures Live(p, exec, s, m, [], id)
    {
      if id == FirstKey(s.threads) {
        assert Recorded(exec, s, [], id) == [s.threads[id].registers];
      }
    }
  }

  lemma InterleaveAppend(exec: Instruction, a: Abstract, order: seq<nat>, t: nat)
    requires Over(a, order) && t in a.registers
    ensures Over(a, order + [t])
    ensures Interleave(exec, a, order + [t]) == StepThread(exec, Interleave(exec, a, order), t)
    ensures forall u :: Trace(exec, a, order + [t], u) == Trace(exec, a, order, u)
              + if u == t then [StepThread(exec, Interleave(exec, a, order), t).registers[t]] else []
  {
    assert (order + [t])[..|order|] == order;
  }

  lemma FairAppend(exec: Instruction, a: Abstract, finish: word, order: seq<nat>, t: nat)
    requires Fair(exec, a, finish, order) && t in a.registers
    requires Interleave(exec, a, order).registers[t].pc != finish
    ensures Fair(exec, a, finish, order + [t])
  {
    var more := order + [t];
    forall i | 0 <= i < |more|
      ensures Interleave(exec, a, more[..i]).registers[more[i]].pc != finish
    {
      assert more[..i] == order[..i];
      if i == |order| {
        assert order[..i] == order;
      }
    }
  }

  lemma RecordedAppend(exec: Instruction, s: Start, order: seq<nat>, t: nat, u: nat)
    requires s.threads != map[] && Over(Files(s), order) && t in s.threads
    ensures Over(Files(s), order + [t])
    ensures u != t ==> Recorded(exec, s, order + [t], u) == Recorded(exec, s, order, u)
    ensures u == t ==> Recorded(exec, s, order + [t], u)
                       == Recorded(exec, s, order, u) + [Interleave(exec, Files(s), order + [t]).registers[t]]
  {
    InterleaveAppend(exec, Files(s), order, t);
  }

  /** The running thread's instruction is due: the debugger is armed at its pc. */
  ghost predicate Executes(p: Setup, exec: Instruction, s: Start, m: Machine, order: seq<nat>, current: nat)
    requires s.threads != map[] && Over(Files(s), order)
  {
    m.debug.running == Some((current, s.stash)) && current in m.debug.threads && current in s.threads
    && m.debug.status == Enabled(false) && m.cpu.pc == m.debug.address
    && m.cpu == Interleave(exec, Files(s), order).registers[current]
    && m.memory == Interleave(exec, Files(s), order).memory
  }

  lemma ExecuteMoves(p: Setup, exec: Instruction, s: Start, m: Machine, order: seq<nat>, current: nat)
    requires s.threads != map[] && Fair(exec, Files(s), p.finish, order) && ChangesPc(exec)
    requires Executes(p, exec, s, m, order, current) && m.cpu.pc != p.finish
    ensures Fair(exec, Files(s), p.finish, order + [current])
    ensures var x := Execute(exec, m);
            Traps(x) && x.memory == Interleave(exec, Files(s), order + [current]).memory
            && Phase(p, exec, s, x, order + [current])
  {
    FairAppend(exec, Files(s), p.finish, order, current);
    InterleaveAppend(exec, Files(s), order, current);
    assert exec(m.cpu, m.memory).0.pc != m.cpu.pc;
  }

  lemma ExecuteKeepsThread(p: Setup, exec: Instruction, s: Start, m: Machine, order: seq<nat>, current: nat, id: nat)
    requires s.threads != map[] && Fair(exec, Files(s), p.finish, order) && ChangesPc(exec)
    requires Executes(p, exec, s, m, order, current)
    requires id in m.debug.threads && id in s.threads && Live(p, exec, s, m, order, id)
    ensures Over(Files(s), order + [current])
    ensures Live(p, exec, s, Execute(exec, m), order + [current], id)
  {
    InterleaveAppend(exec, Files(s), order, current);
    RecordedAppend(exec, s, order, current, id);
    assert exec(m.cpu, m.memory).0.pc != m.cpu.pc;
    if id == current {
      assert Recorded(exec, s, order + [current], id)[..|Recorded(exec, s, order, id)|] == Recorded(exec, s, order, id);
    }
  }

  lemma ExecuteKeepsRetired(p: Setup, exec: Instruction, s: Start, order: seq<nat>, current: nat, t: Thread)
    requires s.threads != map[] && Over(Files(s), order) && current in s.threads
    requires RetiredWell(p, exec, s, order, t) && t.id != current
    ensures Over(Files(s), order + [current])
    ensures RetiredWell(p, exec, s, order + [current], t)
  {
    InterleaveAppend(exec, Files(s), order, current);
    RecordedAppend(exec, s, order, current, t.id);
  }

  /** An instruction step of the machine is a step of the running thread. */
  lemma ExecuteSimulates(p: Setup, exec: Instruction, s: Start, m: Machine, order: seq<nat>)
    requires ChangesPc(exec) && Simulates(p, exec, s, m, order)
    requires m.debug.running.Some? && !Traps(m)
    ensures var current := m.debug.running.value.0;
            current in s.threads && Simulates(p, exec, s, Execute(exec, m), order + [current])
            && Traps(Execute(exec, m))
  {
    var current, x := m.debug.running.value.0, Execute(exec, m);
    assert Live(p, exec, s, m, order, current);
    ExecuteMoves(p, exec, s, m, order, current);
    var more := order + [current];
    assert Retired(s, x) == Retired(s, m);
    forall id | id in x.debug.threads
      ensures Live(p, exec, s, x, more, id)
    {
      ExecuteKeepsThread(p, exec, s, m, order, current, id);
    }
    forall i | 0 <= i < |Retired(s, x)|
      ensures RetiredWell(p, exec, s, more, Retired(s, x)[i])
    {
      ExecuteKeepsRetired(p, exec, s, order, current, Retired(s, m)[i]);
    }
  }

  // ---------------------------------------------------------------- traps

  /** Every thread of the table is saved; only the one that just trapped may have finished. */
  ghost predicate AllSaved(p: Setup, exec: Instruction, s: Start, order: seq<nat>, threads: Threads, current: nat)
    requires s.threads != map[] && Over(Files(s), order)
  {
    forall id :: id in threads ==>
      id in s.threads && !threads[id].finished
      && var regs := Interleave(exec, Files(s), order).registers[id];
         Saves(threads[id], s.threads[id], regs, Recorded(exec, s, order, id))
         && (regs.pc == p.finish ==> id == current)
  }

  lemma TrapSavesThread(p: Setup, exec: Instruction, s: Start, m: Machine, order: seq<nat>, current: nat, id: nat)
    requires s.threads != map[] && Over(Files(s), order) && Traps(m)
    requires m.debug.running.Some? && m.debug.running.value.0 == current && current in m.debug.threads
    requires id in m.debug.threads && id in s.threads && Live(p, exec, s, m, order, id)
    ensures var t := if id == current then Save(m.debug.threads[id], m.cpu) else m.debug.threads[id];
            var regs := Interleave(exec, Files(s), order).registers[id];
            !t.finished && Saves(t, s.threads[id], regs, Recorded(exec, s, order, id))
            && (regs.pc == p.finish ==> id == current)
  {
  }

  lemma TrapSaves(p: Setup, exec: Instruction, s: Start, m: Machine, order: seq<nat>, current: nat)
    requires s.threads != map[] && Over(Files(s), order)
    requires m.debug.running.Some? && m.debug.running.value.0 == current && current in m.debug.threads && Traps(m)
    requires forall id :: id in m.debug.threads ==> id in s.threads
    requires forall id :: id in m.debug.threads ==> Live(p, exec, s, m, order, id)
    ensures AllSaved(p, exec, s, order,
                     m.debug.threads[current := Save(m.debug.threads[current], m.cpu)], current)
  {
    var threads := m.debug.threads[current := Save(m.debug.threads[current], m.cpu)];
    forall id | id in threads
      ensures id in s.threads && !threads[id].finished
      ensures var regs := Interleave(exec, Files(s), order).registers[id];
              Saves(threads[id], s.threads[id], regs, Recorded(exec, s, order, id))
              && (regs.pc == p.finish ==> id == current)
    {
      TrapSavesThread(p, exec, s, m, order, current, id);
    }
  }

  /** The switch resumes the thread that the scheduler named, with the breakpoint at its pc. */
  lemma SwitchResumes(p: Setup, exec: Instruction, s: Start, d: Debug, memory: Memory, order: seq<nat>, current: nat)
    requires s.threads != map[] && Over(Files(s), order) && LiveScheduler(p)
    requires d.status == Enabled(false) && current in d.threads
    requires AllSaved(p, exec, s, order, d.threads, current)
    requires Interleave(exec, Files(s), order).registers[current].pc != p.finish
    ensures Switch(p, d, current, s.stash).Resume?
    ensures var o := Switch(p, d, current, s.stash); var m := Machine(o.registers, memory, o.debug);
            !Traps(m) && m.debug.running.Some? && m.debug.threads == d.threads && m.debug.finished == d.finished
            && Phase(p, exec, s, m, order)
            && forall id :: id in m.debug.threads ==> id in s.threads && Live(p, exec, s, m, order, id)
  {
  }

  lemma SettledKept(p: Setup, exec: Instruction, s: Start, m: Machine, x: Machine, order: seq<nat>)
    requires Settled(p, exec, s, m, order)
    requires x.debug.finished == m.debug.finished && x.memory == m.memory
    requires x.debug.threads.Keys == m.debug.threads.Keys
    ensures Settled(p, exec, s, x, order)
  {
    assert Retired(s, x) == Retired(s, m);
  }

  lemma SplitsMoved(all: set<nat>, live: set<nat>, retired: seq<Thread>, done: Thread)
    requires Splits(all, live, retired) && done.id in live
    ensures Splits(all, live - {done.id}, retired + [done])
  {
    var now := retired + [done];
    forall id | id in all && id !in live - {done.id}
      ensures exists i :: 0 <= i < |now| && now[i].id == id
    {
      if id == done.id {
        assert now[|retired|].id == id;
      } else {
        var i :| 0 <= i < |retired| && retired[i].id == id;
        assert now[i].id == id;
      }
    }
  }

  /** Retiring the running thread moves it from one part to the other. */
  lemma PartitionMoved(s: Start, m: Machine, x: Machine, current: nat, done: Thread)
    requires Partition(s, m) && current in m.debug.threads && done.id == current
    requires x.debug.finished == m.debug.finished + [done]
    requires x.debug.threads.Keys == m.debug.threads.Keys - {current}
    ensures Partition(s, x) && Retired(s, x) == Retired(s, m) + [done]
  {
    SplitsMoved(s.threads.Keys, m.debug.threads.Keys, Retired(s, m), done);
    assert Retired(s, x) == Retired(s, m) + [done];
  }

  lemma SettledMoved(p: Setup, exec: Instruction, s: Start, m: Machine, x: Machine, order: seq<nat>,
        current: nat, done: Thread)
    requires Settled(p, exec, s, m, order) && current in m.debug.threads && done.id == current
    requires x.debug.finished == m.debug.finished + [done] && x.memory == m.memory
    requires x.debug.threads.Keys == m.debug.threads.Keys - {current}
    requires RetiredWell(p, exec, s, order, done)
    ensures Settled(p, exec, s, x, order)
  {
    PartitionMoved(s, m, x, current, done);
  }

  lemma OthersSaved(p: Setup, exec: Instruction, s: Start, order: seq<nat>, threads: Threads, current: nat, next: nat)
    requires s.threads != map[] && Over(Files(s), order)
    requires AllSaved(p, exec, s, order, threads, current) && next in threads && next != current
    ensures AllSaved(p, exec, s, order, threads - {current}, next)
    ensures next in s.threads && Interleave(exec, Files(s), order).registers[next].pc != p.finish
  {
  }

  lemma RetiresWell(p: Setup, exec: Instruction, s: Start, threads: Threads, order: seq<nat>, current: nat)
    requires Spawned(p, s) && Over(Files(s), order) && current in threads
    requires AllSaved(p, exec, s, order, threads, current)
    requires Interleave(exec, Files(s), order).registers[current].pc == p.finish
    ensures RetiredWell(p, exec, s, order, threads[current].(finished := true))
    ensures threads[current].id == current
  {
  }

  /** Once a thread is taken out, the rest go on, or the main thread does. */
  lemma RetireResumes(p: Setup, exec: Instruction, s: Start, d: Debug, memory: Memory, order: seq<nat>, current: nat)
    requires s.threads != map[] && Over(Files(s), order) && LiveScheduler(p)
    requires d.status == Enabled(false) && current in d.threads
    requires AllSaved(p, exec, s, order, d.threads, current)
    requires Interleave(exec, Files(s), order).registers[current].pc == p.finish
    ensures Retire(p, d, current, s.stash).Resume?
    ensures var o := Retire(p, d, current, s.stash); var m := Machine(o.registers, memory, o.debug);
            o.debug.finished == d.finished + [d.threads[current].(finished := true)]
            && o.debug.threads.Keys == d.threads.Keys - {current}
            && Phase(p, exec, s, m, order)
            && (m.debug.running.Some? ==> !Traps(m))
            && (forall id :: id in m.debug.threads ==> id in s.threads && Live(p, exec, s, m, order, id))
  {
    var done := d.threads[current].(finished := true);
    var d' := d.(threads := d.threads - {current}, finished := d.finished + [done]);
    if d'.threads != map[] {
      var next := FirstKey(d'.threads);
      OthersSaved(p, exec, s, order, d.threads, current, next);
      SwitchResumes(p, exec, s, d', memory, order, next);
    }
  }

  /** The handler's statics once the running thread is saved. */
  function SavedDebug(m: Machine, current: nat): Debug
    requires current in m.debug.threads
  {
    m.debug.(threads := m.debug.threads[current := Save(m.debug.threads[current], m.cpu)])
  }

  lemma TrapDecides(p: Setup, m: Machine, current: nat, stash: Registers)
    requires m.debug.running == Some((current, stash)) && m.debug.status == Enabled(false)
    requires current in m.debug.threads
    ensures var o := if m.cpu.pc == p.finish then Retire(p, SavedDebug(m, current), current, stash)
                     else Switch(p, SavedDebug(m, current), current, stash);
            Trap(p, m) == if o.Panic? then None else Some(Machine(o.registers, m.memory, o.debug))
  {
    TrapIsHandle(p, m);
  }

  lemma SwitchSimulates(p: Setup, exec: Instruction, s: Start, m: Machine, order: seq<nat>, d: Debug, current: nat)
    requires LiveScheduler(p) && Settled(p, exec, s, m, order) && current in d.threads
    requires d.status == Enabled(false) && d.finished == m.debug.finished && d.threads.Keys == m.debug.threads.Keys
    requires AllSaved(p, exec, s, order, d.threads, current)
    requires current in s.threads && Interleave(exec, Files(s), order).registers[current].pc != p.finish
    ensures var o := Switch(p, d, current, s.stash);
            o.Resume? && var x := Machine(o.registers, m.memory, o.debug);
                         Simulates(p, exec, s, x, order) && !Traps(x)
  {
    SwitchResumes(p, exec, s, d, m.memory, order, current);
    var o := Switch(p, d, current, s.stash);
    SettledKept(p, exec, s, m, Machine(o.registers, m.memory, o.debug), order);
  }

  lemma RetireSimulates(p: Setup, exec: Instruction, s: Start, m: Machine, order: seq<nat>, d: Debug, current: nat)
    requires LiveScheduler(p) && Settled(p, exec, s, m, order) && current in d.threads
    requires d.status == Enabled(false) && d.finished == m.debug.finished && d.threads.Keys == m.debug.threads.Keys
    requires AllSaved(p, exec, s, order, d.threads, current)
    requires current in s.threads && Interleave(exec, Files(s), order).registers[current].pc == p.finish
    ensures var o := Retire(p, d, current, s.stash);
            o.Resume? && var x := Machine(o.registers, m.memory, o.debug);
                         Simulates(p, exec, s, x, order) && (x.debug.running.Some? ==> !Traps(x))
  {
    RetiresWell(p, exec, s, d.threads, order, current);
    RetireResumes(p, exec, s, d, m.memory, order, current);
    var o := Retire(p, d, current, s.stash);
    SettledMoved(p, exec, s, m, Machine(o.registers, m.memory, o.debug), order, current,
                 d.threads[current].(finished := true));
  }

  /** What the trap makes of the saved table simulates too. */
  lemma DecisionSimulates(p: Setup, exec: Instruction, s: Start, m: Machine, order: seq<nat>, d: Debug,
        current: nat) returns (x: Machine)
    requires LiveScheduler(p) && Settled(p, exec, s, m, order) && current in d.threads && current in s.threads
    requires d.status == Enabled(false) && d.finished == m.debug.finished && d.threads.Keys == m.debug.threads.Keys
    requires AllSaved(p, exec, s, order, d.threads, current)
    requires m.cpu.pc == Interleave(exec, Files(s), order).registers[current].pc
    ensures var o := if m.cpu.pc == p.finish then Retire(p, d, current, s.stash) else Switch(p, d, current, s.stash);
            o.Resume? && x == Machine(o.registers, m.memory, o.debug)
    ensures Simulates(p, exec, s, x, order) && (x.debug.running.Some? ==> !Traps(x))
  {
    if m.cpu.pc == p.finish {
      RetireSimulates(p, exec, s, m, order, d, current);
      var o := Retire(p, d, current, s.stash);
      x := Machine(o.registers, m.memory, o.debug);
    } else {
      SwitchSimulates(p, exec, s, m, order, d, current);
      var o := Switch(p, d, current, s.stash);
      x := Machine(o.registers, m.memory, o.debug);
    }
  }

  /** The running thread is saved, and everything else stays as it was. */
  lemma TrapSettles(p: Setup, exec: Instruction, s: Start, m: Machine, order: seq<nat>, current: nat)
    requires Simulates(p, exec, s, m, order) && m.debug.running.Some? && Traps(m)
    requires current == m.debug.running.value.0
    ensures m.debug.running == Some((current, s.stash)) && m.debug.status == Enabled(false)
    ensures current in m.debug.threads && current in s.threads && Settled(p, exec, s, m, order)
    ensures AllSaved(p, exec, s, order, SavedDebug(m, current).threads, current)
    ensures m.cpu.pc == Interleave(exec, Files(s), order).registers[current].pc
  {
    TrapSaves(p, exec, s, m, order, current);
  }

  /** No trap of a run panics, and none is visible to the threads. */
  lemma TrapSimulates(p: Setup, exec: Instruction, s: Start, m: Machine, order: seq<nat>)
    requires LiveScheduler(p) && Simulates(p, exec, s, m, order)
    requires m.debug.running.Some? && Traps(m)
    ensures Trap(p, m).Some? && Simulates(p, exec, s, Trap(p, m).value, order)
    ensures Trap(p, m).value.debug.running.Some? ==> !Traps(Trap(p, m).value)
  {
    var current := m.debug.running.value.0;
    TrapSettles(p, exec, s, m, order, current);
    var d := SavedDebug(m, current);
    assert d.threads.Keys == m.debug.threads.Keys;
    TrapDecides(p, m, current, s.stash);
    var x := DecisionSimulates(p, exec, s, m, order, d, current);
    assert Trap(p, m) == Some(x);
  }
}
