/**
 * The two-thread exploration of `umain`: its scheduler lets thread 0 run until its count
 * reaches A_STOP, then runs all of thread 1, then the rest of thread 0.
 */
module Exploration {
  import opened Bytes
  import opened Sequences
  import opened Debugging
  import opened Interleaving
  import InterleavingProof
  import opened InterleavingTheorems
  import opened InterleavingIsolation

  function Choose(stop: nat, current: nat, threads: Threads): nat {
    if current == 0 then
      if 0 in threads && threads[0].count >= stop && 1 in threads then 1 else 0
    else current
  }

  function Umain(stop: nat, trigger: word, finish: word): Setup {
    Setup((current, threads) => Choose(stop, current, threads), trigger, finish)
  }

  lemma UmainIsLive(stop: nat, trigger: word, finish: word)
    ensures LiveScheduler(Umain(stop, trigger, finish))
  {
  }

  /** How many instructions of thread 0 come before thread 1. */
  function Lead(stop: nat): nat {
    if stop <= 1 then 0 else stop - 1
  }

  /** `lead` instructions of thread 0, then `n1` of thread 1, then the rest of the `n0` of thread 0. */
  function Plan(lead: nat, n0: nat, n1: nat): seq<nat> {
    seq(n0 + n1, i => if lead <= i < lead + n1 then 1 else 0)
  }

  // ---------------------------------------------------------- hypotheses

  /** `at(i, r, m)` says that thread 0 can have these registers and this memory before instruction `i`. */
  type Line = (nat, Registers, Memory) -> bool

  /** From these registers and this memory on, the code of thread 0 is `n0` instructions in a row. */
  ghost predicate StraightLine(exec: Instruction, finish: word, regs: Registers, memory: Memory, at: Line, n0: nat) {
    at(0, regs, memory) && (forall r, m :: at(n0, r, m) ==> r.pc == finish)
    && forall i: nat, r, m {:trigger at(i, r, m), exec(r, m)} ::
         i < n0 && at(i, r, m) ==> r.pc != finish && at(i + 1, exec(r, m).0, exec(r, m).1)
  }

  /** The code of thread 1, run alone on this memory, takes `n1` instructions. */
  ghost predicate Takes(exec: Instruction, finish: word, regs: Registers, memory: Memory, n1: nat) {
    Alone(exec, regs, memory, n1).0.pc == finish
    && forall k :: 0 <= k < n1 ==> Alone(exec, regs, memory, k).0.pc != finish
  }

  /** One run of the search, and what is known of its two threads. */
  datatype Search = Search(setup: Setup, exec: Instruction, start: Start, at: Line, stop: nat, n0: nat, n1: nat) {
    function Ahead(): nat { Lead(stop) }

    function Whole(): seq<nat> { Plan(Lead(stop), n0, n1) }

    /** Thread 0 after `k` instructions, run alone. */
    function Zero(k: nat): (Registers, Memory)
      requires 0 in start.threads
    {
      Alone(exec, start.threads[0].registers, start.memory, k)
    }

    /** Thread 1 after `k` instructions, run alone on what thread 0 leaves it. */
    function One(k: nat): (Registers, Memory)
      requires 0 in start.threads && 1 in start.threads
    {
      Alone(exec, start.threads[1].registers, Zero(Ahead()).1, k)
    }

    ghost predicate Straight() {
      0 in start.threads
      && StraightLine(exec, setup.finish, start.threads[0].registers, start.memory, at, n0)
    }

    /** Thread 0 is a straight line that thread 1 does not knock it off, and thread 1 ends. */
    ghost predicate Fits() {
      setup == Umain(stop, setup.trigger, setup.finish) && ChangesPc(exec)
      && Spawned(setup, start) && start.threads.Keys == {0, 1} && start.finished == []
      && Ahead() < n0 && Straight()
      && Takes(exec, setup.finish, start.threads[1].registers, Zero(Ahead()).1, n1)
      && at(Ahead(), Zero(Ahead()).0, One(n1).1)
    }

    ghost predicate Simulated(m: Machine, order: seq<nat>) {
      Simulates(setup, exec, start, m, order)
    }
  }

  // --------------------------------------------------- states on the plan

  /** How many of the first `i` instructions of the plan are thread 0's. */
  function Zeros(q: Search, i: nat): nat {
    if i <= q.Ahead() then i else if i <= q.Ahead() + q.n1 then q.Ahead() else i - q.n1
  }

  lemma {:induction false} CountsOnPlan(q: Search, order: seq<nat>)
    requires q.Ahead() < q.n0 && order <= q.Whole()
    ensures Count(order, 0) == Zeros(q, |order|) && Count(order, 1) == |order| - Zeros(q, |order|)
    decreases |order|
  {
    if order != [] {
      CountsOnPlan(q, order[..|order| - 1]);
    }
  }

  /** However far thread 0 has run alone, it is that far down its line. */
  lemma {:induction false} ZeroOnLine(q: Search, k: nat)
    requires q.Straight() && k <= q.n0
    ensures q.at(k, q.Zero(k).0, q.Zero(k).1)
    decreases k
  {
    if k > 0 {
      ZeroOnLine(q, k - 1);
      LineSteps(q, k - 1, q.Zero(k - 1).0, q.Zero(k - 1).1);
    }
  }

  lemma LineSteps(q: Search, i: nat, r: Registers, m: Memory)
    requires q.Straight() && i <= q.n0 && q.at(i, r, m)
    ensures r.pc == q.setup.finish <==> i == q.n0
    ensures i < q.n0 ==> q.at(i + 1, q.exec(r, m).0, q.exec(r, m).1)
  {
    if i < q.n0 {
      assert q.at(i + 1, q.exec(r, m).0, q.exec(r, m).1);
    }
  }

  /**
   * First thread 0 runs as if alone; then thread 1 does, from the memory that thread 0 has
   * left; then thread 0 goes on down its line.
   */
  ghost predicate OnPlan(q: Search, a: Abstract, i: nat)
    requires q.start.threads.Keys == {0, 1}
  {
    var lead := q.Ahead();
    a.registers.Keys == {0, 1}
    && (i <= lead ==>
          (a.registers[0], a.memory) == q.Zero(i) && a.registers[1] == q.start.threads[1].registers)
    && (lead <= i <= lead + q.n1 ==>
          a.registers[0] == q.Zero(lead).0 && (a.registers[1], a.memory) == q.One(i - lead))
    && (lead + q.n1 <= i ==>
          q.at(i - q.n1, a.registers[0], a.memory) && a.registers[1] == q.One(q.n1).0)
  }

  lemma OneTakesTime(q: Search)
    requires q.Fits()
    ensures q.n1 > 0
  {
  }

  lemma OnPlanMoves(q: Search, a: Abstract, i: nat)
    requires q.Fits() && i < q.n0 + q.n1 && OnPlan(q, a, i)
    ensures OnPlan(q, StepThread(q.exec, a, q.Whole()[i]), i + 1)
  {
    OneTakesTime(q);
    if i < q.Ahead() {
      ZeroMoves(q, a, i);
    } else if i < q.Ahead() + q.n1 {
      OneMoves(q, a, i);
    } else {
      LineMoves(q, a, i);
    }
  }

  lemma ZeroMoves(q: Search, a: Abstract, i: nat)
    requires q.Fits() && q.n1 > 0 && i < q.Ahead() && OnPlan(q, a, i)
    ensures OnPlan(q, StepThread(q.exec, a, 0), i + 1)
  {
  }

  lemma OneMoves(q: Search, a: Abstract, i: nat)
    requires q.Fits() && q.Ahead() <= i < q.Ahead() + q.n1 && OnPlan(q, a, i)
    ensures OnPlan(q, StepThread(q.exec, a, 1), i + 1)
  {
    assert StepThread(q.exec, a, 1).registers[0] == q.Zero(q.Ahead()).0;
  }

  lemma LineMoves(q: Search, a: Abstract, i: nat)
    requires q.Fits() && q.n1 > 0 && q.Ahead() + q.n1 <= i < q.n0 + q.n1 && OnPlan(q, a, i)
    ensures OnPlan(q, StepThread(q.exec, a, 0), i + 1)
  {
    LineSteps(q, i - q.n1, a.registers[0], a.memory);
  }

  lemma PlanStarts(q: Search)
    requires q.Fits()
    ensures OnPlan(q, Files(q.start), 0)
  {
    OneTakesTime(q);
  }

  lemma {:induction false} PlanLeads(q: Search, order: seq<nat>)
    requires q.Fits() && order <= q.Whole()
    ensures Over(Files(q.start), order) && OnPlan(q, Interleave(q.exec, Files(q.start), order), |order|)
    decreases |order|
  {
    if order == [] {
      PlanStarts(q);
    } else {
      var n := |order| - 1;
      PlanLeads(q, order[..n]);
      var a := Interleave(q.exec, Files(q.start), order[..n]);
      OnPlanMoves(q, a, n);
      assert Interleave(q.exec, Files(q.start), order) == StepThread(q.exec, a, q.Whole()[n]);
    }
  }

  /** Thread 1 is done once its part of the plan is, and thread 0 at the end of it. */
  lemma PlanFinishes(q: Search, order: seq<nat>)
    requires q.Fits() && order <= q.Whole()
    ensures Over(Files(q.start), order)
    ensures var a := Interleave(q.exec, Files(q.start), order);
            (a.registers[0].pc == q.setup.finish <==> |order| == q.n0 + q.n1)
            && (a.registers[1].pc == q.setup.finish <==> |order| >= q.Ahead() + q.n1)
  {
    PlanLeads(q, order);
    OneTakesTime(q);
    PlanEnds(q, Interleave(q.exec, Files(q.start), order), |order|);
  }

  lemma PlanEnds(q: Search, a: Abstract, i: nat)
    requires q.Fits() && q.n1 > 0 && i <= q.n0 + q.n1 && OnPlan(q, a, i)
    ensures a.registers[0].pc == q.setup.finish <==> i == q.n0 + q.n1
    ensures a.registers[1].pc == q.setup.finish <==> i >= q.Ahead() + q.n1
  {
    if i < q.Ahead() + q.n1 {
      var k := if i < q.Ahead() then i else q.Ahead();
      ZeroOnLine(q, k);
      LineSteps(q, k, q.Zero(k).0, q.Zero(k).1);
      assert i < q.Ahead() ==> a.registers[1] == q.One(0).0;
    } else {
      LineSteps(q, i - q.n1, a.registers[0], a.memory);
    }
  }

  // -------------------------------------------- the run follows the plan

  /** `FINISHED_THREADS` gets thread 1 first and thread 0 last. */
  ghost predicate InOrder(retired: seq<Thread>) {
    |retired| <= 2 && (|retired| >= 1 ==> retired[0].id == 1) && (|retired| == 2 ==> retired[1].id == 0)
  }

  /** The thread of the last instruction; the run begins with thread 0. */
  function Latest(order: seq<nat>): nat {
    if order == [] then 0 else order[|order| - 1]
  }

  ghost predicate Follows(q: Search, m: Machine, order: seq<nat>) {
    order <= q.Whole() && InOrder(Retired(q.start, m))
    && (m.debug.running.Some? ==>
          if Traps(m) then m.debug.running.value.0 == Latest(order)
          else |order| < |q.Whole()| && m.debug.running.value.0 == q.Whole()[|order|])
  }

  lemma ExecuteFollows(q: Search, m: Machine, order: seq<nat>)
    requires Follows(q, m, order) && m.debug.running.Some? && !Traps(m) && Traps(Execute(q.exec, m))
    ensures Follows(q, Execute(q.exec, m), order + [m.debug.running.value.0])
  {
    assert Retired(q.start, Execute(q.exec, m)) == Retired(q.start, m);
  }

  lemma StepExecutes(q: Search, m: Machine, order: seq<nat>)
    requires Follows(q, m, order) && m.debug.running.Some? && !Traps(m) && Advances(q.setup, q.exec, m)
    ensures Follows(q, Step(q.setup, q.exec, m).value, order + Moved(m))
  {
    ExecuteFollows(q, m, order);
  }

  /** The trap saves the running thread, and if it is done takes it out. */
  function AfterSave(p: Setup, m: Machine, current: nat): Threads
    requires current in m.debug.threads
  {
    var threads := InterleavingProof.SavedDebug(m, current).threads;
    if m.cpu.pc == p.finish then threads - {current} else threads
  }

  /** After the save exactly the threads that are not at `thread_finished` are in the table. */
  lemma StaysIff(q: Search, m: Machine, order: seq<nat>, current: nat, id: nat)
    requires q.Simulated(m, order) && InTrap(m) && m.debug.running.value.0 == current && id in q.start.threads
    ensures current in m.debug.threads && current in q.start.threads && m.debug.threads[current].id == current
    ensures m.cpu.pc == Interleave(q.exec, Files(q.start), order).registers[current].pc
    ensures id in AfterSave(q.setup, m, current)
            <==> Interleave(q.exec, Files(q.start), order).registers[id].pc != q.setup.finish
  {
    assert Live(q.setup, q.exec, q.start, m, order, current);
    if id in m.debug.threads {
      assert Live(q.setup, q.exec, q.start, m, order, id);
    } else {
      GoneIsDone(q, m, order, id);
    }
  }

  /** A thread that is not in the table has reached `thread_finished`. */
  lemma GoneIsDone(q: Search, m: Machine, order: seq<nat>, id: nat)
    requires q.Simulated(m, order) && id in q.start.threads && id !in m.debug.threads
    ensures Interleave(q.exec, Files(q.start), order).registers[id].pc == q.setup.finish
  {
    var retired := Retired(q.start, m);
    var k :| 0 <= k < |retired| && retired[k].id == id;
    assert RetiredWell(q.setup, q.exec, q.start, order, retired[k]);
  }

  /** A first thread that is still in the table is counted once more than it has run. */
  lemma CountOfZero(q: Search, m: Machine, order: seq<nat>)
    requires q.Simulated(m, order) && InTrap(m) && q.start.threads.Keys == {0, 1} && 0 in m.debug.threads
    ensures m.debug.threads[0].count + (if m.debug.running.value.0 == 0 then 1 else 0) == Count(order, 0) + 1
  {
    TraceLength(q.exec, Files(q.start), order, 0);
    assert Live(q.setup, q.exec, q.start, m, order, 0);
  }

  /** What the scheduler sees when `i` instructions of the plan are done. */
  ghost predicate Sees(q: Search, threads: Threads, i: nat) {
    threads.Keys <= {0, 1}
    && (0 in threads <==> i < q.n0 + q.n1) && (1 in threads <==> i < q.Ahead() + q.n1)
    && (0 in threads ==> threads[0].count == Zeros(q, i) + 1)
  }

  /** The scheduler continues the plan. */
  lemma ChoosesPlan(q: Search, threads: Threads, order: seq<nat>)
    requires q.Ahead() < q.n0 && q.n1 > 0 && order < q.Whole() && Sees(q, threads, |order|)
    ensures var asked := if Latest(order) in threads then Latest(order) else 0;
            Choose(q.stop, asked, threads) == q.Whole()[|order|]
  {
  }

  /** A trap is due after these instructions, and this is what it finds. */
  ghost predicate Due(q: Search, m: Machine, order: seq<nat>, current: nat) {
    InTrap(m) && m.debug.running == Some((current, q.start.stash)) && m.debug.status == Enabled(false)
    && current == Latest(order) && current <= 1 && order <= q.Whole()
    && current in m.debug.threads && m.debug.threads[current].id == current
    && Sees(q, AfterSave(q.setup, m, current), |order|)
    && (m.cpu.pc == q.setup.finish <==> current !in AfterSave(q.setup, m, current))
    && Partition(q.start, m)
  }

  lemma SeesPlan(q: Search, m: Machine, order: seq<nat>, current: nat)
    requires q.Fits() && q.Simulated(m, order) && order <= q.Whole()
    requires InTrap(m) && m.debug.running.value.0 == current
    ensures current in m.debug.threads && m.debug.threads[current].id == current
    ensures Sees(q, AfterSave(q.setup, m, current), |order|)
  {
    PlanFinishes(q, order);
    StaysIff(q, m, order, current, 0);
    StaysIff(q, m, order, current, 1);
    CountIsSeen(q, m, order, current);
  }

  lemma CountIsSeen(q: Search, m: Machine, order: seq<nat>, current: nat)
    requires q.Ahead() < q.n0 && q.start.threads.Keys == {0, 1}
    requires q.Simulated(m, order) && order <= q.Whole()
    requires InTrap(m) && m.debug.running.value.0 == current
    ensures current in m.debug.threads && AfterSave(q.setup, m, current).Keys <= {0, 1}
    ensures 0 in AfterSave(q.setup, m, current) ==>
              AfterSave(q.setup, m, current)[0].count == Zeros(q, |order|) + 1
  {
    InTable(q, m, order, current);
    SaveCounts(q.setup, m, current);
    CountsOnPlan(q, order);
    if 0 in m.debug.threads {
      CountOfZero(q, m, order);
    }
  }

  lemma InTable(q: Search, m: Machine, order: seq<nat>, current: nat)
    requires q.Simulated(m, order) && InTrap(m) && m.debug.running.value.0 == current
    ensures current in m.debug.threads && m.debug.threads.Keys <= q.start.threads.Keys
  {
  }

  lemma SaveCounts(p: Setup, m: Machine, current: nat)
    requires current in m.debug.threads
    ensures AfterSave(p, m, current).Keys <= m.debug.threads.Keys
    ensures 0 in AfterSave(p, m, current) ==>
              AfterSave(p, m, current)[0].count == m.debug.threads[0].count + if current == 0 then 1 else 0
  {
  }

  lemma TrapIsDue(q: Search, m: Machine, order: seq<nat>) returns (current: nat)
    requires q.Fits() && q.Simulated(m, order) && Follows(q, m, order) && InTrap(m)
    ensures Due(q, m, order, current)
  {
    current := m.debug.running.value.0;
    SeesPlan(q, m, order, current);
  }

  /** What the trap does, in terms of the table that the scheduler sees. */
  lemma TrapOfTwo(p: Setup, m: Machine, current: nat, stash: Registers, stop: nat)
    requires p == Umain(stop, p.trigger, p.finish)
    requires m.debug.running == Some((current, stash)) && m.debug.status == Enabled(false)
    requires current in m.debug.threads && AfterSave(p, m, current).Keys <= {0, 1} && current <= 1
    ensures var seen := AfterSave(p, m, current);
            if seen == map[] then Trap(p, m).Some? && Trap(p, m).value.debug.running.None?
            else
              var asked := if current in seen then current else if 0 in seen then 0 else 1;
              asked in seen && Trap(p, m).Some?
              && Trap(p, m).value.debug.running == Some((Choose(stop, asked, seen), stash))
    ensures Trap(p, m).value.debug.finished
            == m.debug.finished
               + if m.cpu.pc == p.finish
                 then [InterleavingProof.SavedDebug(m, current).threads[current].(finished := true)] else []
  {
    InterleavingProof.TrapDecides(p, m, current, stash);
  }

  lemma RetiredOfTwo(live: set<nat>, retired: seq<Thread>)
    requires Splits({0, 1}, live, retired)
    ensures 0 in live && 1 in live ==> retired == []
    ensures 0 in live && 1 !in live ==> |retired| == 1 && retired[0].id == 1
  {
    if |retired| > 0 {
      assert retired[0].id !in live;
    }
    if |retired| > 1 {
      assert retired[1].id !in live && retired[0].id != retired[1].id;
    }
  }

  lemma TrapContinues(q: Search, m: Machine, order: seq<nat>, current: nat)
    requires q.setup == Umain(q.stop, q.setup.trigger, q.setup.finish) && q.Ahead() < q.n0 && q.n1 > 0
    requires Due(q, m, order, current)
    ensures Trap(q.setup, m).Some?
    ensures var x := Trap(q.setup, m).value;
            x.debug.running.Some? ==>
              |order| < |q.Whole()| && x.debug.running.value.0 == q.Whole()[|order|]
  {
    TrapOfTwo(q.setup, m, current, q.start.stash, q.stop);
    if |order| < |q.Whole()| {
      assert 0 in AfterSave(q.setup, m, current);
      ChoosesPlan(q, AfterSave(q.setup, m, current), order);
    } else {
      assert AfterSave(q.setup, m, current).Keys == {};
    }
  }

  lemma RetiredNext(q: Search, m: Machine, order: seq<nat>, current: nat, x: Machine)
    requires q.start.threads.Keys == {0, 1} && q.Ahead() < q.n0 && Due(q, m, order, current)
    requires InOrder(Retired(q.start, m))
    requires x.debug.finished == m.debug.finished
               + if m.cpu.pc == q.setup.finish
                 then [InterleavingProof.SavedDebug(m, current).threads[current].(finished := true)] else []
    ensures InOrder(Retired(q.start, x))
  {
    if m.cpu.pc == q.setup.finish {
      var done := InterleavingProof.SavedDebug(m, current).threads[current].(finished := true);
      RetiredOfTwo(m.debug.threads.Keys, Retired(q.start, m));
      assert Retired(q.start, x) == Retired(q.start, m) + [done];
    } else {
      assert Retired(q.start, x) == Retired(q.start, m);
    }
  }

  lemma TrapFollows(q: Search, m: Machine, order: seq<nat>, current: nat)
    requires q.setup == Umain(q.stop, q.setup.trigger, q.setup.finish) && q.Ahead() < q.n0 && q.n1 > 0
    requires q.start.threads.Keys == {0, 1} && Due(q, m, order, current) && InOrder(Retired(q.start, m))
    ensures Trap(q.setup, m).Some?
    ensures !InTrap(Trap(q.setup, m).value) ==> Follows(q, Trap(q.setup, m).value, order)
  {
    TrapContinues(q, m, order, current);
    TrapOfTwo(q.setup, m, current, q.start.stash, q.stop);
    RetiredNext(q, m, order, current, Trap(q.setup, m).value);
  }

  lemma StepTraps(q: Search, m: Machine, order: seq<nat>, current: nat)
    requires q.setup == Umain(q.stop, q.setup.trigger, q.setup.finish) && q.Ahead() < q.n0 && q.n1 > 0
    requires q.start.threads.Keys == {0, 1} && Due(q, m, order, current) && InOrder(Retired(q.start, m))
    requires Advances(q.setup, q.exec, m)
    ensures Follows(q, Step(q.setup, q.exec, m).value, order + Moved(m))
  {
    TrapFollows(q, m, order, current);
    assert order + [] == order;
  }

  lemma StepFollows(q: Search, m: Machine, order: seq<nat>)
    requires q.Fits() && q.Simulated(m, order) && Follows(q, m, order)
    requires m.debug.running.Some? && Advances(q.setup, q.exec, m)
    ensures Follows(q, Step(q.setup, q.exec, m).value, order + Moved(m))
  {
    if Traps(m) {
      OneTakesTime(q);
      var current := TrapIsDue(q, m, order);
      StepTraps(q, m, order, current);
    } else {
      StepExecutes(q, m, order);
    }
  }

  lemma StepKeepsBoth(q: Search, m: Machine, order: seq<nat>)
    requires q.Fits() && q.Simulated(m, order) && Follows(q, m, order) && m.debug.running.Some?
    ensures Advances(q.setup, q.exec, m)
    ensures q.Simulated(Step(q.setup, q.exec, m).value, order + Moved(m))
    ensures Follows(q, Step(q.setup, q.exec, m).value, order + Moved(m))
  {
    UmainIsLive(q.stop, q.setup.trigger, q.setup.finish);
    StepSimulates(q.setup, q.exec, q.start, m, order);
    StepFollows(q, m, order);
  }

  // ------------------------------------------------------------ theorems

  ghost function Following(q: Search): (Machine, seq<nat>) -> bool {
    (m: Machine, order: seq<nat>) => q.Simulated(m, order) && Follows(q, m, order)
  }

  lemma FollowingIsKept(q: Search)
    requires q.Fits()
    ensures Kept(q.setup, q.exec, Following(q))
  {
    forall m, order | q.Simulated(m, order) && Follows(q, m, order) && m.debug.running.Some?
      ensures Advances(q.setup, q.exec, m)
      ensures q.Simulated(Step(q.setup, q.exec, m).value, order + Moved(m))
      ensures Follows(q, Step(q.setup, q.exec, m).value, order + Moved(m))
    {
      StepKeepsBoth(q, m, order);
    }
  }

  lemma StartFollows(q: Search)
    requires q.Fits()
    ensures Following(q)(Initial(q.start), [])
  {
    InterleavingProof.StartSimulates(q.setup, q.exec, q.start);
    assert Retired(q.start, Initial(q.start)) == [];
  }

  /** The machine after at most `n` steps of the run, if nothing has panicked, and the schedule until then. */
  ghost predicate Reached(q: Search, n: nat, m: Machine, order: seq<nat>)
    requires q.start.threads != map[]
  {
    Run(q.setup, q.exec, Initial(q.start), n) == Some(m)
    && order == Schedule(q.setup, q.exec, Initial(q.start), n)
  }

  lemma RunFollows(q: Search, n: nat) returns (m: Machine, order: seq<nat>)
    requires q.Fits()
    ensures Reached(q, n, m, order) && Follows(q, m, order)
  {
    FollowingIsKept(q);
    StartFollows(q);
    RunKeeps(q.setup, q.exec, Following(q), Initial(q.start), [], n);
    order := Schedule(q.setup, q.exec, Initial(q.start), n);
    m := Run(q.setup, q.exec, Initial(q.start), n).value;
    assert [] + order == order;
  }

  lemma OnlyWholePlan(q: Search, order: seq<nat>)
    requires q.Fits() && Over(Files(q.start), order) && order <= q.Whole()
    requires Interleave(q.exec, Files(q.start), order).registers[0].pc == q.setup.finish
    ensures order == q.Whole()
  {
    PlanFinishes(q, order);
  }

  lemma RunCompletesPlan(q: Search, n: nat) returns (m: Machine)
    requires q.Fits() && n >= 2 * (q.n0 + q.n1) + 2
    ensures Reached(q, n, m, q.Whole()) && HandedBack(q.start, m) && InOrder(m.debug.finished)
  {
    var order;
    m, order := RunFollows(q, n);
    UmainIsLive(q.stop, q.setup.trigger, q.setup.finish);
    assert |order| <= q.n0 + q.n1;
    RunOver(q.setup, q.exec, q.start, q.n0 + q.n1, n);
    var t0 := AllRetired(q.setup, q.exec, q.start, n, 0);
    OnlyWholePlan(q, order);
    assert Retired(q.start, m) == m.debug.finished;
  }

  lemma BothInOrder(retired: seq<Thread>, t0: Thread, t1: Thread)
    requires InOrder(retired) && t0 in retired && t0.id == 0 && t1 in retired && t1.id == 1
    ensures retired == [t1, t0]
  {
  }

  /** What is on record of a thread of a complete run. */
  lemma OnRecord(q: Search, n: nat, m: Machine, order: seq<nat>, id: nat) returns (t: Thread)
    requires ChangesPc(q.exec) && LiveScheduler(q.setup) && Spawned(q.setup, q.start) && id in q.start.threads
    requires Reached(q, n, m, order) && HandedBack(q.start, m)
    ensures t in Retired(q.start, m) && t.id == id && t.finished && t.stackTop == q.start.threads[id].stackTop
    ensures t.count == Count(order, id) + if id == FirstKey(q.start.threads) then 1 else 0
  {
    t := AllRetired(q.setup, q.exec, q.start, n, id);
    RetiredThread(q.setup, q.exec, q.start, n, t);
  }

  /** The two threads of a complete run as they come off `FINISHED_THREADS`. */
  ghost predicate BothFinished(q: Search, finished: seq<Thread>)
    requires 0 in q.start.threads && 1 in q.start.threads
  {
    |finished| == 2 && finished[0].id == 1 && finished[1].id == 0 && finished[0].finished && finished[1].finished
    && finished[0].count == q.n1 && finished[1].count == q.n0 + 1
    && finished[0].stackTop == q.start.threads[1].stackTop && finished[1].stackTop == q.start.threads[0].stackTop
  }

  /**
   * A run with A_STOP = `stop` executes `Lead(stop)` instructions of thread 0, all of
   * thread 1 and the rest of thread 0; thread 1 is retired first, and the counts are one
   * more than the instructions of thread 0 and the instructions of thread 1.
   */
  lemma RunIsPlan(q: Search, n: nat) returns (m: Machine)
    requires q.Fits() && n >= 2 * (q.n0 + q.n1) + 2
    ensures Reached(q, n, m, q.Whole()) && HandedBack(q.start, m) && BothFinished(q, m.debug.finished)
  {
    m := RunCompletesPlan(q, n);
    UmainIsLive(q.stop, q.setup.trigger, q.setup.finish);
    CountsOnPlan(q, q.Whole());
    var t0 := OnRecord(q, n, m, q.Whole(), 0);
    var t1 := OnRecord(q, n, m, q.Whole(), 1);
    BothInOrder(m.debug.finished, t0, t1);
  }
}
