/**
 * The debugger driving one CPU simulates threads that run interleaved, one instruction at
 * a time, over shared memory.  An instruction is an arbitrary function of a register file
 * and memory that changes the pc; condition flags are not part of a register file.
 */
module Interleaving {
  import opened Bytes
  import opened Debugging
  import Crc

  type Memory = map<word, byte>
  type Instruction = (Registers, Memory) -> (Registers, Memory)

  /** The CPU, the memory and the debugger's statics. */
  datatype Machine = Machine(cpu: Registers, memory: Memory, debug: Debug)

  /** A mismatch breakpoint traps before every instruction but the one at its address. */
  predicate Traps(m: Machine) {
    m.debug.status.Enabled? && (m.debug.status.matching <==> m.cpu.pc == m.debug.address)
  }

  /** A trap goes through the frame in both directions. */
  function Trap(p: Setup, m: Machine): Option<Machine> {
    match Handle(p, m.debug, Decode(m.cpu.pc, Encode(m.cpu)))
    case Panic => None
    case Resume(d, regs) => Some(Machine(Decode(regs.pc, Encode(regs)), m.memory, d))
  }

  function Execute(exec: Instruction, m: Machine): Machine {
    var (cpu, memory) := exec(m.cpu, m.memory);
    m.(cpu := cpu, memory := memory)
  }

  function Step(p: Setup, exec: Instruction, m: Machine): Option<Machine> {
    if Traps(m) then Trap(p, m) else Some(Execute(exec, m))
  }

  /** At most `n` steps of the machine; the run is over when the debugger is. */
  function Run(p: Setup, exec: Instruction, m: Machine, n: nat): Option<Machine>
    decreases n
  {
    if n == 0 || m.debug.running.None? then Some(m)
    else
      match Step(p, exec, m)
      case None => None
      case Some(next) => Run(p, exec, next, n - 1)
  }

  /** The threads whose instructions those steps execute. */
  function Schedule(p: Setup, exec: Instruction, m: Machine, n: nat): seq<nat>
    decreases n
  {
    if n == 0 || m.debug.running.None? then []
    else
      match Step(p, exec, m)
      case None => []
      case Some(next) =>
        (if Traps(m) then [] else [m.debug.running.value.0]) + Schedule(p, exec, next, n - 1)
  }

  /** The number of traps among them. */
  function TrapCount(p: Setup, exec: Instruction, m: Machine, n: nat): nat
    decreases n
  {
    if n == 0 || m.debug.running.None? then 0
    else
      match Step(p, exec, m)
      case None => 0
      case Some(next) => (if Traps(m) then 1 else 0) + TrapCount(p, exec, next, n - 1)
  }

  // -------------------------------------------------- the abstract machine

  /** Any number of register files over one memory. */
  datatype Abstract = Abstract(registers: map<nat, Registers>, memory: Memory)

  function StepThread(exec: Instruction, a: Abstract, t: nat): Abstract
    requires t in a.registers
  {
    var (regs, memory) := exec(a.registers[t], a.memory);
    Abstract(a.registers[t := regs], memory)
  }

  ghost predicate Over(a: Abstract, order: seq<nat>) {
    forall t :: t in order ==> t in a.registers
  }

  /** One instruction of each thread named, in that order. */
  function Interleave(exec: Instruction, a: Abstract, order: seq<nat>): (b: Abstract)
    requires Over(a, order)
    ensures b.registers.Keys == a.registers.Keys
  {
    if order == [] then a
    else
      var n := |order| - 1;
      StepThread(exec, Interleave(exec, a, order[..n]), order[n])
  }

  /** The register files that the steps of thread `t` produce, in order. */
  function Trace(exec: Instruction, a: Abstract, order: seq<nat>, t: nat): seq<Registers>
    requires Over(a, order)
  {
    if order == [] then []
    else
      var n := |order| - 1;
      Trace(exec, a, order[..n], t)
      + (if order[n] == t then [Interleave(exec, a, order).registers[t]] else [])
  }

  /** No thread is run once it has reached `thread_finished`. */
  ghost predicate Fair(exec: Instruction, a: Abstract, finish: word, order: seq<nat>) {
    Over(a, order) &&
    forall i {:trigger order[..i]} :: 0 <= i < |order| ==>
      Interleave(exec, a, order[..i]).registers[order[i]].pc != finish
  }

  function DigestOf(files: seq<Registers>): Crc.Register {
    if files == [] then Crc.ZERO
    else Record(DigestOf(files[..|files| - 1]), files[|files| - 1])
  }

  // ------------------------------------------------------------ the start

  /** The main thread's registers are stashed and the first thread's installed. */
  datatype Start = Start(threads: Threads, memory: Memory, stash: Registers,
                         finished: seq<Thread>, address: word)

  ghost predicate ChangesPc(exec: Instruction) {
    forall regs, memory :: exec(regs, memory).0.pc != regs.pc
  }

  ghost predicate LiveScheduler(p: Setup) {
    forall current, threads :: current in threads ==> p.scheduler(current, threads) in threads
  }

  /** Threads as spawned: under their own ids, nothing counted, and not finished already. */
  ghost predicate Spawned(p: Setup, s: Start) {
    s.threads != map[] && s.address != s.threads[FirstKey(s.threads)].registers.pc &&
    forall id :: id in s.threads ==>
      var t := s.threads[id];
      t.id == id && !t.finished && t.count == 0 && t.crc == Crc.ZERO && t.registers.pc != p.finish
  }

  function Initial(s: Start): Machine
    requires s.threads != map[]
  {
    var first := FirstKey(s.threads);
    Machine(s.threads[first].registers, s.memory,
      Debug(s.threads, s.finished, Some((first, s.stash)), s.address, Enabled(false)))
  }

  function Files(s: Start): Abstract {
    Abstract(map id | id in s.threads :: s.threads[id].registers, s.memory)
  }

  /** What a thread's digest covers: the first thread also traps before its first instruction. */
  function Recorded(exec: Instruction, s: Start, order: seq<nat>, t: nat): seq<Registers>
    requires s.threads != map[] && Over(Files(s), order)
  {
    (if t == FirstKey(s.threads) then [s.threads[t].registers] else [])
    + Trace(exec, Files(s), order, t)
  }

  /** The trap at `trigger_interleaving` starts a run without setting a breakpoint address. */
  lemma TriggerStarts(p: Setup, exec: Instruction, m: Machine)
    requires m.debug.status == Enabled(false) && m.debug.running == None && m.debug.threads != map[]
    requires m.cpu.pc == p.trigger && m.debug.address != p.trigger
    requires var first := FirstKey(m.debug.threads); m.debug.threads[first].id == first
    ensures Step(p, exec, m)
            == Some(Initial(Start(m.debug.threads, m.memory, m.cpu, m.debug.finished, m.debug.address)))
  {
    FrameRoundTrip(m.cpu, 0, Encode(m.cpu));
    var first := m.debug.threads[FirstKey(m.debug.threads)].registers;
    FrameRoundTrip(first, 0, Encode(first));
  }

  /** Outside a run the debugger single-steps the main thread without changing what it does. */
  lemma MainThreadIsTransparent(p: Setup, exec: Instruction, m: Machine)
    requires m.debug.status == Enabled(false) && m.debug.running == None
    requires m.cpu.pc != p.trigger && m.cpu.pc != m.debug.address
    ensures Step(p, exec, m) == Some(m.(debug := m.debug.(address := m.cpu.pc)))
    ensures Step(p, exec, Step(p, exec, m).value)
            == Some(Execute(exec, m).(debug := m.debug.(address := m.cpu.pc)))
  {
    FrameRoundTrip(m.cpu, 0, Encode(m.cpu));
  }

  lemma TrapIsHandle(p: Setup, m: Machine)
    ensures Trap(p, m) == match Handle(p, m.debug, m.cpu)
                          case Panic => None
                          case Resume(d, regs) => Some(Machine(regs, m.memory, d))
  {
    FrameRoundTrip(m.cpu, 0, Encode(m.cpu));
    match Handle(p, m.debug, m.cpu)
    case Panic =>
    case Resume(d, regs) => FrameRoundTrip(regs, 0, Encode(regs));
  }

  // ------------------------------------------------------------ simulation

  /** A thread keeps its id, function and stack. */
  ghost predicate Descends(t: Thread, spawned: Thread) {
    t.id == spawned.id && t.entry == spawned.entry && t.stackTop == spawned.stackTop
  }

  /** A saved thread holds exactly what its own steps produced. */
  ghost predicate Saves(t: Thread, spawned: Thread, regs: Registers, recorded: seq<Registers>) {
    Descends(t, spawned) && t.registers == regs && t.count == |recorded| && t.crc == DigestOf(recorded)
  }

  /** The running thread has yet to be saved: its last register file is in the CPU. */
  ghost predicate Pending(t: Thread, spawned: Thread, regs: Registers, recorded: seq<Registers>) {
    Descends(t, spawned) && recorded != [] && recorded[|recorded| - 1] == regs
    && t.count == |recorded| - 1 && t.crc == DigestOf(recorded[..|recorded| - 1])
  }

  ghost predicate Live(p: Setup, exec: Instruction, s: Start, m: Machine, order: seq<nat>, id: nat)
    requires s.threads != map[] && Over(Files(s), order) && id in s.threads && id in m.debug.threads
  {
    var regs := Interleave(exec, Files(s), order).registers[id];
    var recorded := Recorded(exec, s, order, id);
    var t := m.debug.threads[id];
    !t.finished && if m.debug.running.Some? && id == m.debug.running.value.0 && Traps(m)
                   then m.cpu == regs && Pending(t, s.threads[id], regs, recorded)
                   else regs.pc != p.finish && Saves(t, s.threads[id], regs, recorded)
  }

  /** The threads retired in this run, in the order of their retirement. */
  function Retired(s: Start, m: Machine): seq<Thread> {
    if |s.finished| <= |m.debug.finished| then m.debug.finished[|s.finished|..] else []
  }

  ghost predicate RetiredWell(p: Setup, exec: Instruction, s: Start, order: seq<nat>, t: Thread)
    requires s.threads != map[] && Over(Files(s), order)
  {
    t.finished && t.id in s.threads
    && var regs := Interleave(exec, Files(s), order).registers[t.id];
       regs.pc == p.finish && Saves(t, s.threads[t.id], regs, Recorded(exec, s, order, t.id))
  }

  /** The ids split into those in the table and, once each, those retired. */
  ghost predicate Splits(all: set<nat>, live: set<nat>, retired: seq<Thread>) {
    live <= all
    && (forall i :: 0 <= i < |retired| ==> retired[i].id in all && retired[i].id !in live)
    && (forall i, j :: 0 <= i < j < |retired| ==> retired[i].id != retired[j].id)
    && (forall id :: id in all && id !in live ==> exists i :: 0 <= i < |retired| && retired[i].id == id)
  }

  /** `THREADS` and `FINISHED_THREADS` partition the threads of the run. */
  ghost predicate Partition(s: Start, m: Machine) {
    s.finished <= m.debug.finished && Splits(s.threads.Keys, m.debug.threads.Keys, Retired(s, m))
  }

  /** Who is running, and from where. */
  ghost predicate Phase(p: Setup, exec: Instruction, s: Start, m: Machine, order: seq<nat>)
    requires s.threads != map[] && Over(Files(s), order)
  {
    match m.debug.running
    case None => m.debug.threads == map[] && m.debug.status == Disabled && m.cpu == s.stash
    case Some((current, stash)) =>
      current in m.debug.threads && stash == s.stash && m.debug.status == Enabled(false)
      && current in s.threads && m.cpu == Interleave(exec, Files(s), order).registers[current]
      && (!Traps(m) ==> m.cpu == m.debug.threads[current].registers)
  }

  /** What holds of memory and of the retired threads, whichever thread runs next. */
  ghost predicate Settled(p: Setup, exec: Instruction, s: Start, m: Machine, order: seq<nat>) {
    Spawned(p, s) && Fair(exec, Files(s), p.finish, order)
    && m.memory == Interleave(exec, Files(s), order).memory && Partition(s, m)
    && (forall i :: 0 <= i < |Retired(s, m)| ==> RetiredWell(p, exec, s, order, Retired(s, m)[i]))
  }

  /** The machine is where running the threads in this order leads. */
  ghost predicate Simulates(p: Setup, exec: Instruction, s: Start, m: Machine, order: seq<nat>) {
    Settled(p, exec, s, m, order) && Phase(p, exec, s, m, order)
    && (forall id :: id in m.debug.threads ==> Live(p, exec, s, m, order, id))
  }
}
