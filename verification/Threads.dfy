/**
 * Cooperative threads: the hand-written context switches, instruction by instruction, and
 * the thread state that they go through.  Data addresses count words and code addresses
 * count instructions, so a stack of `STACK` words ends at `stack + STACK`, and an
 * instruction that reads the pc sees its own address plus two.
 */
module Threads {
  import opened Bytes

  const STACK := 2048
  const THREAD_COUNT := 10

  /** A word that was never written reads as zero. */
  type Memory = map<int, int>

  function At(mem: Memory, a: int): int {
    if a in mem then mem[a] else 0
  }

  /** The registers that a procedure preserves, next to sp: section 6.1.1 of AAPCS32. */
  datatype Saved = Saved(r4: int, r5: int, r6: int, r7: int, r8: int, r9: int, r10: int, r11: int)

  datatype Cpu = Cpu(r0: int, r1: int, r2: int, r3: int, saved: Saved, r12: int, sp: int, lr: int, pc: int)

  /** `stack` is the lowest address of the thread's own stack. */
  datatype Thread = Thread(id: nat, stack: int, sp: int, pc: int)

  /** Where the three routines, the register dump and the stack of the main thread are. */
  datatype Layout = Layout(trampoline: int, call: int, yielding: int, dump: int, mainLow: int, mainHigh: int) {
    /** Where a function that was entered through the trampoline returns to. */
    function Landing(): int { trampoline + 5 }

    function Reentry(): int { call + 13 }

    function YieldReentry(): int { yielding + 7 }

    ghost predicate Fits() {
      trampoline != YieldReentry() && mainLow + 2 <= mainHigh && (dump + 11 <= mainLow || mainHigh <= dump)
    }
  }

  /** The processor, memory and `THREAD_STATE`; `running` says that a thread has the CPU. */
  datatype State = State(cpu: Cpu, mem: Memory, queue: seq<Thread>, current: Option<Thread>,
                         counter: nat, returnPc: Option<int>, running: bool)

  ghost predicate Holds(mem: Memory, at: int, s: Saved) {
    At(mem, at) == s.r4 && At(mem, at + 1) == s.r5 && At(mem, at + 2) == s.r6 && At(mem, at + 3) == s.r7
    && At(mem, at + 4) == s.r8 && At(mem, at + 5) == s.r9 && At(mem, at + 6) == s.r10 && At(mem, at + 7) == s.r11
  }

  function StoreSaved(mem: Memory, at: int, s: Saved): (mem': Memory)
    ensures Holds(mem', at, s) && SameBut(mem, mem', at, at + 8)
  {
    mem[at := s.r4][at + 1 := s.r5][at + 2 := s.r6][at + 3 := s.r7]
       [at + 4 := s.r8][at + 5 := s.r9][at + 6 := s.r10][at + 7 := s.r11]
  }

  function LoadSaved(mem: Memory, at: int): (s: Saved)
    ensures Holds(mem, at, s)
  {
    Saved(At(mem, at), At(mem, at + 1), At(mem, at + 2), At(mem, at + 3),
          At(mem, at + 4), At(mem, at + 5), At(mem, at + 6), At(mem, at + 7))
  }

  ghost predicate SameBut(mem: Memory, mem': Memory, low: int, high: int) {
    forall a :: !(low <= a < high) ==> At(mem', a) == At(mem, a)
  }

  /** What a procedure call keeps, and where it returns to. */
  datatype Context = Context(saved: Saved, sp: int, lr: int)

  function ContextOf(cpu: Cpu): Context {
    Context(cpu.saved, cpu.sp, cpu.lr)
  }

  /** The eleven words that `call_and_save_stack` leaves in the dump. */
  ghost predicate DumpHolds(l: Layout, mem: Memory, c: Context) {
    Holds(mem, l.dump, c.saved) && At(mem, l.dump + 9) == c.sp && At(mem, l.dump + 10) == c.lr
  }

  ghost predicate Returned(cpu: Cpu, c: Context) {
    ContextOf(cpu) == c && cpu.pc == c.lr
  }

  predicate Apart(a: int, n: nat, b: int, k: nat) {
    a + n <= b || b + k <= a
  }

  /** A thread's stack is neither the main thread's nor the dump. */
  predicate Clear(l: Layout, stack: int) {
    Apart(stack, STACK, l.dump, 11) && (stack + STACK <= l.mainLow || l.mainHigh <= stack)
  }

  /** A queued thread is either new, with two words on its stack, or in a yield, with nine. */
  ghost predicate Parked(l: Layout, t: Thread) {
    Clear(l, t.stack)
    && (if t.pc == l.trampoline then t.sp == t.stack + STACK - 2
        else t.pc == l.YieldReentry() && t.stack <= t.sp && t.sp + 9 <= t.stack + STACK)
  }

  // ------------------------------------------------- what each switch does

  /** A new thread enters its function with its argument; another returns from its yield. */
  ghost predicate Resumes(l: Layout, t: Thread, mem: Memory, cpu: Cpu) {
    if t.pc == l.trampoline then
      cpu.pc == At(mem, t.sp + 1) && cpu.r0 == At(mem, t.sp) && cpu.sp == t.sp + 2 && cpu.lr == l.Landing()
    else
      Holds(mem, t.sp, cpu.saved) && cpu.lr == At(mem, t.sp + 8) && cpu.sp == t.sp + 9 && cpu.pc == cpu.lr
  }

  lemma ResumesFromSame(l: Layout, t: Thread, mem: Memory, mem': Memory, cpu: Cpu)
    requires Parked(l, t) && Resumes(l, t, mem', cpu)
    requires forall a :: t.stack <= a < t.stack + STACK ==> At(mem', a) == At(mem, a)
    ensures Resumes(l, t, mem, cpu)
  {
  }

  /** A zeroed stack with the two words that the trampoline pops. */
  function NewStack(mem: Memory, stack: int, code: int, arg: int): (mem': Memory)
    ensures At(mem', stack + STACK - 2) == arg && At(mem', stack + STACK - 1) == code
    ensures forall a :: stack <= a < stack + STACK - 2 ==> At(mem', a) == 0
    ensures SameBut(mem, mem', stack, stack + STACK)
  {
    var zeroed := map a | a in mem :: if stack <= a < stack + STACK then 0 else mem[a];
    zeroed[stack + STACK - 1 := code][stack + STACK - 2 := arg]
  }

  /** `start` takes the first thread and calls it, to come back to `back`. */
  ghost predicate Dispatched(l: Layout, back: int, s: State, s': State) {
    s.queue != [] && !s.running && s'.running && s'.counter == s.counter
    && s'.queue == s.queue[1..] && s'.current == Some(s.queue[0]) && s'.returnPc == Some(l.Reentry())
    && DumpHolds(l, s'.mem, Context(s.cpu.saved, s.cpu.sp, back))
    && Resumes(l, s.queue[0], s.mem, s'.cpu)
    && forall a :: !(l.mainLow <= a < s.cpu.sp) && !(l.dump <= a < l.dump + 11) ==> At(s'.mem, a) == At(s.mem, a)
  }

  /** The CPU goes back to where the dump says. */
  ghost predicate Left(l: Layout, s: State, s': State) {
    s.running && s.current.Some? && !s'.running && s'.counter == s.counter && s'.returnPc == s.returnPc
    && DumpHolds(l, s.mem, ContextOf(s'.cpu)) && s'.cpu.pc == s'.cpu.lr
    && SameBut(s.mem, s'.mem, s.current.value.stack, s.cpu.sp)
  }

  /** The running thread calls `yield_save_context` with `thread_yield`'s return pc. */
  ghost predicate Yielded(l: Layout, s: State, s': State) {
    Left(l, s, s') && s'.current == None
    && s'.queue == s.queue + [s.current.value.(sp := s.cpu.sp - 9, pc := l.YieldReentry())]
    && Holds(s'.mem, s.cpu.sp - 9, s.cpu.saved) && At(s'.mem, s.cpu.sp - 1) == s.cpu.lr
  }

  ghost predicate Exited(l: Layout, s: State, s': State) {
    Left(l, s, s') && s'.current == s.current && s'.queue == s.queue
  }

  /** `fork` with a fresh stack, as any procedure called with its frames above `low`. */
  ghost predicate Forked(l: Layout, code: int, arg: int, stack: int, low: int, s: State, s': State) {
    s'.queue == s.queue + [Thread(s.counter, stack, stack + STACK - 2, l.trampoline)] && s'.counter == s.counter + 1
    && s'.current == s.current && s'.returnPc == s.returnPc && s'.running == s.running
    && s'.cpu.saved == s.cpu.saved && s'.cpu.sp == s.cpu.sp && s'.cpu.pc == s.cpu.lr
    && At(s'.mem, stack + STACK - 2) == arg && At(s'.mem, stack + STACK - 1) == code
    && (forall a :: stack <= a < stack + STACK - 2 ==> At(s'.mem, a) == 0)
    && forall a :: !(low <= a < s.cpu.sp) && !(stack <= a < stack + STACK) ==> At(s'.mem, a) == At(s.mem, a)
  }

  class Processor {
    const l: Layout
    var r0: int
    var r1: int
    var r2: int
    var r3: int
    var saved: Saved
    var r12: int
    var sp: int
    var lr: int
    var pc: int
    var mem: Memory
    var queue: seq<Thread>
    var current: Option<Thread>
    var counter: nat
    var returnPc: Option<int>
    var running: bool

    function Registers(): Cpu
      reads this
    {
      Cpu(r0, r1, r2, r3, saved, r12, sp, lr, pc)
    }

    function Snapshot(): State
      reads this
    {
      State(Registers(), mem, queue, current, counter, returnPc, running)
    }

    /** Compiled code that leaves nothing in the registers but an sp in bounds. */
    method AnyCode(low: int, high: int)
      requires low <= high
      modifies this`r0, this`r1, this`r2, this`r3, this`saved, this`r12, this`sp, this`lr, this`pc
      ensures low <= sp <= high
    {
      r0, r1, r2, r3, r12, saved, sp, lr, pc := *, *, *, *, *, *, *, *, *;
      if !(low <= sp <= high) {
        sp := high;
      }
    }

    /** A compiled function: it returns `result`, and clobbers what it may and the stack below. */
    method Bl(result: int, low: int)
      modifies this`r0, this`r1, this`r2, this`r3, this`r12, this`lr, this`pc, this`mem
      ensures r0 == result && pc == old(pc) + 1
      ensures SameBut(old(mem), mem, low, sp)
    {
      var frame: Memory;
      r0, r1, r2, r3, r12, lr, frame := result, *, *, *, *, *, *;
      pc := pc + 1;
      mem := map a | a in mem.Keys + frame.Keys :: if low <= a < sp then At(frame, a) else At(mem, a);
    }

    method Push2(x: int, y: int)
      modifies this`sp, this`pc, this`mem
      ensures sp == old(sp) - 2 && pc == old(pc) + 1 && At(mem, sp) == x && At(mem, sp + 1) == y
      ensures SameBut(old(mem), mem, sp, sp + 2)
    {
      mem, sp, pc := mem[sp - 2 := x][sp - 1 := y], sp - 2, pc + 1;
    }

    /** `stmia r0,{r4-r12,sp,lr}` */
    method DumpRegisters()
      modifies this`pc, this`mem
      ensures pc == old(pc) + 1 && Holds(mem, r0, saved) && At(mem, r0 + 9) == sp && At(mem, r0 + 10) == lr
      ensures SameBut(old(mem), mem, r0, r0 + 11)
    {
      mem := StoreSaved(mem, r0, saved)[r0 + 8 := r12][r0 + 9 := sp][r0 + 10 := lr];
      pc := pc + 1;
    }

    /** The first eight instructions: everything that the return needs goes into the dump. */
    method SaveInDump(low: int)
      requires l.Fits() && pc == l.call && l.mainLow <= low && low + 2 <= sp <= l.mainHigh
      modifies this`r0, this`r1, this`r2, this`r3, this`saved, this`r12, this`sp, this`lr, this`pc, this`mem
      ensures pc == l.call + 8 && r1 == old(r0) && sp == old(sp)
      ensures DumpHolds(l, mem, old(ContextOf(Registers())))
      ensures forall a :: !(low <= a < sp) && !(l.dump <= a < l.dump + 11) ==> At(mem, a) == At(old(mem), a)
    {
      // push {r4,r5}
      Push2(saved.r4, saved.r5);
      // mov r4,r0; mov r5,lr
      saved, pc := saved.(r4 := r0, r5 := lr), pc + 2;
      // bl get_register_dump_start_address
      Bl(l.dump, low);
      // mov r1,r4; mov lr,r5
      r1, lr, pc := saved.r4, saved.r5, pc + 2;
      // pop {r4,r5}
      saved, sp, pc := saved.(r4 := At(mem, sp), r5 := At(mem, sp + 1)), sp + 2, pc + 1;
      DumpRegisters();
    }

    /** `call_and_save_stack`, up to the branch to the thread. */
    method CallAndSaveStack(low: int)
      requires l.Fits() && pc == l.call && l.mainLow <= low && low + 2 <= sp <= l.mainHigh
      modifies this`r0, this`r1, this`r2, this`r3, this`saved, this`r12, this`sp, this`lr, this`pc, this`mem,
        this`returnPc
      ensures pc == old(r0) && sp == old(sp) && returnPc == Some(l.Reentry())
      ensures DumpHolds(l, mem, old(ContextOf(Registers())))
      ensures forall a :: !(low <= a < sp) && !(l.dump <= a < l.dump + 11) ==> At(mem, a) == At(old(mem), a)
    {
      SaveInDump(low);
      // mov r5,r1
      saved, pc := saved.(r5 := r1), pc + 1;
      // mov r0,pc
      r0, pc := pc + 2, pc + 1;
      // add r0,r0,#8
      r0, pc := r0 + 2, pc + 1;
      // bl set_return_program_counter
      returnPc := Some(r0);
      Bl(r0, low);
      // mov pc,r5
      pc := saved.r5;
    }

    /** The rest of `call_and_save_stack`, which the thread's exit or yield branches to. */
    method ReenterStart(low: int)
      requires pc == l.Reentry() && (sp <= l.dump || l.dump + 11 <= low)
      modifies this`r0, this`r1, this`r2, this`r3, this`saved, this`r12, this`sp, this`lr, this`pc, this`mem
      ensures DumpHolds(l, old(mem), ContextOf(Registers())) && pc == lr
      ensures SameBut(old(mem), mem, low, old(sp))
    {
      // bl get_register_dump_start_address
      Bl(l.dump, low);
      // ldmia r0,{r4-r12,sp,lr}
      saved, r12, sp, lr, pc := LoadSaved(mem, r0), At(mem, r0 + 8), At(mem, r0 + 9), At(mem, r0 + 10), pc + 1;
      // bx lr
      pc := lr;
    }

    /** `thread_trampoline`, up to the call of the thread's function. */
    method ThreadTrampoline(low: int)
      requires pc == l.trampoline && current.Some?
      requires var at := current.value.sp; sp <= at || at + 2 <= low
      modifies this`r0, this`r1, this`r2, this`r3, this`saved, this`r12, this`sp, this`lr, this`pc, this`mem
      ensures var at := current.value.sp;
              pc == At(old(mem), at + 1) && r0 == At(old(mem), at) && sp == at + 2 && lr == l.Landing()
      ensures SameBut(old(mem), mem, low, old(sp))
    {
      // bl get_current_stack_pointer
      Bl(current.value.sp, low);
      // mov sp,r0
      sp, pc := r0, pc + 1;
      // pop {r4,r5}
      saved, sp, pc := saved.(r4 := At(mem, sp), r5 := At(mem, sp + 1)), sp + 2, pc + 1;
      // mov r0,r4
      r0, pc := saved.r4, pc + 1;
      // blx r5
      lr, pc := pc + 1, saved.r5;
    }

    /** `thread_exit`, whose own frame is lost. */
    method ThreadExit(low: int)
      requires returnPc.Some? && low <= sp
      modifies this`r0, this`r1, this`r2, this`r3, this`saved, this`r12, this`sp, this`lr, this`pc, this`mem
      ensures pc == returnPc.value && low <= sp <= old(sp) && SameBut(old(mem), mem, low, old(sp))
    {
      Bl(returnPc.value, low);
      saved := *;
      var frame: int :| low <= frame <= sp;
      sp := frame;
      // bx return_pc
      pc := returnPc.value;
    }

    /** The last two instructions of `thread_trampoline`, where a thread's function returns to. */
    method TrampolineReturn(low: int)
      requires pc == l.Landing() && returnPc.Some? && low <= sp
      modifies this`r0, this`r1, this`r2, this`r3, this`saved, this`r12, this`sp, this`lr, this`pc, this`mem
      ensures pc == returnPc.value && low <= sp <= old(sp) && SameBut(old(mem), mem, low, old(sp))
    {
      // mov r0,#0
      r0, pc := 0, pc + 1;
      // b thread_exit
      ThreadExit(low);
    }

    /** `push {r4-r11,lr}` */
    method Push9()
      modifies this`sp, this`pc, this`mem
      ensures sp == old(sp) - 9 && pc == old(pc) + 1
      ensures Holds(mem, sp, saved) && At(mem, sp + 8) == lr && SameBut(old(mem), mem, sp, sp + 9)
    {
      mem, sp, pc := StoreSaved(mem, sp - 9, saved)[sp - 1 := lr], sp - 9, pc + 1;
    }

    /** `thread_yield_save_sp_move_to_queue`; a full queue is a panic. */
    method SaveAndQueue(newSp: int, newPc: int, low: int) returns (ok: bool)
      requires current.Some?
      modifies this`r0, this`r1, this`r2, this`r3, this`r12, this`lr, this`pc, this`mem, this`queue, this`current
      ensures ok <==> |old(queue)| < THREAD_COUNT
      ensures ok ==> queue == old(queue) + [old(current).value.(sp := newSp, pc := newPc)] && current == None
      ensures !ok ==> queue == old(queue)
      ensures pc == old(pc) + 1 && SameBut(old(mem), mem, low, sp)
    {
      var thread := current.value.(sp := newSp, pc := newPc);
      current := None;
      ok := |queue| < THREAD_COUNT;
      if ok {
        queue := queue + [thread];
      }
      Bl(0, low);
    }

    /** `yield_save_context`, up to the branch to its argument. */
    method YieldSaveContext(low: int) returns (ok: bool)
      requires pc == l.yielding && current.Some? && low + 9 <= sp
      modifies this`r0, this`r1, this`r2, this`r3, this`saved, this`r12, this`sp, this`lr, this`pc, this`mem,
        this`queue, this`current
      ensures ok <==> |old(queue)| < THREAD_COUNT
      ensures ok ==> pc == old(r0) && sp == old(sp) - 9 && current == None
                     && queue == old(queue) + [old(current).value.(sp := sp, pc := l.YieldReentry())]
                     && Holds(mem, sp, old(saved)) && At(mem, sp + 8) == old(lr)
      ensures ok ==> SameBut(old(mem), mem, low, old(sp))
      ensures !ok ==> queue == old(queue)
    {
      Push9();
      // mov r4,r0
      saved, pc := saved.(r4 := r0), pc + 1;
      // mov r0,sp
      r0, pc := sp, pc + 1;
      // mov r1,pc
      r1, pc := pc + 2, pc + 1;
      // add r1,r1,#8
      r1, pc := r1 + 2, pc + 1;
      // bl thread_yield_save_sp_move_to_queue
      ok := SaveAndQueue(r0, r1, low);
      // bx r4
      pc := saved.r4;
    }

    /** The rest of `yield_save_context`, which the next dispatch of the thread branches to. */
    method ReenterYield(low: int)
      requires pc == l.YieldReentry() && current.Some?
      requires var at := current.value.sp; sp <= at || at + 9 <= low
      modifies this`r0, this`r1, this`r2, this`r3, this`saved, this`r12, this`sp, this`lr, this`pc, this`mem
      ensures var at := current.value.sp;
              Holds(old(mem), at, saved) && lr == At(old(mem), at + 8) && sp == at + 9 && pc == lr
      ensures SameBut(old(mem), mem, low, old(sp))
    {
      // bl get_current_stack_pointer
      Bl(current.value.sp, low);
      // mov sp,r0
      sp, pc := r0, pc + 1;
      // pop {r4-r11,lr}
      saved, lr, sp, pc := LoadSaved(mem, sp), At(mem, sp + 8), sp + 9, pc + 1;
      // bx lr
      pc := lr;
    }

    // ---------------------------------------------------- whole switches

    /** Where the branch at the end of the first half of `call_and_save_stack` leads. */
    method EnterThread(low: int)
      requires l.Fits() && current.Some? && Parked(l, current.value) && pc == current.value.pc
      requires sp <= current.value.stack || current.value.stack + STACK <= low
      modifies this`r0, this`r1, this`r2, this`r3, this`saved, this`r12, this`sp, this`lr, this`pc, this`mem
      ensures Resumes(l, current.value, old(mem), Registers()) && SameBut(old(mem), mem, low, old(sp))
    {
      if pc == l.trampoline {
        ThreadTrampoline(low);
      } else {
        ReenterYield(low);
      }
    }

    /** The call of the current thread, up to its first instruction. */
    method CallThread(back: int)
      requires l.Fits() && current.Some? && Parked(l, current.value) && l.mainLow + 2 <= sp <= l.mainHigh
      modifies this`r0, this`r1, this`r2, this`r3, this`saved, this`r12, this`sp, this`lr, this`pc, this`mem,
        this`returnPc
      ensures Resumes(l, current.value, old(mem), Registers()) && returnPc == Some(l.Reentry())
      ensures DumpHolds(l, mem, Context(old(saved), old(sp), back))
      ensures forall a :: !(l.mainLow <= a < old(sp)) && !(l.dump <= a < l.dump + 11) ==> At(mem, a) == At(old(mem), a)
    {
      r0, lr, pc := current.value.pc, back, l.call;
      CallAndSaveStack(l.mainLow);
      ghost var dumped := mem;
      EnterThread(l.mainLow);
      ResumesFromSame(l, current.value, old(mem), dumped, Registers());
    }

    /** `start` pops a thread, makes it the current one and calls it, to return to `back`. */
    method RunFirst(back: int)
      requires l.Fits() && !running && queue != [] && Parked(l, queue[0]) && l.mainLow + 2 <= sp <= l.mainHigh
      modifies this
      ensures Dispatched(l, back, old(Snapshot()), Snapshot())
    {
      current, queue := Some(queue[0]), queue[1..];
      CallThread(back);
      running := true;
    }

    ghost predicate InThread()
      reads this
    {
      running && current.Some? && Clear(l, current.value.stack) && returnPc == Some(l.Reentry())
      && sp <= current.value.stack + STACK
    }

    /** `thread_yield`; a full queue is a panic. */
    method ThreadYield() returns (ok: bool)
      requires InThread() && current.value.stack + 9 <= sp
      modifies this
      ensures ok <==> |old(queue)| < THREAD_COUNT
      ensures ok ==> Yielded(l, old(Snapshot()), Snapshot())
      ensures !ok ==> queue == old(queue)
    {
      var low := current.value.stack;
      r0, pc := returnPc.value, l.yielding;
      ok := YieldSaveContext(low);
      if ok {
        ReenterStart(low);
        running := false;
      }
    }

    /** The thread calls `thread_exit`. */
    method Exit()
      requires InThread() && current.value.stack <= sp
      modifies this
      ensures Exited(l, old(Snapshot()), Snapshot())
    {
      var low := current.value.stack;
      ThreadExit(low);
      ReenterStart(low);
      running := false;
    }

    /** The thread's function returns. */
    method ReturnFromFunction()
      requires InThread() && current.value.stack <= sp && pc == l.Landing()
      modifies this
      ensures Exited(l, old(Snapshot()), Snapshot())
    {
      var low := current.value.stack;
      TrampolineReturn(low);
      ReenterStart(low);
      running := false;
    }

    /** `fork`, on the stack that the allocator gave out; a full queue is a panic. */
    method Fork(code: int, arg: int, stack: int, low: int) returns (ok: bool)
      requires Apart(stack, STACK, low, if low <= sp then sp - low else 0)
      modifies this
      ensures ok <==> |old(queue)| < THREAD_COUNT
      ensures ok ==> Forked(l, code, arg, stack, low, old(Snapshot()), Snapshot())
      ensures !ok ==> queue == old(queue)
    {
      var back := lr;
      var id := counter;
      counter := counter + 1;
      mem := NewStack(mem, stack, code, arg);
      ok := |queue| < THREAD_COUNT;
      if ok {
        queue := queue + [Thread(id, stack, stack + STACK - 2, l.trampoline)];
      }
      Bl(0, low);
      pc := back;
    }
  }
}
