/**
 * The single-step debugger: the prefetch-abort handler that saves the running thread,
 * extends its digest, asks a scheduler for the next one and installs that one's
 * registers.  `Handle` says what one trap does; `Debugger` is the handler over its
 * statics, and `Core` the trap entry that it rests on.
 */
module Debugging {
  import opened Bytes
  import Crc

  type Words13 = s: seq<word> | |s| == 13 witness [0, 0, 0, 0, 0, 0, 0, 0, 0, 0, 0, 0, 0]

  datatype Registers = Registers(pc: word, lr: word, sp: word, r: Words13)

  /** `stackTop` is the end of the thread's own stack. */
  datatype Thread = Thread(id: nat, entry: word, registers: Registers, stackTop: word,
                           finished: bool, count: nat, crc: Crc.Register)

  type Threads = map<nat, Thread>

  datatype Breakpoint = Disabled | Enabled(matching: bool)

  /** The handler's statics and the two breakpoint registers. */
  datatype Debug = Debug(threads: Threads, finished: seq<Thread>,
                         running: Option<(nat, Registers)>,
                         address: word, status: Breakpoint)

  /** The scheduler and the addresses of `trigger_interleaving` and `thread_finished`. */
  datatype Setup = Setup(scheduler: (nat, Threads) -> nat, trigger: word, finish: word)

  datatype Outcome = Resume(debug: Debug, registers: Registers) | Panic

  // ------------------------------------------------------------- digests

  function WordsBytes(words: seq<word>): seq<byte> {
    if words == [] then [] else WordsBytes(words[..|words| - 1]) + ToLe(words[|words| - 1])
  }

  /** The order in which the handler feeds a register file to the digest. */
  function RegisterBytes(regs: Registers): seq<byte> {
    ToLe(regs.pc) + ToLe(regs.lr) + ToLe(regs.sp) + WordsBytes(regs.r)
  }

  /** These are the 64 bytes of pc, lr, sp and r0-r12, each with its lowest byte first. */
  ghost predicate Spells(bytes: seq<byte>, regs: Registers) {
    |bytes| == 64 && bytes[0..4] == ToLe(regs.pc) && bytes[4..8] == ToLe(regs.lr) && bytes[8..12] == ToLe(regs.sp)
    && forall i {:trigger regs.r[i]} :: 0 <= i < 13 ==> bytes[12 + 4 * i..16 + 4 * i] == ToLe(regs.r[i])
  }

  lemma {:induction false} WordsBytesAt(words: seq<word>, i: nat)
    requires i < |words|
    ensures |WordsBytes(words)| == 4 * |words| && WordsBytes(words)[4 * i..4 * i + 4] == ToLe(words[i])
    decreases |words|
  {
    var n := |words| - 1;
    if n > 0 {
      WordsBytesAt(words[..n], if i < n then i else 0);
    }
  }

  lemma RegisterBytesSpell(regs: Registers)
    ensures Spells(RegisterBytes(regs), regs)
  {
    var head := ToLe(regs.pc) + ToLe(regs.lr) + ToLe(regs.sp);
    WordsBytesAt(regs.r, 0);
    forall i | 0 <= i < 13
      ensures RegisterBytes(regs)[12 + 4 * i..16 + 4 * i] == ToLe(regs.r[i])
    {
      WordsBytesAt(regs.r, i);
      SliceBehind(head, WordsBytes(regs.r), 4 * i);
    }
  }

  lemma SliceBehind(head: seq<byte>, rest: seq<byte>, k: nat)
    requires |head| == 12 && k + 4 <= |rest|
    ensures (head + rest)[12 + k..16 + k] == rest[k..k + 4]
  {
  }

  /** The sixteen registers in that order. */
  function Nth(regs: Registers, k: nat): word
    requires k < 16
  {
    if k == 0 then regs.pc else if k == 1 then regs.lr else if k == 2 then regs.sp else regs.r[k - 3]
  }

  lemma SpellsAt(bytes: seq<byte>, regs: Registers, k: nat)
    requires Spells(bytes, regs) && k < 16
    ensures bytes[4 * k..4 * k + 4] == ToLe(Nth(regs, k))
  {
    if k >= 3 {
      assert bytes[12 + 4 * (k - 3)..16 + 4 * (k - 3)] == ToLe(regs.r[k - 3]);
    }
  }

  lemma SpellsByte(bytes: seq<byte>, regs: Registers, i: nat)
    requires Spells(bytes, regs) && i < 64
    ensures bytes[i] == ToLe(Nth(regs, i / 4))[i % 4]
  {
    var k := i / 4;
    SpellsAt(bytes, regs, k);
    assert bytes[i] == bytes[4 * k..4 * k + 4][i % 4];
  }

  /** Files that differ in exactly one register give different digests, whatever was digested before. */
  lemma OneRegisterIsTold(crc: Crc.Register, a: Registers, b: Registers, x: seq<byte>, y: seq<byte>, k: nat)
    requires Spells(x, a) && Spells(y, b) && k < 16
    requires forall j :: 0 <= j < 16 ==> (Nth(a, j) == Nth(b, j) <==> j != k)
    ensures Crc.Update(crc, x) != Crc.Update(crc, y)
  {
    forall i | 0 <= i < 64 && !(4 * k <= i < 4 * k + 4)
      ensures x[i] == y[i]
    {
      SpellsByte(x, a, i);
      SpellsByte(y, b, i);
      assert i / 4 != k;
    }
    SpellsAt(x, a, k);
    SpellsAt(y, b, k);
    LeRoundTrip(Nth(a, k));
    LeRoundTrip(Nth(b, k));
    Crc.FourBytesAreABurst(x, y, 4 * k);
    Crc.BurstIsTold(crc, x, y, 8 * (4 * k));
  }

  function Record(crc: Crc.Register, regs: Registers): Crc.Register {
    Crc.Update(crc, RegisterBytes(regs))
  }

  /** Only one string spells a register file, and that is what is recorded. */
  lemma RecordSpells(crc: Crc.Register, regs: Registers, bytes: seq<byte>)
    requires Spells(bytes, regs)
    ensures Record(crc, regs) == Crc.Update(crc, bytes)
  {
    RegisterBytesSpell(regs);
    forall i | 0 <= i < 64
      ensures bytes[i] == RegisterBytes(regs)[i]
    {
      SpellsByte(bytes, regs, i);
      SpellsByte(RegisterBytes(regs), regs, i);
    }
    assert bytes == RegisterBytes(regs);
  }

  lemma HeadFed(crc: Crc.Register, a: seq<byte>, b: seq<byte>, c: seq<byte>)
    ensures Crc.Update(Crc.Update(Crc.Update(crc, a), b), c) == Crc.Update(crc, a + b + c)
  {
    Crc.UpdateConcat(crc, a, b);
    Crc.UpdateConcat(crc, a + b, c);
  }

  lemma WordFed(crc: Crc.Register, head: seq<byte>, words: seq<word>, i: nat)
    requires i < |words|
    ensures Crc.Update(Crc.Update(crc, head + WordsBytes(words[..i])), ToLe(words[i]))
            == Crc.Update(crc, head + WordsBytes(words[..i + 1]))
  {
    var before, bytes := WordsBytes(words[..i]), ToLe(words[i]);
    Crc.UpdateConcat(crc, head + before, bytes);
    assert words[..i + 1][..i] == words[..i];
    assert WordsBytes(words[..i + 1]) == before + bytes;
    assert head + before + bytes == head + (before + bytes);
  }

  // ------------------------------------------------------------- handler

  lemma {:induction false} LeastKeyExists(keys: set<nat>, k: nat)
    requires k in keys
    ensures exists least :: least in keys && forall j :: j in keys ==> least <= j
    decreases k
  {
    if j :| j in keys && j < k {
      LeastKeyExists(keys, j);
    }
  }

  lemma SomeKeyIsLeast(threads: Threads)
    requires threads != map[]
    ensures exists k :: k in threads.Keys && forall j :: j in threads.Keys ==> k <= j
  {
    assert threads.Keys != {};
    var k :| k in threads.Keys;
    LeastKeyExists(threads.Keys, k);
  }

  /** `first_key_value` of the ordered map. */
  function FirstKey(threads: Threads): (k: nat)
    requires threads != map[]
    ensures k in threads && forall j :: j in threads ==> k <= j
  {
    SomeKeyIsLeast(threads);
    var k :| k in threads.Keys && forall j :: j in threads.Keys ==> k <= j;
    k
  }

  function Save(t: Thread, regs: Registers): Thread {
    t.(registers := regs, count := t.count + 1, crc := Record(t.crc, regs))
  }

  /** Asks the scheduler and switches to the thread that it names. */
  function Switch(p: Setup, d: Debug, current: nat, stash: Registers): Outcome {
    var next := p.scheduler(current, d.threads);
    if next !in d.threads then Panic
    else
      var regs := d.threads[next].registers;
      Resume(d.(running := Some((next, stash)), address := regs.pc), regs)
  }

  /** Takes a finished thread out; the last one hands the CPU back to the main thread. */
  function Retire(p: Setup, d: Debug, current: nat, stash: Registers): Outcome
    requires current in d.threads
  {
    var done := d.threads[current].(finished := true);
    var d' := d.(threads := d.threads - {current}, finished := d.finished + [done]);
    if d'.threads == map[] then Resume(d'.(running := None, status := Disabled), stash)
    else Switch(p, d', FirstKey(d'.threads), stash)
  }

  function Handle(p: Setup, d: Debug, regs: Registers): Outcome {
    if d.status.Disabled? then Panic
    else
      match d.running
      case None =>
        if regs.pc != p.trigger then Resume(d.(address := regs.pc), regs)
        else if d.threads == map[] then Panic
        else
          var first := d.threads[FirstKey(d.threads)];
          Resume(d.(running := Some((first.id, regs))), first.registers)
      case Some((current, stash)) =>
        if current !in d.threads then Panic
        else
          var d' := d.(threads := d.threads[current := Save(d.threads[current], regs)]);
          if regs.pc == p.finish then Retire(p, d', current, stash)
          else if !d.status.matching then Switch(p, d', current, stash)
          else Resume(d', regs)
  }

  /** A switch to thread `next` of this table: it resumes where it was, with the breakpoint there. */
  ghost predicate ResumesThread(o: Outcome, threads: Threads, next: nat, stash: Registers) {
    o.Resume? && next in threads && o.registers == threads[next].registers
    && o.debug.running == Some((next, stash)) && o.debug.address == threads[next].registers.pc
    && o.debug.threads == threads
  }

  /** After a retirement the scheduler is asked with the least id that is left. */
  lemma RetirementAsksTheLeast(p: Setup, d: Debug, current: nat, stash: Registers, least: nat)
    requires current in d.threads && least in d.threads && least != current
    requires forall j :: j in d.threads && j != current ==> least <= j
    ensures var rest, o := d.threads - {current}, Retire(p, d, current, stash);
            if p.scheduler(least, rest) in rest then
              ResumesThread(o, rest, p.scheduler(least, rest), stash)
              && o.debug.finished == d.finished + [d.threads[current].(finished := true)]
            else o.Panic?
  {
    assert least in d.threads - {current};
  }

  /** The scheduler is asked, and names no thread of the table. */
  ghost predicate Refuses(p: Setup, asked: nat, threads: Threads) {
    p.scheduler(asked, threads) !in threads
  }

  /** It is asked with the least id of a table that is not empty. */
  ghost predicate RefusesLeast(p: Setup, threads: Threads) {
    exists least :: least in threads && (forall j :: j in threads ==> least <= j) && Refuses(p, least, threads)
  }

  /** The cases in which the handler panics. */
  lemma PanicsExactly(p: Setup, d: Debug, regs: Registers)
    ensures Handle(p, d, regs).Panic? <==>
            d.status.Disabled?
            || match d.running
               case None => regs.pc == p.trigger && d.threads == map[]
               case Some((current, _)) =>
                 current !in d.threads
                 || var saved := d.threads[current := Save(d.threads[current], regs)];
                    if regs.pc == p.finish then RefusesLeast(p, saved - {current})
                    else d.status == Enabled(false) && Refuses(p, current, saved)
  {
    if d.running.Some? && d.running.value.0 in d.threads && d.status.Enabled? {
      var (current, stash) := d.running.value;
      RetirePanics(p, d.(threads := d.threads[current := Save(d.threads[current], regs)]), current, stash);
    }
  }

  lemma RetirePanics(p: Setup, d: Debug, current: nat, stash: Registers)
    requires current in d.threads
    ensures Retire(p, d, current, stash).Panic? <==> RefusesLeast(p, d.threads - {current})
  {
    var rest := d.threads - {current};
    if rest != map[] {
      assert Refuses(p, FirstKey(rest), rest) ==> RefusesLeast(p, rest);
    }
  }

  /** In match mode a trap records the running thread and lets it go on. */
  lemma MatchModeOnlyRecords(p: Setup, d: Debug, regs: Registers, current: nat, bytes: seq<byte>)
    requires d.status == Enabled(true) && d.running.Some? && d.running.value.0 == current && current in d.threads
    requires regs.pc != p.finish && Spells(bytes, regs)
    ensures var t, o := d.threads[current], Handle(p, d, regs);
            o == Resume(d.(threads := d.threads[current := t.(registers := regs, count := t.count + 1,
                                                              crc := Crc.Update(t.crc, bytes))]), regs)
  {
    RecordSpells(d.threads[current].crc, regs, bytes);
  }

  /** The statics and breakpoint registers, updated in place. */
  class Debugger {
    const setup: Setup
    var threads: Threads
    var finished: seq<Thread>
    var running: Option<(nat, Registers)>
    var address: word
    var status: Breakpoint

    function State(): Debug
      reads this
    {
      Debug(threads, finished, running, address, status)
    }

    constructor (setup: Setup, d: Debug)
      ensures State() == d && this.setup == setup
    {
      this.setup := setup;
      threads, finished, running, address, status := d.threads, d.finished, d.running, d.address, d.status;
    }

    /** The digest of one register file, fed in word by word: it covers all sixteen registers. */
    method Digest(crc: Crc.Register, regs: Registers) returns (crc': Crc.Register)
      ensures crc' == Record(crc, regs)
      ensures forall bytes :: Spells(bytes, regs) ==> crc' == Crc.Update(crc, bytes)
    {
      forall bytes | Spells(bytes, regs)
        ensures Record(crc, regs) == Crc.Update(crc, bytes)
      {
        RecordSpells(crc, regs, bytes);
      }
      crc' := Crc.Update(crc, ToLe(regs.pc));
      crc' := Crc.Update(crc', ToLe(regs.lr));
      crc' := Crc.Update(crc', ToLe(regs.sp));
      HeadFed(crc, ToLe(regs.pc), ToLe(regs.lr), ToLe(regs.sp));
      ghost var head := ToLe(regs.pc) + ToLe(regs.lr) + ToLe(regs.sp);
      assert head + WordsBytes(regs.r[..0]) == head;
      for i := 0 to 13
        invariant crc' == Crc.Update(crc, head + WordsBytes(regs.r[..i]))
      {
        WordFed(crc, head, regs.r, i);
        crc' := Crc.Update(crc', ToLe(regs.r[i]));
      }
      assert regs.r[..13] == regs.r;
    }

    /** The decision and the switch at the end of a trap. */
    method Reschedule(current: nat, stash: Registers) returns (r: Option<Registers>)
      modifies this
      ensures match Switch(setup, old(State()), current, stash)
              case Resume(d, regs) => r == Some(regs) && State() == d
              case Panic => r == None
    {
      var decision := setup.scheduler(current, threads);
      if decision !in threads {
        return None;
      }
      running := Some((decision, stash));
      address := threads[decision].registers.pc;
      return Some(threads[decision].registers);
    }

    /** The handler; a panic yields nothing to resume. */
    method PrefetchAbortVector(registers: Registers) returns (r: Option<Registers>)
      modifies this
      ensures match Handle(setup, old(State()), registers)
              case Resume(d, regs) => r == Some(regs) && State() == d
              case Panic => r == None
    {
      if status.Disabled? {
        return None;
      }
      if running.None? {
        if registers.pc == setup.trigger {
          if threads == map[] {
            return None;
          }
          var thread := threads[FirstKey(threads)];
          running := Some((thread.id, registers));
          return Some(thread.registers);
        }
        address := registers.pc;
        return Some(registers);
      }
      var (id, stash) := running.value;
      if id !in threads {
        return None;
      }
      var current := threads[id];
      var crc := Digest(current.crc, registers);
      current := current.(registers := registers, count := current.count + 1, crc := crc);
      threads := threads[id := current];
      if registers.pc == setup.finish {
        var done := threads[id].(finished := true);
        threads := threads - {id};
        finished := finished + [done];
        if threads == map[] {
          status := Disabled;
          running := None;
          return Some(stash);
        }
        r := Reschedule(FirstKey(threads), stash);
        return;
      }
      if !status.matching {
        r := Reschedule(id, stash);
        return;
      }
      return Some(registers);
    }
  }

  // ---------------------------------------------------------- trap frame

  /** The fifteen words that the trap entry leaves for the handler. */
  type Frame = f: seq<word> | |f| == 15 witness [0, 0, 0, 0, 0, 0, 0, 0, 0, 0, 0, 0, 0, 0, 0]

  function Encode(regs: Registers): Frame {
    [regs.sp, regs.lr] + regs.r
  }

  function Decode(pc: word, frame: Frame): Registers {
    Registers(pc, frame[1], frame[0], frame[2..])
  }

  lemma FrameRoundTrip(regs: Registers, pc: word, frame: Frame)
    ensures Decode(regs.pc, Encode(regs)) == regs
    ensures Encode(Decode(pc, frame)) == frame
  {
  }

  lemma FrameInTwo(stack: array<word>)
    requires stack.Length == 15
    ensures stack[..] == [stack[0], stack[1]] + stack[2..15]
  {
  }

  /** The interrupted program's registers and the top of the abort-mode stack. */
  class Core {
    var r: seq<word>
    var sp: word
    var lr: word
    var pc: word
    const stack: array<word>

    predicate Valid()
      reads this
    {
      |r| == 13 && stack.Length == 15
    }

    function User(): Registers
      reads this
      requires Valid()
    {
      Registers.Registers(pc, lr, sp, r)
    }

    constructor (regs: Registers)
      ensures Valid() && User() == regs && fresh(stack)
    {
      r, sp, lr, pc := regs.r, regs.sp, regs.lr, regs.pc;
      stack := new word[15];
    }

    /** `prefetch_abort_vector` of the interrupt module: decode, handle, write back. */
    method Vector(pc: word, debugger: Debugger) returns (newPc: Option<word>)
      requires Valid()
      modifies stack, debugger
      ensures match Handle(debugger.setup, old(debugger.State()), Decode(pc, old(stack[..])))
              case Resume(d, regs) => newPc == Some(regs.pc) && stack[..] == Encode(regs) && debugger.State() == d
              case Panic => newPc == None
    {
      var registers := Registers.Registers(pc, stack[1], stack[0], stack[2..]);
      var newRegisters := debugger.PrefetchAbortVector(registers);
      if newRegisters.None? {
        return None;
      }
      stack[0] := newRegisters.value.sp;
      stack[1] := newRegisters.value.lr;
      for i := 0 to 13
        invariant stack[0] == newRegisters.value.sp && stack[1] == newRegisters.value.lr
        invariant stack[2..2 + i] == newRegisters.value.r[..i]
        modifies stack
      {
        stack[2 + i] := newRegisters.value.r[i];
      }
      FrameInTwo(stack);
      return Some(newRegisters.value.pc);
    }

    /**
     * `prefetch_abort_asm`: the handler sees exactly the interrupted registers, and the
     * program that is returned to has exactly the registers that the handler gave back.
     */
    method PrefetchAbortAsm(debugger: Debugger) returns (resumes: bool)
      requires Valid()
      modifies this, stack, debugger
      ensures Valid()
      ensures match Handle(debugger.setup, old(debugger.State()), old(User()))
              case Resume(d, regs) => resumes && User() == regs && debugger.State() == d
              case Panic => !resumes
    {
      // push {r0-r12}
      for i := 0 to 13
        invariant stack[2..2 + i] == r[..i]
        modifies stack
      {
        stack[2 + i] := r[i];
      }
      // push {r2-r3} with the system-mode r13 and r14
      stack[0], stack[1] := sp, lr;
      FrameInTwo(stack);
      assert stack[..] == Encode(User());
      FrameRoundTrip(User(), 0, stack[..]);
      // the abort-mode lr is four past the aborted instruction
      var abortLr := pc as int + 4;
      var newPc := Vector(abortLr - 4, debugger);
      if newPc.None? {
        return false;
      }
      // pop {r2-r3}, back into the system-mode r13 and r14; pop {r0-r12}; movs pc, lr
      sp, lr := stack[0], stack[1];
      r := stack[2..15];
      pc := newPc.value;
      assert stack[..][2..] == stack[2..15];
      return true;
    }
  }
}
