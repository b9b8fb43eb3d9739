/**
 * Threads that keep to memory of their own end the same way whatever the scheduler does:
 * same registers, same count, same digest, same memory.
 */
module InterleavingIsolation {
  import opened Bytes
  import opened Sequences
  import opened Debugging
  import opened Interleaving
  import InterleavingProof
  import opened InterleavingTheorems

  type Footprint = map<nat, set<word>>

  ghost predicate Agree(a: Memory, b: Memory, on: set<word>) {
    forall x :: x in on ==> (x in a <==> x in b) && (x in a ==> a[x] == b[x])
  }

  ghost predicate AgreeOff(a: Memory, b: Memory, off: set<word>) {
    forall x :: x !in off ==> (x in a <==> x in b) && (x in a ==> a[x] == b[x])
  }

  ghost predicate Disjoint(own: Footprint) {
    forall t, u :: t in own && u in own && t != u ==> own[t] !! own[u]
  }

  /** `k` instructions of one thread with the CPU to itself. */
  function Alone(exec: Instruction, regs: Registers, memory: Memory, k: nat): (Registers, Memory)
    decreases k
  {
    if k == 0 then (regs, memory)
    else
      var (r, m) := Alone(exec, regs, memory, k - 1);
      exec(r, m)
  }

  /** The next instruction neither reads nor writes memory that is not the thread's own. */
  ghost predicate OwnStep(exec: Instruction, regs: Registers, memory: Memory, other: Memory, own: set<word>) {
    Agree(memory, other, own) ==>
      exec(regs, other).0 == exec(regs, memory).0
      && Agree(exec(regs, memory).1, exec(regs, other).1, own)
      && AgreeOff(other, exec(regs, other).1, own)
  }

  /** Run alone, the thread is not at `finish` before or after any of its first `k` instructions. */
  ghost predicate Unfinished(exec: Instruction, finish: word, regs: Registers, memory: Memory, k: nat) {
    forall j :: 0 <= j <= k ==> Alone(exec, regs, memory, j).0.pc != finish
  }

  /** A thread that starts from these registers, run alone, keeps to its own memory until it finishes. */
  ghost predicate KeepsTo(exec: Instruction, finish: word, regs: Registers, memory: Memory, own: set<word>) {
    forall k: nat, other: Memory ::
      Unfinished(exec, finish, regs, memory, k) ==>
        OwnStep(exec, Alone(exec, regs, memory, k).0, Alone(exec, regs, memory, k).1, other, own)
  }

  ghost predicate Isolated(p: Setup, exec: Instruction, s: Start, own: Footprint) {
    own.Keys == s.threads.Keys && Disjoint(own)
    && forall t :: t in own ==> KeepsTo(exec, p.finish, s.threads[t].registers, s.memory, own[t])
  }

  /** A thread is where it would be alone, and sees in its own memory what it would see alone. */
  ghost predicate AsIfAlone(exec: Instruction, s: Start, own: Footprint, order: seq<nat>, t: nat)
    requires Over(Files(s), order) && t in s.threads && t in own
  {
    var (r, m) := Alone(exec, s.threads[t].registers, s.memory, Count(order, t));
    var a := Interleave(exec, Files(s), order);
    a.registers[t] == r && Agree(m, a.memory, own[t])
  }

  lemma AgreeOutside(m: Memory, a: Memory, b: Memory, mine: set<word>, yours: set<word>)
    requires Agree(m, a, mine) && AgreeOff(a, b, yours) && mine !! yours
    ensures Agree(m, b, mine)
  {
    assert forall x :: x in mine ==> x !in yours;
  }

  lemma OwnStepTaken(exec: Instruction, s: Start, own: Footprint, before: seq<nat>, t: nat)
    requires Over(Files(s), before) && t in s.threads && t in own && AsIfAlone(exec, s, own, before, t)
    requires var (r, m) := Alone(exec, s.threads[t].registers, s.memory, Count(before, t));
             OwnStep(exec, r, m, Interleave(exec, Files(s), before).memory, own[t])
    ensures Over(Files(s), before + [t]) && AsIfAlone(exec, s, own, before + [t], t)
  {
    InterleavingProof.InterleaveAppend(exec, Files(s), before, t);
    CountAppend(before, t, t);
  }

  lemma OthersStepUnseen(exec: Instruction, s: Start, own: Footprint, before: seq<nat>, u: nat, t: nat)
    requires Over(Files(s), before) && t in s.threads && t in own && AsIfAlone(exec, s, own, before, t)
    requires u in s.threads && u in own && u != t && Disjoint(own) && AsIfAlone(exec, s, own, before, u)
    requires var (r, m) := Alone(exec, s.threads[u].registers, s.memory, Count(before, u));
             OwnStep(exec, r, m, Interleave(exec, Files(s), before).memory, own[u])
    ensures Over(Files(s), before + [u]) && AsIfAlone(exec, s, own, before + [u], t)
  {
    InterleavingProof.InterleaveAppend(exec, Files(s), before, u);
    CountAppend(before, u, t);
    var m := Alone(exec, s.threads[t].registers, s.memory, Count(before, t)).1;
    AgreeOutside(m, Interleave(exec, Files(s), before).memory, Interleave(exec, Files(s), before + [u]).memory,
      own[t], own[u]);
  }

  lemma {:induction false} IsolatedThread(p: Setup, exec: Instruction, s: Start, own: Footprint,
        order: seq<nat>, t: nat)
    requires Isolated(p, exec, s, own) && Fair(exec, Files(s), p.finish, order) && t in s.threads
    ensures AsIfAlone(exec, s, own, order, t)
    decreases |order|, 0
  {
    if order == [] {
    } else {
      var n := |order| - 1;
      var before, u := order[..n], order[n];
      FairPrefix(exec, Files(s), p.finish, order, n);
      IsolatedThread(p, exec, s, own, before, t);
      NextIsOwn(p, exec, s, own, before, u);
      assert order == before + [u];
      if t == u {
        OwnStepTaken(exec, s, own, before, t);
      } else {
        OthersStepUnseen(exec, s, own, before, u, t);
      }
    }
  }

  lemma FairPrefix(exec: Instruction, a: Abstract, finish: word, order: seq<nat>, n: nat)
    requires Fair(exec, a, finish, order) && n <= |order|
    ensures Fair(exec, a, finish, order[..n])
    ensures n < |order| ==> Interleave(exec, a, order[..n]).registers[order[n]].pc != finish
  {
    forall i | 0 <= i < n
      ensures Interleave(exec, a, order[..n][..i]).registers[order[..n][i]].pc != finish
    {
      assert order[..n][..i] == order[..i];
    }
  }

  /** A thread takes each of its steps before it is done. */
  lemma {:induction false} NotDoneBefore(p: Setup, exec: Instruction, s: Start, own: Footprint,
        order: seq<nat>, t: nat, k: nat)
    requires Isolated(p, exec, s, own) && Fair(exec, Files(s), p.finish, order) && t in s.threads
    requires k < Count(order, t)
    ensures Alone(exec, s.threads[t].registers, s.memory, k).0.pc != p.finish
    decreases |order|, 0
  {
    var n := |order| - 1;
    FairPrefix(exec, Files(s), p.finish, order, n);
    if k < Count(order[..n], t) {
      NotDoneBefore(p, exec, s, own, order[..n], t, k);
    } else {
      IsolatedThread(p, exec, s, own, order[..n], t);
    }
  }

  /** A thread that is not done takes its next step within its own memory. */
  lemma NextIsOwn(p: Setup, exec: Instruction, s: Start, own: Footprint, before: seq<nat>, u: nat)
    requires Isolated(p, exec, s, own) && Fair(exec, Files(s), p.finish, before) && u in s.threads
    requires Interleave(exec, Files(s), before).registers[u].pc != p.finish
    ensures AsIfAlone(exec, s, own, before, u)
    ensures var (r, m) := Alone(exec, s.threads[u].registers, s.memory, Count(before, u));
            OwnStep(exec, r, m, Interleave(exec, Files(s), before).memory, own[u])
    decreases |before|, 1
  {
    var regs, k := s.threads[u].registers, Count(before, u);
    IsolatedThread(p, exec, s, own, before, u);
    forall j | 0 <= j <= k
      ensures Alone(exec, regs, s.memory, j).0.pc != p.finish
    {
      if j < k {
        NotDoneBefore(p, exec, s, own, before, u, j);
      }
    }
    assert KeepsTo(exec, p.finish, regs, s.memory, own[u]);
    assert Unfinished(exec, p.finish, regs, s.memory, k);
  }

  /** The register files of the first `k` instructions of a thread run alone. */
  function AloneTrace(exec: Instruction, regs: Registers, memory: Memory, k: nat): seq<Registers>
    decreases k
  {
    if k == 0 then [] else AloneTrace(exec, regs, memory, k - 1) + [Alone(exec, regs, memory, k).0]
  }

  lemma TraceStep(exec: Instruction, s: Start, own: Footprint, before: seq<nat>, u: nat, t: nat)
    requires Over(Files(s), before) && u in s.threads && t in s.threads && t in own
    requires Trace(exec, Files(s), before, t)
             == AloneTrace(exec, s.threads[t].registers, s.memory, Count(before, t))
    requires Over(Files(s), before + [u]) && AsIfAlone(exec, s, own, before + [u], t)
    ensures Trace(exec, Files(s), before + [u], t)
            == AloneTrace(exec, s.threads[t].registers, s.memory, Count(before + [u], t))
  {
    CountAppend(before, u, t);
    InterleavingProof.InterleaveAppend(exec, Files(s), before, u);
  }

  lemma {:induction false} IsolatedTrace(p: Setup, exec: Instruction, s: Start, own: Footprint, order: seq<nat>, t: nat)
    requires Isolated(p, exec, s, own) && Fair(exec, Files(s), p.finish, order) && t in s.threads
    ensures Trace(exec, Files(s), order, t)
            == AloneTrace(exec, s.threads[t].registers, s.memory, Count(order, t))
    decreases |order|
  {
    if order == [] {
    } else {
      var n := |order| - 1;
      FairPrefix(exec, Files(s), p.finish, order, n);
      IsolatedTrace(p, exec, s, own, order[..n], t);
      IsolatedThread(p, exec, s, own, order, t);
      assert order == order[..n] + [order[n]];
      TraceStep(exec, s, own, order[..n], order[n], t);
    }
  }

  function Owned(own: Footprint): set<word> {
    set t, x | t in own && x in own[t] :: x
  }

  lemma {:induction false} RestUntouched(p: Setup, exec: Instruction, s: Start, own: Footprint, order: seq<nat>)
    requires Isolated(p, exec, s, own) && Fair(exec, Files(s), p.finish, order)
    ensures AgreeOff(s.memory, Interleave(exec, Files(s), order).memory, Owned(own))
    decreases |order|
  {
    if order == [] {
    } else {
      var n := |order| - 1;
      var before, u := order[..n], order[n];
      FairPrefix(exec, Files(s), p.finish, order, n);
      RestUntouched(p, exec, s, own, before);
      NextIsOwn(p, exec, s, own, before, u);
    }
  }

  /** Two complete interleavings of isolated threads give each the same steps. */
  lemma SameSteps(p: Setup, exec: Instruction, s: Start, own: Footprint, a: seq<nat>, b: seq<nat>, t: nat)
    requires Isolated(p, exec, s, own) && t in s.threads
    requires Fair(exec, Files(s), p.finish, a) && Interleave(exec, Files(s), a).registers[t].pc == p.finish
    requires Fair(exec, Files(s), p.finish, b) && Interleave(exec, Files(s), b).registers[t].pc == p.finish
    ensures Count(a, t) == Count(b, t)
    ensures Interleave(exec, Files(s), a).registers[t] == Interleave(exec, Files(s), b).registers[t]
    ensures Recorded(exec, s, a, t) == Recorded(exec, s, b, t)
    ensures Agree(Interleave(exec, Files(s), a).memory, Interleave(exec, Files(s), b).memory, own[t])
  {
    IsolatedThread(p, exec, s, own, a, t);
    IsolatedThread(p, exec, s, own, b, t);
    if Count(a, t) < Count(b, t) {
      NotDoneBefore(p, exec, s, own, b, t, Count(a, t));
    }
    if Count(b, t) < Count(a, t) {
      NotDoneBefore(p, exec, s, own, a, t, Count(b, t));
    }
    IsolatedTrace(p, exec, s, own, a, t);
    IsolatedTrace(p, exec, s, own, b, t);
  }

  lemma SameMemory(p: Setup, exec: Instruction, s: Start, own: Footprint, a: seq<nat>, b: seq<nat>)
    requires Isolated(p, exec, s, own)
    requires Fair(exec, Files(s), p.finish, a) && Fair(exec, Files(s), p.finish, b)
    requires forall t :: t in s.threads ==>
               Interleave(exec, Files(s), a).registers[t].pc == p.finish
               && Interleave(exec, Files(s), b).registers[t].pc == p.finish
    ensures Interleave(exec, Files(s), a).memory == Interleave(exec, Files(s), b).memory
  {
    var x, y := Interleave(exec, Files(s), a).memory, Interleave(exec, Files(s), b).memory;
    RestUntouched(p, exec, s, own, a);
    RestUntouched(p, exec, s, own, b);
    forall at: word
      ensures at in x <==> at in y
      ensures at in x ==> x[at] == y[at]
    {
      if t :| t in own && at in own[t] {
        SameSteps(p, exec, s, own, a, b, t);
      }
    }
  }

  /** Whichever thread of a finished run is looked at, it is retired and at `thread_finished`. */
  lemma AllRetired(p: Setup, exec: Instruction, s: Start, n: nat, id: nat) returns (t: Thread)
    requires ChangesPc(exec) && LiveScheduler(p) && Spawned(p, s) && id in s.threads
    requires Run(p, exec, Initial(s), n).Some? && HandedBack(s, Run(p, exec, Initial(s), n).value)
    ensures t in Retired(s, Run(p, exec, Initial(s), n).value) && t.id == id
    ensures Fair(exec, Files(s), p.finish, Schedule(p, exec, Initial(s), n))
    ensures RetiredWell(p, exec, s, Schedule(p, exec, Initial(s), n), t)
  {
    RunRefinesInterleaving(p, exec, s, n);
    EveryState(p, exec, s, n);
    var retired := Retired(s, Run(p, exec, Initial(s), n).value);
    var i :| 0 <= i < |retired| && retired[i].id == id;
    t := retired[i];
    RetiredThread(p, exec, s, n, t);
  }

  lemma SameRecord(p: Setup, q: Setup, exec: Instruction, s: Start, own: Footprint, a: seq<nat>, b: seq<nat>,
        t: Thread, u: Thread)
    requires p.finish == q.finish && Isolated(p, exec, s, own) && s.threads != map[]
    requires Fair(exec, Files(s), p.finish, a) && Fair(exec, Files(s), p.finish, b)
    requires RetiredWell(p, exec, s, a, t) && RetiredWell(q, exec, s, b, u) && t.id == u.id
    ensures t == u
  {
    SameSteps(p, exec, s, own, a, b, t.id);
  }

  lemma SameThread(p: Setup, q: Setup, exec: Instruction, s: Start, own: Footprint, n: nat, k: nat, t: Thread)
    requires ChangesPc(exec) && LiveScheduler(p) && LiveScheduler(q) && Spawned(p, s) && Spawned(q, s)
    requires p.finish == q.finish && Isolated(p, exec, s, own)
    requires Run(p, exec, Initial(s), n).Some?
    requires Run(q, exec, Initial(s), k).Some? && HandedBack(s, Run(q, exec, Initial(s), k).value)
    requires t in Retired(s, Run(p, exec, Initial(s), n).value)
    ensures t in Retired(s, Run(q, exec, Initial(s), k).value)
  {
    RetiredThread(p, exec, s, n, t);
    var u := AllRetired(q, exec, s, k, t.id);
    SameRecord(p, q, exec, s, own, Schedule(p, exec, Initial(s), n), Schedule(q, exec, Initial(s), k), t, u);
  }

  /**
   * Isolated threads that start the same finish the same under every two schedulers: the
   * same registers, counts and digests, and the same memory.
   */
  lemma SchedulerDoesNotMatter(p: Setup, q: Setup, exec: Instruction, s: Start, own: Footprint, n: nat, k: nat)
    requires ChangesPc(exec) && LiveScheduler(p) && LiveScheduler(q) && Spawned(p, s)
    requires p.finish == q.finish && Isolated(p, exec, s, own)
    requires Run(p, exec, Initial(s), n).Some? && HandedBack(s, Run(p, exec, Initial(s), n).value)
    requires Run(q, exec, Initial(s), k).Some? && HandedBack(s, Run(q, exec, Initial(s), k).value)
    ensures var x, y := Run(p, exec, Initial(s), n).value, Run(q, exec, Initial(s), k).value;
            x.memory == y.memory && forall t :: t in Retired(s, x) <==> t in Retired(s, y)
  {
    var x, y := Run(p, exec, Initial(s), n).value, Run(q, exec, Initial(s), k).value;
    var a, b := Schedule(p, exec, Initial(s), n), Schedule(q, exec, Initial(s), k);
    forall t
      ensures t in Retired(s, x) <==> t in Retired(s, y)
    {
      if t in Retired(s, x) {
        SameThread(p, q, exec, s, own, n, k, t);
      }
      if t in Retired(s, y) {
        SameThread(q, p, exec, s, own, k, n, t);
      }
    }
    RunRefinesInterleaving(p, exec, s, n);
    RunRefinesInterleaving(q, exec, s, k);
    assert Spawned(q, s);
    forall id | id in s.threads
      ensures Interleave(exec, Files(s), a).registers[id].pc == p.finish
      ensures Interleave(exec, Files(s), b).registers[id].pc == p.finish
    {
      var t := AllRetired(p, exec, s, n, id);
      var u := AllRetired(q, exec, s, k, id);
    }
    SameMemory(p, exec, s, own, a, b);
  }
}
