/** What holds in every boot session. */
module BootTheorems {
  import opened Bytes
  import opened BootShared
  import opened BootSession
  import opened Sequences
  import BootProof
  import Crc
  import Pi = Bootloader
  import Host = Installer

  /** Memory is as before except that `image` lies at `BASE`. */
  ghost predicate ImageLoaded(c: Session, memory: Pi.Memory, image: seq<byte>) {
    (forall i :: 0 <= i < |image| ==> Pi.Lookup(memory, BASE + i) == Some(image[i]))
    && forall a :: !(BASE <= a < BASE + |image|) ==> Pi.Lookup(memory, a) == Pi.Lookup(c.memory, a)
  }

  /**
   * A Pi that boots has received as many bytes as the program has, and they have the
   * program's checksum.
   */
  lemma BootedImageIsVerified(c: Session, w: World)
    requires Admissible(c) && Reachable(c, w) && w.pi.stage.Booted?
    ensures |c.delivered| == |c.program| && Crc.Checksum(c.delivered) == Crc.Checksum(c.program)
    ensures ImageLoaded(c, w.pi.memory, c.delivered)
    ensures w.dropped == 0
  {
    BootProof.ReachableKeeps(c, w);
    assert c.delivered[..|c.program|] == c.delivered;
    Pi.StoreAllLookup(c.memory, BASE, c.delivered);
  }

  /**
   * It has the program itself if all altered bits lie within 32 consecutive ones, in
   * particular if the line delivers what the installer sends.
   */
  lemma BootedImageIsProgram(c: Session, w: World, burst: nat)
    requires Admissible(c) && Reachable(c, w) && w.pi.stage.Booted?
    requires |c.delivered| == |c.program| ==> Crc.AgreeOutsideBurst(c.program, c.delivered, burst)
    ensures c.delivered == c.program && ImageLoaded(c, w.pi.memory, c.program)
  {
    BootedImageIsVerified(c, w);
    if c.delivered != c.program {
      Crc.BurstIsDetected(c.program, c.delivered, burst);
    }
  }

  /** Once part of a word has been thrown away the Pi never even asks for the code. */
  lemma DroppedByteMeansNoBoot(c: Session, w: World)
    requires Admissible(c) && Reachable(c, w) && w.dropped > 0
    ensures Pi.Replies(w.pi.stage) == 0 && !w.pi.stage.Booted?
    ensures w.pi.memory == c.memory
  {
    BootProof.ReachableKeeps(c, w);
    assert c.delivered[..0] == [];
  }

  /** The loader writes inside `[BASE, BASE + length)` only, and only below its own code. */
  lemma StoresStayInRange(c: Session, w: World)
    requires Admissible(c) && Reachable(c, w)
    ensures forall a :: !(0x8000 <= a < 0x8000 + |c.program|) ==>
                          Pi.Lookup(w.pi.memory, a) == Pi.Lookup(c.memory, a)
    ensures w.pi.memory != c.memory ==> 0x8000 + |c.program| < 0x20_0000
  {
    BootProof.ReachableKeeps(c, w);
    PrefixHeld(c, w);
    var m: nat :| Holds(c, w.pi.memory, m);
    Pi.StoreAllLookup(c.memory, BASE, c.delivered[..m]);
  }

  lemma PrefixHeld(c: Session, w: World)
    requires Admissible(c) && PiListens(c, w)
    ensures Stored(c, w.pi.memory)
  {
    var m := match w.pi.stage
             case Receiving => Taken(w.pi)
             case AwaitDone => |c.program|
             case Booted => |c.program|
             case _ => 0;
    assert w.pi.stage.Failed? || Holds(c, w.pi.memory, m);
  }

  /**
   * In the receive loop the index never passes the end of the program, and it is at the
   * end only on entry with an empty program: the exit by exact equality is not missed.
   */
  lemma ReceiveNeverOvershoots(c: Session, w: World)
    requires Admissible(c) && Reachable(c, w) && w.pi.stage.Receiving?
    ensures BASE <= w.pi.index <= BASE + w.pi.length < Pi.BOOTLOADER_LOCATION && w.pi.length == |c.program|
    ensures w.pi.index == BASE + w.pi.length ==> w.pi.length == 0
  {
    BootProof.ReachableKeeps(c, w);
  }

  /**
   * The Pi jumps only when the installer has finished, the installer finishes only when
   * the Pi has verified the image, and so an installer that has failed is never left
   * with a Pi that boots.
   */
  lemma HandshakeIsCausal(c: Session, w: World)
    requires Admissible(c) && Reachable(c, w)
    ensures w.pi.stage.Booted? ==> w.host.stage.Done?
    ensures w.host.stage.Done? ==> Pi.Replies(w.pi.stage) == 2
    ensures w.host.stage.Done? ==> |c.delivered| == |c.program|
                                   && Crc.Checksum(c.delivered) == Crc.Checksum(c.program)
    ensures w.host.stage.Failed? ==> !w.pi.stage.Booted?
    ensures |w.host.sent| > 12 ==> Pi.Replies(w.pi.stage) >= 1 && w.pi.checksum == Crc.Checksum(c.program)
  {
    BootProof.ReachableKeeps(c, w);
    BootProof.WireIsPrefix(c, w.host.sent);
  }

  /** However late the installer joins, its lock is on a frame boundary and within seven bytes. */
  lemma LockIsAligned(c: Session, w: World)
    requires Admissible(c) && Reachable(c, w) && w.host.stage.PutHeader?
    ensures w.hostRead % 4 == 0 && 4 <= w.hostRead - w.joined <= 7
  {
    BootProof.ReachableKeeps(c, w);
    LockedThere(c, w);
    FirstLockIsNear(w.joined);
  }

  lemma LockedThere(c: Session, w: World)
    requires HostListens(c, w) && w.host.stage.PutHeader?
    ensures w.hostRead == w.joined + FirstLock(w.joined)
  {
  }

  /**
   * However many requests are still in flight, skipping stops exactly at the first byte
   * of the Pi's reply, and only `PI_GET_CODE` and the right checksum get past it.
   */
  lemma SkipStopsAtReply(c: Session, w: World)
    requires Admissible(c) && Reachable(c, w)
    ensures w.host.stage.Skipping? ==> w.hostRead <= 4 * w.pi.requests
    ensures w.host.stage.Matching? ==> w.hostRead == 4 * w.pi.requests + w.host.got && w.host.got >= 1
    ensures w.host.stage.PutProgram? ==>
              w.hostRead == 4 * w.pi.requests + 8 <= |w.pi.sent|
              && w.pi.sent[w.hostRead - 8..w.hostRead] == ToLe(PI_GET_CODE) + ToLe(Crc.Checksum(c.program))
  {
    BootProof.ReachableKeeps(c, w);
    if w.host.stage.PutProgram? {
      var r := 4 * w.pi.requests;
      assert w.pi.sent[r..r + 8] == Tail(w.pi)[..8];
      assert w.pi.checksum == Crc.Checksum(c.program);
    }
  }

  // ------------------------------- the two programs inside a session

  predicate IsPiAction(a: Action) {
    a.PiByte? || a.PiDeadline? || a.PiPoll?
  }

  /** The inputs that a run of the session gives to the loader. */
  ghost function PiInputs(c: Session, w: World, actions: seq<Action>): seq<Pi.Input>
    requires Possible(c, w, actions)
    decreases |actions|
  {
    if actions == [] then []
    else
      PiHead(c, w, actions[0]) + PiInputs(c, Next(c, w, actions[0]), actions[1..])
  }

  /** The inputs that it gives to the installer. */
  ghost function HostInputs(c: Session, w: World, actions: seq<Action>): seq<Host.Input>
    requires Possible(c, w, actions)
    decreases |actions|
  {
    if actions == [] then []
    else
      HostHead(c, w, actions[0]) + HostInputs(c, Next(c, w, actions[0]), actions[1..])
  }

  lemma PiAnswersMore(start: Pi.Pi, script: seq<Pi.Input>, e: Pi.Input)
    requires Pi.Answers(start, script) && Pi.Accepts(Pi.Run(start, script), e)
    ensures Pi.Answers(start, script + [e]) && Pi.Run(start, script + [e]) == Pi.Step(Pi.Run(start, script), e)
  {
    Pi.RunAppend(start, script, e);
    forall i: nat | i < |script + [e]|
      ensures Pi.Answered(start, script + [e], i)
    {
      assert (script + [e])[..i] == script[..i];
      if i < |script| {
        assert Pi.Answered(start, script, i);
      } else {
        assert script[..i] == script;
      }
    }
  }

  lemma HostAnswersMore(program: seq<byte>, script: seq<Host.Input>, e: Host.Input)
    requires Host.Answers(program, script)
    requires Host.Accepts(program, Host.Run(program, Host.START, script), e)
    ensures Host.Answers(program, script + [e])
    ensures Host.Run(program, Host.START, script + [e])
            == Host.Step(program, Host.Run(program, Host.START, script), e)
  {
    assert (script + [e])[..|script|] == script;
    forall i: nat | i < |script + [e]|
      ensures Host.Answered(program, script + [e], i)
    {
      assert (script + [e])[..i] == script[..i];
      if i < |script| {
        assert Host.Answered(program, script, i);
      } else {
        assert script[..i] == script;
      }
    }
  }

  lemma ActionFeedsOneSide(c: Session, w: World, a: Action)
    requires Enabled(c, w, a)
    ensures IsPiAction(a) ==> Next(c, w, a).pi == Pi.Step(w.pi, PiInput(c, w, a)) && Pi.Accepts(w.pi, PiInput(c, w, a))
    ensures !IsPiAction(a) ==> Next(c, w, a).pi == w.pi
    ensures IsHostAction(a) ==> Next(c, w, a).host == Host.Step(c.program, w.host, HostInput(w, a))
                                && Host.Accepts(c.program, w.host, HostInput(w, a))
    ensures !IsHostAction(a) ==> Next(c, w, a).host == w.host
  {
  }

  function PiHead(c: Session, w: World, a: Action): seq<Pi.Input>
    requires Enabled(c, w, a)
  {
    if IsPiAction(a) then [PiInput(c, w, a)] else []
  }

  function HostHead(c: Session, w: World, a: Action): seq<Host.Input>
    requires Enabled(c, w, a)
  {
    if IsHostAction(a) then [HostInput(w, a)] else []
  }

  /** One action later each program has taken the input that the action gives it, if any. */
  lemma ProgramsFollow(c: Session, w: World, a: Action, start: Pi.Pi, pis: seq<Pi.Input>, hosts: seq<Host.Input>)
    requires Enabled(c, w, a)
    requires w.pi == Pi.Run(start, pis) && Pi.Answers(start, pis)
    requires w.host == Host.Run(c.program, Host.START, hosts) && Host.Answers(c.program, hosts)
    ensures Next(c, w, a).pi == Pi.Run(start, pis + PiHead(c, w, a))
            && Pi.Answers(start, pis + PiHead(c, w, a))
    ensures Next(c, w, a).host == Host.Run(c.program, Host.START, hosts + HostHead(c, w, a))
            && Host.Answers(c.program, hosts + HostHead(c, w, a))
  {
    ActionFeedsOneSide(c, w, a);
    assert pis + [] == pis && hosts + [] == hosts;
    if IsPiAction(a) {
      PiAnswersMore(start, pis, PiInput(c, w, a));
    }
    if IsHostAction(a) {
      HostAnswersMore(c.program, hosts, HostInput(w, a));
    }
  }

  lemma {:induction false} ProgramsKeepFollowing(c: Session, w: World, actions: seq<Action>,
                                                 start: Pi.Pi, pis: seq<Pi.Input>, hosts: seq<Host.Input>)
    requires Possible(c, w, actions)
    requires w.pi == Pi.Run(start, pis) && Pi.Answers(start, pis)
    requires w.host == Host.Run(c.program, Host.START, hosts) && Host.Answers(c.program, hosts)
    ensures var script := pis + PiInputs(c, w, actions);
            End(c, w, actions).pi == Pi.Run(start, script) && Pi.Answers(start, script)
    ensures var script := hosts + HostInputs(c, w, actions);
            End(c, w, actions).host == Host.Run(c.program, Host.START, script) && Host.Answers(c.program, script)
    decreases |actions|
  {
    if actions == [] {
      assert pis + [] == pis && hosts + [] == hosts;
    } else {
      var a := actions[0];
      var x, rest := Next(c, w, a), actions[1..];
      ProgramsFollow(c, w, a, start, pis, hosts);
      ProgramsKeepFollowing(c, x, rest, start, pis + PiHead(c, w, a), hosts + HostHead(c, w, a));
      Regroup(pis, PiHead(c, w, a), PiInputs(c, x, rest));
      Regroup(hosts, HostHead(c, w, a), HostInputs(c, x, rest));
    }
  }

  /**
   * Each side of a session is a run of the program that `Loader` and `Transmitter` are:
   * on the inputs that the session gives them they reach the session's states.
   */
  lemma SessionRunsThePrograms(c: Session, actions: seq<Action>)
    requires Possible(c, Initial(c), actions)
    ensures var script := PiInputs(c, Initial(c), actions);
            Pi.Answers(Pi.Start(c.memory), script)
            && Pi.Run(Pi.Start(c.memory), script) == End(c, Initial(c), actions).pi
    ensures var script := HostInputs(c, Initial(c), actions);
            Host.Answers(c.program, script)
            && Host.Run(c.program, Host.START, script) == End(c, Initial(c), actions).host
  {
    ProgramsKeepFollowing(c, Initial(c), actions, Pi.Start(c.memory), [], []);
    assert [] + PiInputs(c, Initial(c), actions) == PiInputs(c, Initial(c), actions);
    assert [] + HostInputs(c, Initial(c), actions) == HostInputs(c, Initial(c), actions);
  }
}
