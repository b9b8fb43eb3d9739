/**
 * A boot session has no dead ends: from every reachable state in which nobody has given up
 * and no byte has been thrown away, cooperation leads to a booted Pi.
 */
module BootCompletion {
  import opened Bytes
  import opened BootShared
  import opened BootSession
  import opened BootProof
  import Crc
  import Pi = Bootloader
  import Host = Installer

  /** The line is intact, the program fits, and nothing has gone wrong so far. */
  ghost predicate Undisturbed(c: Session, w: World) {
    Admissible(c) && c.delivered == c.program && BASE + |c.program| < Pi.BOOTLOADER_LOCATION
    && Inv(c, w) && w.dropped == 0 && !w.pi.stage.Failed? && !w.host.stage.Failed?
  }

  function Available(c: Session, w: World): int {
    |Wire(c, w.host.sent)| - w.piRead
  }

  /** What a cooperative environment does next. */
  function Cooperate(c: Session, w: World): Action {
    if !w.attached then Open
    else if Host.Writes(w.host.stage) then HostWritten
    else if Pi.ReadsWord(w.pi.stage) && Available(c, w) > 0 then PiByte
    else if w.pi.stage.Receiving? && (Available(c, w) > 0 || (Available(c, w) == 0 && w.pi.length == 0)) then
      PiPoll(Min(8, Available(c, w)), false)
    else if w.hostRead < |w.pi.sent| then HostByte
    else PiDeadline
  }

  function HostRank(w: World): nat {
    match w.host.stage
    case Locking => if w.attached then 9 else 10
    case PutHeader => 8
    case Skipping => 7
    case Matching => 6
    case Echo => 5
    case PutProgram => 4
    case AwaitSuccess => 3
    case PutSuccess => 2
    case _ => 1
  }

  function PiRank(w: World): nat {
    match w.pi.stage
    case AwaitInfo => 6
    case AwaitLength => 5
    case AwaitChecksum => 4
    case Receiving => 3
    case AwaitDone => 2
    case _ => 1
  }

  function HostLeft(w: World): int {
    if w.host.stage.Locking? then
      2 * (w.joined + FirstLock(w.joined) - w.hostRead) + (if w.hostRead == |w.pi.sent| then 1 else 0)
    else 4 * w.pi.requests + 12 - w.hostRead
  }

  function PiLeft(c: Session, w: World): int {
    16 + |c.program| - w.piRead
  }

  ghost predicate Closer(c: Session, w: World, x: World) {
    HostRank(x) < HostRank(w) || (HostRank(x) == HostRank(w) &&
      (PiRank(x) < PiRank(w) || (PiRank(x) == PiRank(w) &&
        (0 <= HostLeft(x) < HostLeft(w) || (HostLeft(x) == HostLeft(w) &&
          0 <= PiLeft(c, x) < PiLeft(c, w))))))
  }

  lemma TailLength(pi: Pi.Pi)
    requires PiSpeaks(pi) && !pi.stage.Failed?
    ensures |pi.sent| == 4 * pi.requests + (if Pi.Replies(pi.stage) == 0 then 0
                                            else if Pi.Replies(pi.stage) == 1 then 8 else 12)
  {
  }

  /** While the installer is not done there is a reply only to what has been asked. */
  lemma WhereTheyAre(c: Session, w: World)
    requires Undisturbed(c, w) && !w.host.stage.Done?
    ensures !w.pi.stage.Booted? && (w.pi.stage.AwaitDone? ==> Available(c, w) == 0)
    ensures Available(c, w) >= 0
    ensures w.host.stage.Locking? ==> w.pi.stage.AwaitInfo? && w.pi.got == 0
    ensures w.host.stage.AwaitSuccess? ==> Available(c, w) == 12 + |c.program| - w.piRead
    ensures w.host.stage.Skipping? || w.host.stage.Matching? || w.host.stage.Echo? ==>
              Available(c, w) == 12 - w.piRead
  {
    WireIsPrefix(c, w.host.sent);
    if w.host.stage.Locking? {
      OnlyRequestsYet(c, w);
    }
    if w.host.stage.AwaitSuccess? {
      assert Wire(c, w.host.sent) == w.host.sent[..12] + c.delivered;
    }
  }

  /** If neither side has anything to read or write the installer has just missed a request. */
  lemma DeadlineOnlyWhileLocking(c: Session, w: World)
    requires Undisturbed(c, w) && !w.host.stage.Done? && Cooperate(c, w).PiDeadline?
    ensures w.host.stage.Locking? && w.pi.stage.AwaitInfo? && w.pi.got == 0
  {
    WhereTheyAre(c, w);
    TailLength(w.pi);
  }

  lemma CooperationIsPossible(c: Session, w: World)
    requires Undisturbed(c, w) && !w.host.stage.Done?
    ensures Enabled(c, w, Cooperate(c, w))
  {
    WhereTheyAre(c, w);
    if Cooperate(c, w).PiDeadline? {
      DeadlineOnlyWhileLocking(c, w);
    }
  }

  lemma PiByteHelps(c: Session, w: World)
    requires Undisturbed(c, w) && !w.host.stage.Done?
    requires Pi.ReadsWord(w.pi.stage) && Available(c, w) > 0
    ensures var x := Next(c, w, PiByte); !x.pi.stage.Failed? && Closer(c, w, x)
  {
    PiWaits(c, w);
    if w.pi.got == 3 {
      WordIsRight(c, w);
    }
    PiByteIsProgress(c, w, Next(c, w, PiByte), Wire(c, w.host.sent)[w.piRead]);
  }

  /** Before the installer is done, a byte on the line is not one of its last word. */
  lemma PiWaits(c: Session, w: World)
    requires Undisturbed(c, w) && !w.host.stage.Done?
    requires Pi.ReadsWord(w.pi.stage) && Available(c, w) > 0
    ensures !w.host.stage.Locking? && !w.pi.stage.AwaitDone?
    ensures w.piRead < |WireScript(c)| && Wire(c, w.host.sent)[w.piRead] == WireScript(c)[w.piRead]
    ensures w.piRead < 16 + |c.program|
  {
    WhereTheyAre(c, w);
    WireIsPrefix(c, w.host.sent);
  }

  lemma PiByteIsProgress(c: Session, w: World, x: World, b: byte)
    requires x == w.(pi := Pi.Step(w.pi, Pi.Byte(b)), piRead := w.piRead + 1) && w.piRead < 16 + |c.program|
    requires Pi.ReadsWord(w.pi.stage) && !w.pi.stage.AwaitDone? && !w.host.stage.Locking?
    requires var word := ShiftIn(w.pi.window, b);
             w.pi.got == 3 ==>
               (w.pi.stage.AwaitInfo? ==> word == INSTALLER_PROG_INFO)
               && (w.pi.stage.AwaitLength? ==> BASE + word < Pi.BOOTLOADER_LOCATION)
    ensures !x.pi.stage.Failed? && Closer(c, w, x)
  {
  }

  /** The word that the next byte completes is the one that the Pi waits for. */
  lemma WordIsRight(c: Session, w: World)
    requires Undisturbed(c, w) && !w.host.stage.Done? && w.pi.got == 3
    requires Pi.ReadsWord(w.pi.stage) && 0 < Available(c, w) && w.piRead < |WireScript(c)|
    ensures var word := ShiftIn(w.pi.window, WireScript(c)[w.piRead]);
            (w.pi.stage.AwaitInfo? ==> word == INSTALLER_PROG_INFO)
            && (w.pi.stage.AwaitLength? ==> word == |c.program|)
  {
    WordOnLine(c, w.pi, w.piRead);
  }

  lemma WordOnLine(c: Session, pi: Pi.Pi, read: nat)
    requires Admissible(c) && read < |WireScript(c)| && Window(pi.window, 3, WireScript(c), read)
    requires (pi.stage.AwaitInfo? ==> read == 3) && (pi.stage.AwaitLength? ==> read == 7)
    ensures var word := ShiftIn(pi.window, WireScript(c)[read]);
            (pi.stage.AwaitInfo? ==> word == INSTALLER_PROG_INFO)
            && (pi.stage.AwaitLength? ==> word == |c.program|)
  {
    WindowByte(pi.window, 3, WireScript(c), read);
    LineWords(c);
    LeRoundTrip(INSTALLER_PROG_INFO);
    LeRoundTrip(|c.program|);
  }

  /** A poll takes what the program has there, and the digest is right once all of it is in. */
  lemma PollSettles(c: Session, w: World, a: Action) returns (q: Pi.Pi)
    requires Admissible(c) && c.delivered == c.program && Loading(c, w) && a.PiPoll? && Enabled(c, w, a)
    requires a.n > 0 || (!a.expired && w.pi.length == 0)
    ensures Next(c, w, a) == w.(pi := Pi.Settle(q), piRead := w.piRead + a.n)
    ensures q.stage == w.pi.stage && q.requests == w.pi.requests && q.sent == w.pi.sent
    ensures (Pi.Full(q) || a.n > 0) && (Pi.Full(q) ==> Crc.Finalize(q.digest) == q.checksum)
  {
    var x, chunk := PollStep(c, w, a);
    PollTakesDelivered(c, w, x, a.n, chunk, a.expired);
    q := PolledSettles(c, w, x, chunk, a.expired);
  }

  lemma PolledSettles(c: Session, w: World, x: World, chunk: Pi.Chunk, expired: bool) returns (q: Pi.Pi)
    requires Polled(c, w, x, chunk, expired) && c.delivered == c.program
    requires chunk != [] || (!expired && w.pi.length == 0)
    ensures x.pi == Pi.Settle(q)
    ensures q.stage == w.pi.stage && q.requests == w.pi.requests && q.sent == w.pi.sent
    ensures (Pi.Full(q) || chunk != []) && (Pi.Full(q) ==> Crc.Finalize(q.digest) == q.checksum)
  {
    q := Pi.Received(w.pi, chunk);
    DigestIsRight(c, w.pi, chunk);
  }

  lemma PollHelps(c: Session, w: World, a: Action)
    requires Undisturbed(c, w) && !w.host.stage.Done?
    requires a.PiPoll? && !a.expired && Enabled(c, w, a) && (a.n > 0 || w.pi.length == 0)
    ensures var x := Next(c, w, a); !x.pi.stage.Failed? && Closer(c, w, x)
  {
    ReceivingIsLoading(c, w);
    var q := PollSettles(c, w, a);
    PollIsLate(c, w, a);
    SettleHelps(c, w, Next(c, w, a), q);
  }

  /** The installer has locked by the time that the Pi polls, and no poll takes more than was sent. */
  lemma PollIsLate(c: Session, w: World, a: Action)
    requires Undisturbed(c, w) && !w.host.stage.Done? && a.PiPoll? && Enabled(c, w, a)
    ensures !w.host.stage.Locking? && w.piRead <= Next(c, w, a).piRead <= 16 + |c.program|
  {
    WhereTheyAre(c, w);
    WireIsPrefix(c, w.host.sent);
  }

  lemma SettleHelps(c: Session, w: World, x: World, q: Pi.Pi)
    requires w.pi.stage.Receiving? && w.piRead <= x.piRead <= 16 + |c.program|
    requires Pi.Full(q) || w.piRead < x.piRead
    requires q.stage == w.pi.stage && q.requests == w.pi.requests && q.sent == w.pi.sent
    requires Pi.Full(q) ==> Crc.Finalize(q.digest) == q.checksum
    requires x == w.(pi := Pi.Settle(q), piRead := x.piRead) && !w.host.stage.Locking?
    ensures !x.pi.stage.Failed? && Closer(c, w, x)
  {
    if Pi.Full(q) {
      assert PiRank(x) == 2;
    } else {
      assert HostLeft(x) == HostLeft(w);
    }
  }

  lemma DigestIsRight(c: Session, p: Pi.Pi, chunk: Pi.Chunk)
    requires Progress(c, p) && c.delivered == c.program && Taken(p) + |chunk| <= |c.delivered|
    requires chunk == c.delivered[Taken(p)..Taken(p) + |chunk|]
    ensures var q := Pi.Received(p, chunk);
            (Pi.Full(q) ==> Crc.Finalize(q.digest) == q.checksum)
            && (p.length == 0 ==> Pi.Full(q))
  {
    PollProgresses(c, p, chunk);
    FullMeansAll(c, Pi.Received(p, chunk));
  }

  lemma HostByteHelps(c: Session, w: World)
    requires Undisturbed(c, w) && !w.host.stage.Done? && w.attached
    requires Host.Reads(w.host.stage) && w.hostRead < |w.pi.sent|
    ensures var x := Next(c, w, HostByte); !x.host.stage.Failed? && Closer(c, w, x)
  {
    if w.host.stage.Skipping? {
      SkippedByteHelps(c, w);
    } else if !w.host.stage.Locking? {
      WordByteHelps(c, w);
    }
  }

  lemma SkippedByteHelps(c: Session, w: World)
    requires Undisturbed(c, w) && w.host.stage.Skipping? && w.hostRead < |w.pi.sent| && w.attached
    ensures var x := Next(c, w, HostByte); !x.host.stage.Failed? && Closer(c, w, x)
  {
    TailLength(w.pi);
    SkipStopsAtReply(w);
    assert HostLeft(Next(c, w, HostByte)) >= 0;
  }

  lemma WordByteHelps(c: Session, w: World)
    requires Undisturbed(c, w) && w.hostRead < |w.pi.sent| && w.attached
    requires w.host.stage.Matching? || w.host.stage.Echo? || w.host.stage.AwaitSuccess?
    ensures var x := Next(c, w, HostByte); !x.host.stage.Failed? && Closer(c, w, x)
  {
    TailLength(w.pi);
    if w.host.got == 3 {
      HostWordIsRight(c, w);
    }
    WordByteIsProgress(c, w, Next(c, w, HostByte), w.pi.sent[w.hostRead]);
  }

  lemma WordByteIsProgress(c: Session, w: World, x: World, b: byte)
    requires w.host.stage.Matching? || w.host.stage.Echo? || w.host.stage.AwaitSuccess?
    requires x == w.(host := Host.GotByte(c.program, w.host, b), hostRead := w.hostRead + 1)
    requires w.hostRead + 1 <= 4 * w.pi.requests + 12
    requires w.host.got == 3 ==> ShiftIn(w.host.window, b)
                                 == match w.host.stage
                                    case Matching => PI_GET_CODE
                                    case Echo => Crc.Checksum(c.program)
                                    case _ => PI_SUCCESS
    ensures !x.host.stage.Failed? && Closer(c, w, x)
  {
  }

  lemma HostWordIsRight(c: Session, w: World)
    requires Undisturbed(c, w) && w.host.got == 3 && w.hostRead < |w.pi.sent|
    requires w.host.stage.Matching? || w.host.stage.Echo? || w.host.stage.AwaitSuccess?
    ensures ShiftIn(w.host.window, w.pi.sent[w.hostRead])
            == match w.host.stage
               case Matching => PI_GET_CODE
               case Echo => Crc.Checksum(c.program)
               case _ => PI_SUCCESS
  {
    WindowByte(w.host.window, 3, w.pi.sent, w.hostRead);
    ReplyWord(w.pi, w.hostRead - 3 - 4 * w.pi.requests);
    RepliedChecksum(c, w);
  }

  lemma RepliedChecksum(c: Session, w: World)
    requires Undisturbed(c, w) && Pi.Replies(w.pi.stage) >= 1
    ensures w.pi.checksum == Crc.Checksum(c.program)
  {
  }

  lemma ReplyWord(pi: Pi.Pi, i: nat)
    requires PiSpeaks(pi) && !pi.stage.Failed? && i in {0, 4, 8} && 4 * pi.requests + i + 4 <= |pi.sent|
    ensures FromLe(pi.sent[4 * pi.requests + i..4 * pi.requests + i + 4])
            == if i == 0 then PI_GET_CODE else if i == 4 then pi.checksum else PI_SUCCESS
    ensures Pi.Replies(pi.stage) >= 1
  {
    TailLength(pi);
    var tail := Tail(pi);
    SliceOfTail(Requests(pi.requests), tail, i, i + 4);
    LeRoundTrip(PI_GET_CODE);
    LeRoundTrip(PI_SUCCESS);
    LeRoundTrip(pi.checksum);
    if i == 0 {
      assert tail[0..4] == ToLe(PI_GET_CODE);
    } else if i == 4 {
      assert tail[4..8] == ToLe(pi.checksum);
    } else {
      assert tail[8..12] == ToLe(PI_SUCCESS);
    }
  }

  lemma CooperationHelps(c: Session, w: World)
    requires Undisturbed(c, w) && !w.host.stage.Done?
    ensures var a := Cooperate(c, w);
            Enabled(c, w, a) && Undisturbed(c, Next(c, w, a)) && Closer(c, w, Next(c, w, a))
  {
    CooperationIsPossible(c, w);
    var a := Cooperate(c, w);
    NextKeeps(c, w, a);
    if a.PiByte? {
      PiByteHelps(c, w);
    } else if a.PiPoll? {
      PollHelps(c, w, a);
    } else if a.HostByte? {
      HostByteHelps(c, w);
    } else if a.PiDeadline? {
      DeadlineHelps(c, w);
    } else {
      OpeningOrWritingHelps(c, w, a);
    }
    StillUndisturbed(c, w, Next(c, w, a));
  }

  lemma StillUndisturbed(c: Session, w: World, x: World)
    requires Undisturbed(c, w) && Inv(c, x)
    requires x.dropped == 0 && !x.pi.stage.Failed? && !x.host.stage.Failed?
    ensures Undisturbed(c, x)
  {
  }

  lemma DeadlineHelps(c: Session, w: World)
    requires Undisturbed(c, w) && !w.host.stage.Done? && Cooperate(c, w).PiDeadline?
    ensures Enabled(c, w, PiDeadline)
    ensures var x := Next(c, w, PiDeadline); x.dropped == 0 && !x.pi.stage.Failed? && Closer(c, w, x)
  {
    DeadlineOnlyWhileLocking(c, w);
    TailLength(w.pi);
  }

  lemma OpeningOrWritingHelps(c: Session, w: World, a: Action)
    requires Enabled(c, w, a) && (a.Open? || a.HostWritten?) && (!w.attached ==> w.host.stage.Locking?)
    ensures var x := Next(c, w, a);
            x.pi == w.pi && x.dropped == w.dropped && !x.host.stage.Failed? && Closer(c, w, x)
  {
  }

  lemma {:induction false} InstallerCanFinish(c: Session, w: World) returns (actions: seq<Action>)
    requires Undisturbed(c, w)
    ensures Possible(c, w, actions) && Undisturbed(c, End(c, w, actions))
    ensures End(c, w, actions).host.stage.Done?
    decreases HostRank(w), PiRank(w), HostLeft(w), PiLeft(c, w)
  {
    if w.host.stage.Done? {
      actions := [];
    } else {
      CooperationHelps(c, w);
      var a := Cooperate(c, w);
      var rest := InstallerCanFinish(c, Next(c, w, a));
      actions := [a] + rest;
      assert actions[1..] == rest;
    }
  }

  /** With the installer done, four more bytes boot the Pi. */
  lemma {:induction false} PiCanBoot(c: Session, w: World) returns (actions: seq<Action>)
    requires Undisturbed(c, w) && w.host.stage.Done?
    ensures Possible(c, w, actions) && End(c, w, actions).pi.stage.Booted?
    decreases PiLeft(c, w)
  {
    if w.pi.stage.Booted? {
      actions := [];
    } else {
      DoneByteHelps(c, w);
      var rest := PiCanBoot(c, Next(c, w, PiByte));
      actions := [PiByte] + rest;
      assert actions[1..] == rest;
    }
  }

  lemma DoneByteHelps(c: Session, w: World)
    requires Undisturbed(c, w) && w.host.stage.Done? && !w.pi.stage.Booted?
    ensures Enabled(c, w, PiByte) && Undisturbed(c, Next(c, w, PiByte))
    ensures 0 <= PiLeft(c, Next(c, w, PiByte)) < PiLeft(c, w)
  {
    DoneWire(c, w);
    NextKeeps(c, w, PiByte);
    if w.pi.got == 3 {
      DoneWord(c, w);
    }
  }

  lemma DoneWire(c: Session, w: World)
    requires Undisturbed(c, w) && w.host.stage.Done? && !w.pi.stage.Booted?
    ensures Wire(c, w.host.sent) == WireScript(c)
    ensures w.pi.stage.AwaitDone? && w.piRead < |WireScript(c)|
  {
    DoneSent(c, w);
    WholeWire(c);
  }

  lemma DoneSent(c: Session, w: World)
    requires HostSpeaks(c, w) && w.host.stage.Done?
    ensures w.host.sent == HostScript(c.program)
  {
    ScriptPrefixes(c.program);
  }

  lemma WholeWire(c: Session)
    requires c.delivered == c.program
    ensures Wire(c, HostScript(c.program)) == WireScript(c)
  {
    var n := |c.program|;
    ScriptPrefixes(c.program);
    SliceOfTail(Host.Header(c.program) + c.program, ToLe(INSTALLER_SUCCESS), 0, 4);
    assert HostScript(c.program)[12 + n..] == ToLe(INSTALLER_SUCCESS);
  }

  lemma {:induction false} RunsCompose(c: Session, w: World, a: seq<Action>, b: seq<Action>)
    requires Possible(c, w, a) && Possible(c, End(c, w, a), b)
    ensures Possible(c, w, a + b) && End(c, w, a + b) == End(c, End(c, w, a), b)
    decreases |a|
  {
    if a == [] {
      assert a + b == b;
    } else {
      assert (a + b)[1..] == a[1..] + b;
      RunsCompose(c, Next(c, w, a[0]), a[1..], b);
    }
  }

  /** From every undisturbed state the session can still end with the Pi booted. */
  lemma NoDeadEnd(c: Session, w: World)
    requires Undisturbed(c, w)
    ensures exists actions :: Possible(c, w, actions) && End(c, w, actions).pi.stage.Booted?
  {
    var a := InstallerCanFinish(c, w);
    var b := PiCanBoot(c, End(c, w, a));
    RunsCompose(c, w, a, b);
  }

  lemma StartIsUndisturbed(c: Session)
    requires Admissible(c) && c.delivered == c.program && BASE + |c.program| < Pi.BOOTLOADER_LOCATION
    ensures Undisturbed(c, Initial(c))
  {
    InitialHolds(c);
  }

  /** In particular every program that fits can be booted. */
  lemma EveryProgramCanBoot(c: Session)
    requires Admissible(c) && c.delivered == c.program && BASE + |c.program| < Pi.BOOTLOADER_LOCATION
    ensures exists w :: Reachable(c, w) && w.pi.stage.Booted? && w.host.stage.Done?
  {
    StartIsUndisturbed(c);
    NoDeadEnd(c, Initial(c));
    var actions :| Possible(c, Initial(c), actions) && End(c, Initial(c), actions).pi.stage.Booted?;
    var w := End(c, Initial(c), actions);
    assert Reachable(c, w);
    ReachableKeeps(c, w);
  }

  /**
   * The handshake does not hold the other way round: the installer can report success
   * and the Pi still give up, because nothing tells the installer that its last word
   * came too late.
   */
  lemma SuccessDoesNotMeanBooted(c: Session)
    requires Admissible(c) && c.delivered == c.program && BASE + |c.program| < Pi.BOOTLOADER_LOCATION
    ensures exists w :: Reachable(c, w) && w.host.stage.Done? && w.pi.stage.Failed?
  {
    var w0 := Initial(c);
    StartIsUndisturbed(c);
    var a := InstallerBeforeBoot(c, w0);
    var w1 := End(c, w0, a);
    RunsCompose(c, w0, a, [PiDeadline]);
    assert Possible(c, Next(c, w1, PiDeadline), []);
    var w2 := End(c, w0, a + [PiDeadline]);
    assert Reachable(c, w2);
  }

  /** The installer's last write comes before the Pi has read any of it. */
  lemma {:induction false} InstallerBeforeBoot(c: Session, w: World) returns (actions: seq<Action>)
    requires Undisturbed(c, w) && !w.host.stage.Done?
    ensures Possible(c, w, actions)
    ensures End(c, w, actions).host.stage.Done? && End(c, w, actions).pi.stage.AwaitDone?
    decreases HostRank(w), PiRank(w), HostLeft(w), PiLeft(c, w)
  {
    CooperationHelps(c, w);
    LastWrite(c, w);
    var a := Cooperate(c, w);
    var rest := [];
    if !Next(c, w, a).host.stage.Done? {
      rest := InstallerBeforeBoot(c, Next(c, w, a));
    }
    actions := [a] + rest;
    assert actions[1..] == rest;
  }

  /** The installer finishes by writing, and only once the Pi waits for that. */
  lemma LastWrite(c: Session, w: World)
    requires Undisturbed(c, w) && !w.host.stage.Done? && Enabled(c, w, Cooperate(c, w))
    ensures var x := Next(c, w, Cooperate(c, w)); x.host.stage.Done? ==> x.pi.stage.AwaitDone?
  {
    if w.host.stage.PutSuccess? {
      LastStage(c, w);
    }
    DoneByWriting(c, w, Cooperate(c, w));
  }

  lemma LastStage(c: Session, w: World)
    requires Undisturbed(c, w) && w.host.stage.PutSuccess?
    ensures w.pi.stage.AwaitDone?
  {
    WhereTheyAre(c, w);
  }

  lemma DoneByWriting(c: Session, w: World, a: Action)
    requires Enabled(c, w, a) && !w.host.stage.Done?
    ensures Next(c, w, a).host.stage.Done? ==> w.host.stage.PutSuccess? && Next(c, w, a).pi == w.pi
  {
  }
}
