/** The invariant of a boot session, kept by every action. */
module BootProof {
  import opened Bytes
  import opened BootShared
  import opened BootSession
  import Crc
  import Pi = Bootloader
  import Host = Installer

  // ------------------------------------------------------------- the line

  lemma WireIsPrefix(c: Session, sent: seq<byte>)
    requires Admissible(c) && |sent| <= 16 + |c.program| && sent == HostScript(c.program)[..|sent|]
    ensures var wire := Wire(c, sent);
            |wire| <= |WireScript(c)| && wire == WireScript(c)[..|wire|]
            && (|sent| <= 12 ==> |wire| == |sent|)
            && (|sent| <= 12 + |c.program| ==> |wire| <= 12 + |c.delivered|)
  {
    var n, header := |c.program|, Host.Header(c.program);
    var wire, line := Wire(c, sent), WireScript(c);
    if |sent| > 12 {
      assert sent[..12] == header;
      if |sent| > 12 + n {
        assert sent[12 + n..] == ToLe(INSTALLER_SUCCESS)[..|sent| - 12 - n];
      }
    }
  }

  lemma WireGrows(c: Session, a: seq<byte>, b: seq<byte>)
    requires Admissible(c) && |a| <= |b|
    ensures |Wire(c, a)| <= |Wire(c, b)|
  {
  }

  /** The four words that frame the program on the line. */
  lemma LineWords(c: Session)
    requires Admissible(c)
    ensures var line, n := WireScript(c), |c.delivered|;
            line[..4] == ToLe(INSTALLER_PROG_INFO) && line[4..8] == ToLe(|c.program|)
            && line[8..12] == ToLe(Crc.Checksum(c.program)) && line[12..12 + n] == c.delivered
            && line[12 + n..] == ToLe(INSTALLER_SUCCESS)
  {
    assert Host.Length(c.program) == |c.program|;
    FourParts(ToLe(INSTALLER_PROG_INFO), ToLe(|c.program|), ToLe(Crc.Checksum(c.program)),
              c.delivered, ToLe(INSTALLER_SUCCESS));
  }

  lemma FourParts(x: seq<byte>, y: seq<byte>, z: seq<byte>, d: seq<byte>, e: seq<byte>)
    requires |x| == |y| == |z| == 4
    ensures var line := x + y + z + d + e;
            line[..4] == x && line[4..8] == y && line[8..12] == z && line[12..12 + |d|] == d && line[12 + |d|..] == e
  {
  }

  lemma WireSlice(c: Session, sent: seq<byte>, i: nat, j: nat)
    requires Admissible(c) && |sent| <= 12 + |c.program| && sent == HostScript(c.program)[..|sent|]
    requires i <= j && 12 + j <= |Wire(c, sent)|
    ensures j <= |c.delivered| && Wire(c, sent)[12 + i..12 + j] == c.delivered[i..j]
  {
    WireIsPrefix(c, sent);
  }

  /** A complete word is the little-endian one that its four bytes on the line spell. */
  lemma WindowByte(window: word, got: nat, line: seq<byte>, read: nat)
    requires Window(window, got, line, read) && read < |line|
    ensures got < 3 ==> Window(ShiftIn(window, line[read]), got + 1, line, read + 1)
    ensures got == 3 ==> ShiftIn(window, line[read]) == FromLe(line[read - 3..read + 1])
  {
    var seen, more := line[read - got..read], line[read + 1 - (got + 1)..read + 1];
    assert more == seen + [line[read]];
    ShownMore(seen, line[read]);
    if got == 3 {
      ShownFour(more);
    }
  }

  lemma EmptyWindow(line: seq<byte>, read: nat)
    requires read <= |line|
    ensures Window(0, 0, line, read)
  {
  }

  // ---------------------------------------------------------------- memory

  lemma HoldsMore(c: Session, memory: Pi.Memory, i: nat, j: nat, at: int, chunk: seq<byte>)
    requires Holds(c, memory, i) && i <= j <= |c.delivered|
    requires at == BASE + i && chunk == c.delivered[i..j]
    requires BASE + |c.program| < Pi.BOOTLOADER_LOCATION
    ensures Holds(c, Pi.StoreAll(memory, at, chunk), j)
  {
    Pi.StoreAllConcat(c.memory, BASE, c.delivered[..i], chunk);
    assert c.delivered[..i] + chunk == c.delivered[..j];
  }

  // ---------------------------------------------------------- the Pi moves

  lemma FailSpeaks(p: Pi.Pi)
    requires PiSpeaks(p) && !Pi.Over(p.stage)
    ensures PiSpeaks(Pi.Fail(p))
  {
    assert Tail(Pi.Fail(p)) == Tail(p) + ToLe(PI_ERROR);
  }

  lemma ReplySpeaks(p: Pi.Pi, q: Pi.Pi, reply: seq<byte>)
    requires PiSpeaks(p) && !Pi.Over(p.stage) && !Pi.Over(q.stage)
    requires q.requests == p.requests && q.sent == p.sent + reply && Pi.Replies(q.stage) <= 2
    requires Tail(q) == Tail(p) + reply
    ensures PiSpeaks(q)
  {
  }

  lemma WordSpeaks(p: Pi.Pi, w: word)
    requires PiSpeaks(p) && Pi.ReadsWord(p.stage)
    ensures var q := Pi.GotWord(p, w);
            PiSpeaks(q) && Pi.Replies(q.stage) >= Pi.Replies(p.stage) && p.sent <= q.sent
            && q.requests == p.requests
  {
    FailSpeaks(p);
    var q := Pi.GotWord(p, w);
    if q.stage.Receiving? {
      assert Tail(p) == [];
      assert q.sent == p.sent + (ToLe(PI_GET_CODE) + ToLe(w));
    } else if !q.stage.Failed? {
      assert Tail(q) == Tail(p);
    }
  }

  lemma PollSpeaks(p: Pi.Pi, chunk: Pi.Chunk, expired: bool)
    requires PiSpeaks(p) && p.stage.Receiving?
    ensures var q := Pi.Step(p, Pi.Poll(chunk, expired));
            PiSpeaks(q) && Pi.Replies(q.stage) >= 1 && p.sent <= q.sent && q.requests == p.requests
  {
    FailSpeaks(p);
    var r := Pi.Received(p, chunk);
    assert Tail(r) == Tail(p);
    FailSpeaks(r);
    var q := Pi.Step(p, Pi.Poll(chunk, expired));
    if q.stage.AwaitDone? {
      ReplySpeaks(r, q, ToLe(PI_SUCCESS));
    }
  }

  lemma DeadlineSpeaks(p: Pi.Pi)
    requires PiSpeaks(p) && Pi.ReadsWord(p.stage)
    ensures var q := Pi.Step(p, Pi.Deadline);
            PiSpeaks(q) && Pi.Replies(q.stage) == Pi.Replies(p.stage) && p.sent <= q.sent
            && (!p.stage.AwaitInfo? ==> q.requests == p.requests)
  {
    if p.stage.AwaitInfo? {
      assert Tail(p) == Tail(Pi.AskAgain(p)) == [];
    } else {
      FailSpeaks(p);
    }
  }

  /** What the installer knows stays true when the Pi says more. */
  lemma HostKeepsListening(c: Session, w: World, x: World)
    requires HostListens(c, w) && PiSpeaks(w.pi) && w.pi.sent <= x.pi.sent
    requires x.host == w.host && x.attached == w.attached && x.hostRead == w.hostRead && x.joined == w.joined
    requires Pi.Replies(x.pi.stage) >= Pi.Replies(w.pi.stage)
    requires x.pi.requests == w.pi.requests || (Tail(w.pi) == [] && x.pi.requests > w.pi.requests)
    ensures HostListens(c, x)
  {
    var h, from, to := w.host, w.hostRead - w.host.got, w.hostRead;
    if x.pi.requests > w.pi.requests {
      assert w.hostRead <= |w.pi.sent| == 4 * w.pi.requests;
    }
    if h.stage.Locking? && w.attached {
      assert x.pi.sent[w.joined..to] == w.pi.sent[w.joined..to];
    }
    if 0 <= from && h.got < 4 && Window(h.window, h.got, w.pi.sent, to) {
      WindowKept(h.window, h.got, w.pi.sent, x.pi.sent, to);
    }
  }

  lemma WindowKept(window: word, got: nat, line: seq<byte>, longer: seq<byte>, read: nat)
    requires Window(window, got, line, read) && line <= longer
    ensures Window(window, got, longer, read)
  {
    assert longer[read - got..read] == line[read - got..read];
  }

  /** Failing keeps what is in memory and what has been verified. */
  lemma FailListens(c: Session, w: World, x: World, m: nat)
    requires PiListens(c, w) && !Pi.Over(w.pi.stage) && Holds(c, w.pi.memory, m)
    requires x.pi == Pi.Fail(w.pi) && x.host == w.host
    requires 4 <= x.piRead <= |Wire(c, w.host.sent)| && x.dropped == w.dropped
    ensures PiListens(c, x)
  {
    assert Holds(c, x.pi.memory, m);
  }

  /** A byte of a word that is not complete yet. */
  lemma PiByteInWord(c: Session, w: World, a: Action)
    requires Admissible(c) && Inv(c, w) && a.PiByte? && Enabled(c, w, a) && w.pi.got < 3
    ensures Inv(c, Next(c, w, a))
  {
    WireIsPrefix(c, w.host.sent);
    var x := Next(c, w, a);
    InWordListens(c, w, x);
    assert Tail(x.pi) == Tail(w.pi);
    PiMoves(c, w, x);
  }

  lemma InWordListens(c: Session, w: World, x: World)
    requires PiListens(c, w) && Pi.ReadsWord(w.pi.stage) && w.pi.got < 3
    requires w.piRead < |Wire(c, w.host.sent)| && w.piRead < |WireScript(c)|
    requires x == w.(pi := Pi.Step(w.pi, Pi.Byte(WireScript(c)[w.piRead])), piRead := w.piRead + 1)
    ensures PiListens(c, x)
  {
    WindowByte(w.pi.window, w.pi.got, WireScript(c), w.piRead);
  }

  /** The byte that completes a word. */
  lemma PiByteEndsWord(c: Session, w: World, a: Action)
    requires Admissible(c) && Inv(c, w) && a.PiByte? && Enabled(c, w, a) && w.pi.got == 3
    ensures Inv(c, Next(c, w, a))
  {
    var line, p := WireScript(c), w.piRead;
    WireIsPrefix(c, w.host.sent);
    WindowByte(w.pi.window, w.pi.got, line, p);
    LineWords(c);
    var word := FromLe(line[p - 3..p + 1]);
    var x := Next(c, w, a);
    assert x.pi == Pi.GotWord(w.pi, word);
    WordSpeaks(w.pi, word);
    WordKeepsPiListening(c, w, a, word);
    PiMoves(c, w, x);
  }

  lemma WordKeepsPiListening(c: Session, w: World, a: Action, word: word)
    requires Admissible(c) && Inv(c, w) && a.PiByte? && Enabled(c, w, a) && w.pi.got == 3
    requires w.piRead < |WireScript(c)| && word == FromLe(WireScript(c)[w.piRead - 3..w.piRead + 1])
    requires Next(c, w, a).pi == Pi.GotWord(w.pi, word)
    ensures PiListens(c, Next(c, w, a))
  {
    var x := Next(c, w, a);
    if x.pi.stage.Failed? {
      FailListens(c, w, x, if w.pi.stage.AwaitDone? then |c.program| else 0);
    } else {
      if w.pi.stage.AwaitLength? {
        LengthWord(c, w, word);
      } else if w.pi.stage.AwaitChecksum? {
        ChecksumWord(c, w, word);
      }
      WordAdvances(c, w, x, word);
    }
  }

  lemma WordAdvances(c: Session, w: World, x: World, word: word)
    requires Admissible(c) && PiListens(c, w) && Pi.ReadsWord(w.pi.stage) && w.pi.got == 3
    requires w.piRead < |WireScript(c)| && w.piRead < |Wire(c, w.host.sent)| && !x.pi.stage.Failed?
    requires x == w.(pi := Pi.GotWord(w.pi, word), piRead := w.piRead + 1)
    requires w.pi.stage.AwaitLength? && w.dropped == 0 ==> word == |c.program|
    requires w.pi.stage.AwaitChecksum? ==> w.dropped == 0 && w.piRead == 11 && word == Crc.Checksum(c.program)
    ensures PiListens(c, x)
  {
    EmptyWindow(WireScript(c), w.piRead + 1);
    match w.pi.stage
    case AwaitInfo => InfoAdvances(c, w, x, word);
    case AwaitLength => LengthAdvances(c, w, x, word);
    case AwaitChecksum => ChecksumAdvances(c, w, x, word);
    case AwaitDone => DoneAdvances(c, w, x, word);
  }

  lemma InfoAdvances(c: Session, w: World, x: World, word: word)
    requires PiListens(c, w) && w.pi.stage.AwaitInfo? && w.pi.got == 3 && w.piRead < |Wire(c, w.host.sent)|
    requires x == w.(pi := Pi.GotWord(w.pi, word), piRead := w.piRead + 1) && !x.pi.stage.Failed?
    requires Window(0, 0, WireScript(c), w.piRead + 1)
    ensures PiListens(c, x)
  {
  }

  lemma LengthAdvances(c: Session, w: World, x: World, word: word)
    requires Admissible(c) && PiListens(c, w) && w.pi.stage.AwaitLength? && w.pi.got == 3
    requires w.piRead < |Wire(c, w.host.sent)| && (w.dropped == 0 ==> word == |c.program|)
    requires x == w.(pi := Pi.GotWord(w.pi, word), piRead := w.piRead + 1) && !x.pi.stage.Failed?
    requires Window(0, 0, WireScript(c), w.piRead + 1)
    ensures PiListens(c, x)
  {
  }

  lemma ChecksumAdvances(c: Session, w: World, x: World, word: word)
    requires PiListens(c, w) && w.pi.stage.AwaitChecksum? && w.pi.got == 3
    requires w.dropped == 0 && w.piRead == 11 < |Wire(c, w.host.sent)| && word == Crc.Checksum(c.program)
    requires x == w.(pi := Pi.GotWord(w.pi, word), piRead := w.piRead + 1)
    ensures PiListens(c, x)
  {
    assert c.delivered[..0] == [];
    assert Progress(c, x.pi);
  }

  lemma DoneAdvances(c: Session, w: World, x: World, word: word)
    requires PiListens(c, w) && w.pi.stage.AwaitDone? && w.pi.got == 3 && w.piRead < |Wire(c, w.host.sent)|
    requires x == w.(pi := Pi.GotWord(w.pi, word), piRead := w.piRead + 1) && !x.pi.stage.Failed?
    ensures PiListens(c, x)
  {
  }

  /** Nothing but the installer's success word can follow a verified program. */
  lemma DoneWord(c: Session, w: World)
    requires Admissible(c) && HostSpeaks(c, w) && PiListens(c, w) && w.pi.stage.AwaitDone?
    requires w.pi.got == 3 && w.piRead < |Wire(c, w.host.sent)|
    ensures ShiftIn(w.pi.window, Wire(c, w.host.sent)[w.piRead]) == INSTALLER_SUCCESS
  {
    WireIsPrefix(c, w.host.sent);
    LastWord(c, w.pi.window, w.piRead);
  }

  lemma LastWord(c: Session, window: word, read: nat)
    requires Admissible(c) && Window(window, 3, WireScript(c), read) && read == 15 + |c.delivered|
    ensures ShiftIn(window, WireScript(c)[read]) == INSTALLER_SUCCESS
  {
    var line := WireScript(c);
    WindowByte(window, 3, line, read);
    LineWords(c);
    assert line[read - 3..read + 1] == line[12 + |c.delivered|..];
    LeRoundTrip(INSTALLER_SUCCESS);
  }

  lemma LengthWord(c: Session, w: World, word: word)
    requires Admissible(c) && PiListens(c, w) && w.pi.stage.AwaitLength?
    requires w.pi.got == 3 && w.piRead < |WireScript(c)|
    requires word == FromLe(WireScript(c)[w.piRead - 3..w.piRead + 1])
    ensures w.dropped == 0 ==> word == |c.program|
  {
    if w.dropped == 0 {
      LineWords(c);
      assert w.piRead == 7;
      LeRoundTrip(|c.program|);
    }
  }

  lemma ChecksumWord(c: Session, w: World, word: word)
    requires Admissible(c) && Inv(c, w) && w.pi.stage.AwaitChecksum?
    requires w.pi.got == 3 && w.piRead < |Wire(c, w.host.sent)|
    requires word == FromLe(WireScript(c)[w.piRead - 3..w.piRead + 1])
    ensures w.dropped == 0 && w.piRead == 11 && word == Crc.Checksum(c.program)
  {
    HeaderIsComplete(c, w);
    LineWords(c);
    LeRoundTrip(Crc.Checksum(c.program));
  }

  /** The installer writes no thirteenth byte before the Pi has replied: none can be missing. */
  lemma HeaderIsComplete(c: Session, w: World)
    requires Admissible(c) && Inv(c, w) && w.pi.stage.AwaitChecksum?
    requires w.pi.got == 3 && w.piRead < |Wire(c, w.host.sent)|
    ensures w.dropped == 0 && w.piRead == 11
  {
    WireIsPrefix(c, w.host.sent);
  }

  lemma PiDeadlineKeeps(c: Session, w: World, a: Action)
    requires Admissible(c) && Inv(c, w) && a.PiDeadline? && Enabled(c, w, a)
    ensures Inv(c, Next(c, w, a))
  {
    var x := Next(c, w, a);
    DeadlineSpeaks(w.pi);
    DeadlineListens(c, w, x);
    DeadlineAsks(w.pi);
    PiMoves(c, w, x);
  }

  /** A request is repeated only while nothing else has been said. */
  lemma DeadlineAsks(p: Pi.Pi)
    ensures var q := Pi.Step(p, Pi.Deadline);
            q.requests == p.requests || (Tail(p) == [] && q.requests > p.requests)
  {
  }

  lemma DeadlineListens(c: Session, w: World, x: World)
    requires PiListens(c, w) && Pi.ReadsWord(w.pi.stage) && x.pi == Pi.Step(w.pi, Pi.Deadline)
    requires x.host == w.host && x.piRead == w.piRead
    requires x.dropped == w.dropped + if w.pi.stage.AwaitInfo? then w.pi.got else 0
    ensures PiListens(c, x)
  {
    if w.pi.stage.AwaitInfo? {
      AskingListens(c, w, x);
    } else {
      FailListens(c, w, x, if w.pi.stage.AwaitDone? then |c.program| else 0);
    }
  }

  lemma AskingListens(c: Session, w: World, x: World)
    requires PiListens(c, w) && w.pi.stage.AwaitInfo? && x.pi == Pi.AskAgain(w.pi)
    requires x.host == w.host && x.piRead == w.piRead && x.dropped == w.dropped + w.pi.got
    ensures PiListens(c, x)
  {
    EmptyWindow(WireScript(c), w.piRead);
    assert Holds(c, x.pi.memory, 0);
  }

  lemma PollProgresses(c: Session, p: Pi.Pi, chunk: Pi.Chunk)
    requires Progress(c, p) && Taken(p) + |chunk| <= |c.delivered| <= |c.program|
    requires chunk == c.delivered[Taken(p)..Taken(p) + |chunk|]
    ensures Progress(c, Pi.Received(p, chunk)) && Taken(Pi.Received(p, chunk)) == Taken(p) + |chunk|
  {
    var q := Pi.Received(p, chunk);
    assert Taken(q) == Taken(p) + |chunk|;
    Progresses(c, p, q, chunk);
  }

  lemma Progresses(c: Session, p: Pi.Pi, q: Pi.Pi, chunk: Pi.Chunk)
    requires Progress(c, p) && Taken(p) <= Taken(q) <= |c.delivered|
    requires chunk == c.delivered[Taken(p)..Taken(q)]
    requires q.memory == Pi.StoreAll(p.memory, p.index, chunk) && q.digest == Crc.Update(p.digest, chunk)
    requires q.length == p.length && q.checksum == p.checksum
    ensures Progress(c, q)
  {
    HoldsMore(c, p.memory, Taken(p), Taken(q), p.index, chunk);
    DigestsMore(c, p.digest, Taken(p), Taken(q), chunk);
  }

  lemma DigestsMore(c: Session, digest: Crc.Register, i: nat, j: nat, chunk: seq<byte>)
    requires i <= j <= |c.delivered| && chunk == c.delivered[i..j]
    requires digest == Crc.Digest(c.delivered[..i])
    ensures Crc.Update(digest, chunk) == Crc.Digest(c.delivered[..j])
  {
    Crc.UpdateConcat(Crc.ZERO, c.delivered[..i], chunk);
    assert c.delivered[..i] + chunk == c.delivered[..j];
  }

  /** The exit test compares the number of bytes taken with the program's length. */
  lemma FullMeansAll(c: Session, q: Pi.Pi)
    requires Progress(c, q) && |c.delivered| <= |c.program|
    ensures Pi.Full(q) <==> Taken(q) == |c.program|
    ensures Pi.Full(q) ==> |c.delivered| == |c.program| && Holds(c, q.memory, |c.program|)
                           && Crc.Finalize(q.digest) == Crc.Checksum(c.delivered)
  {
    if Pi.Full(q) {
      assert c.delivered[..|c.delivered|] == c.delivered;
    }
  }

  /** `x` is `w` after a round of the receive loop that took `chunk` off the line. */
  ghost predicate Polled(c: Session, w: World, x: World, chunk: Pi.Chunk, expired: bool) {
    var i := Taken(w.pi);
    && w.pi.stage.Receiving? && InLoop(c, w) && w.dropped == x.dropped == 0 && x.host == w.host
    && 0 <= i && i + |chunk| <= |c.delivered| && chunk == c.delivered[i..i + |chunk|]
    && x.piRead == w.piRead + |chunk| <= |Wire(c, w.host.sent)|
    && x.pi == Pi.Step(w.pi, Pi.Poll(chunk, expired))
  }

  /** The loader receives only what was delivered in a session in which nothing was dropped. */
  ghost predicate Loading(c: Session, w: World) {
    HostSpeaks(c, w) && Causal(c, w) && InLoop(c, w) && w.dropped == 0 && w.pi.stage.Receiving?
  }

  lemma ReceivingIsLoading(c: Session, w: World)
    requires Inv(c, w) && w.pi.stage.Receiving?
    ensures Loading(c, w)
  {
  }

  lemma PollTakesDelivered(c: Session, w: World, x: World, n: nat, chunk: Pi.Chunk, expired: bool)
    requires Admissible(c) && Loading(c, w) && w.piRead + n <= |Wire(c, w.host.sent)|
    requires chunk == Wire(c, w.host.sent)[w.piRead..w.piRead + n]
    requires x.host == w.host && x.dropped == w.dropped && x.piRead == w.piRead + n
    requires x.pi == Pi.Step(w.pi, Pi.Poll(chunk, expired))
    ensures Polled(c, w, x, chunk, expired)
  {
    PollSlice(c, w, n);
  }

  /** What is on the line while the loader receives is what is delivered of the program. */
  lemma PollSlice(c: Session, w: World, n: nat)
    requires Admissible(c) && Loading(c, w) && w.piRead + n <= |Wire(c, w.host.sent)|
    ensures var i := Taken(w.pi);
            0 <= i && i + n <= |c.delivered|
            && Wire(c, w.host.sent)[w.piRead..w.piRead + n] == c.delivered[i..i + n]
  {
    WireSlice(c, w.host.sent, Taken(w.pi), Taken(w.pi) + n);
  }

  /** One round of the receive loop continues it, ends it well, or ends it in failure. */
  lemma PollListens(c: Session, w: World, x: World, chunk: Pi.Chunk, expired: bool)
    requires Admissible(c) && PiListens(c, w) && Polled(c, w, x, chunk, expired)
    ensures PiListens(c, x)
  {
    if chunk == [] && expired {
      FailListens(c, w, x, Taken(w.pi));
    } else {
      PollDataListens(c, w, x, chunk, expired);
    }
  }

  lemma PollDataListens(c: Session, w: World, x: World, chunk: Pi.Chunk, expired: bool)
    requires Admissible(c) && Polled(c, w, x, chunk, expired) && !(chunk == [] && expired)
    ensures PiListens(c, x)
  {
    var q := Pi.Received(w.pi, chunk);
    PollProgresses(c, w.pi, chunk);
    FullMeansAll(c, q);
    SettleListens(c, x, q);
  }

  lemma SettleListens(c: Session, x: World, q: Pi.Pi)
    requires Admissible(c) && Progress(c, q) && q.stage.Receiving? && x.pi == Pi.Settle(q)
    requires x.dropped == 0 && x.piRead == 12 + Taken(q) <= |Wire(c, x.host.sent)|
    requires Pi.Full(q) <==> Taken(q) == |c.program|
    requires Pi.Full(q) ==> |c.delivered| == |c.program| && Holds(c, q.memory, |c.program|)
                            && Crc.Finalize(q.digest) == Crc.Checksum(c.delivered)
    ensures PiListens(c, x)
  {
    EmptyWindow(WireScript(c), x.piRead);
    assert Holds(c, x.pi.memory, Taken(q));
  }

  lemma PiPollKeeps(c: Session, w: World, a: Action)
    requires Admissible(c) && Inv(c, w) && a.PiPoll? && Enabled(c, w, a)
    ensures Inv(c, Next(c, w, a))
  {
    var x, chunk := PollStep(c, w, a);
    ReceivingIsLoading(c, w);
    PollKeeps(c, w, x, a.n, chunk, a.expired);
  }

  /** What a poll takes off the line. */
  lemma PollStep(c: Session, w: World, a: Action) returns (x: World, chunk: Pi.Chunk)
    requires a.PiPoll? && Enabled(c, w, a)
    ensures x == Next(c, w, a) && w.piRead + a.n <= |Wire(c, w.host.sent)|
    ensures chunk == Wire(c, w.host.sent)[w.piRead..w.piRead + a.n]
    ensures x == w.(pi := Pi.Step(w.pi, Pi.Poll(chunk, a.expired)), piRead := w.piRead + a.n)
  {
    x, chunk := Next(c, w, a), Wire(c, w.host.sent)[w.piRead..w.piRead + a.n];
  }

  lemma PollKeeps(c: Session, w: World, x: World, n: nat, chunk: Pi.Chunk, expired: bool)
    requires Admissible(c) && Inv(c, w) && Loading(c, w)
    requires w.piRead + n <= |Wire(c, w.host.sent)| && chunk == Wire(c, w.host.sent)[w.piRead..w.piRead + n]
    requires x == w.(pi := Pi.Step(w.pi, Pi.Poll(chunk, expired)), piRead := w.piRead + n)
    ensures Inv(c, x)
  {
    PollTakesDelivered(c, w, x, n, chunk, expired);
    PollSpeaks(w.pi, chunk, expired);
    PollListens(c, w, x, chunk, expired);
    PiMoves(c, w, x);
  }

  /** The installer's side is kept by whatever the Pi says next. */
  lemma PiMoves(c: Session, w: World, x: World)
    requires HostSpeaks(c, w) && Causal(c, w) && HostListens(c, w) && PiSpeaks(w.pi)
    requires PiSpeaks(x.pi) && PiListens(c, x) && x.host == w.host && w.pi.sent <= x.pi.sent
    requires x.attached == w.attached && x.hostRead == w.hostRead && x.joined == w.joined
    requires Pi.Replies(x.pi.stage) >= Pi.Replies(w.pi.stage)
    requires x.pi.requests == w.pi.requests || (Tail(w.pi) == [] && x.pi.requests > w.pi.requests)
    ensures Inv(c, x)
  {
    HostKeepsListening(c, w, x);
  }

  // --------------------------------------------------- the installer moves

  /** What the Pi has heard stays true when the installer says more. */
  lemma PiKeepsListening(c: Session, w: World, x: World)
    requires Admissible(c) && PiListens(c, w) && |w.host.sent| <= |x.host.sent|
    requires x.pi == w.pi && x.piRead == w.piRead && x.dropped == w.dropped
    ensures PiListens(c, x)
  {
    WireGrows(c, w.host.sent, x.host.sent);
  }

  lemma SliceOfTail(a: seq<byte>, b: seq<byte>, i: nat, j: nat)
    requires i <= j <= |b|
    ensures (a + b)[|a| + i..|a| + j] == b[i..j]
  {
  }

  /** The Pi's reply starts where its requests end. */
  lemma ReplyWords(w: World, i: nat)
    requires PiSpeaks(w.pi) && 4 * w.pi.requests + i + 4 <= |w.pi.sent| && i in {0, 4, 8}
    ensures var r, word := 4 * w.pi.requests, FromLe(w.pi.sent[4 * w.pi.requests + i..4 * w.pi.requests + i + 4]);
            (i == 0 && word == PI_GET_CODE ==> Pi.Replies(w.pi.stage) >= 1)
            && (i == 8 && word == PI_SUCCESS ==> Pi.Replies(w.pi.stage) >= 2)
            && (i == 4 && Pi.Replies(w.pi.stage) >= 1 ==> word == w.pi.checksum)
  {
    var r, tail := 4 * w.pi.requests, Tail(w.pi);
    var bytes := w.pi.sent[r + i..r + i + 4];
    SliceOfTail(Requests(w.pi.requests), tail, i, i + 4);
    LeRoundTrip(PI_ERROR);
    LeRoundTrip(w.pi.checksum);
    if Pi.Replies(w.pi.stage) == 0 {
      assert i == 0 && bytes == ToLe(PI_ERROR);
    } else if Pi.Replies(w.pi.stage) == 1 {
      assert i == 4 ==> bytes == ToLe(w.pi.checksum);
      assert i == 8 ==> bytes == ToLe(PI_ERROR);
    } else {
      assert i == 4 ==> bytes == ToLe(w.pi.checksum);
    }
  }

  lemma ScriptPrefixes(program: seq<byte>)
    ensures var all, n := HostScript(program), |program|;
            all[..0] == [] && all[..12] == Host.Header(program)
            && all[..12 + n] == Host.Header(program) + program && all[..16 + n] == all
            && all == Host.Header(program) + program + ToLe(INSTALLER_SUCCESS)
  {
  }

  lemma ScriptGrows(program: seq<byte>, stage: Host.Stage, sent: seq<byte>, k: nat)
    requires Host.Writes(stage) && k <= |Host.Payload(program, stage)|
    requires |sent| == (if stage.PutHeader? then 0 else if stage.PutProgram? then 12 else 12 + |program|)
    requires sent == HostScript(program)[..|sent|]
    ensures |sent| + k <= 16 + |program|
    ensures sent + Host.Payload(program, stage)[..k] == HostScript(program)[..|sent| + k]
  {
    ScriptPrefixes(program);
  }

  lemma HostWrittenKeeps(c: Session, w: World, a: Action)
    requires Admissible(c) && Inv(c, w) && a.HostWritten? && Enabled(c, w, a)
    ensures Inv(c, Next(c, w, a))
  {
    var x, payload := Next(c, w, a), Host.Payload(c.program, w.host.stage);
    ScriptGrows(c.program, w.host.stage, w.host.sent, |payload|);
    assert payload[..|payload|] == payload;
    PiKeepsListening(c, w, x);
    EmptyWindow(w.pi.sent, w.hostRead);
    if w.host.stage.PutHeader? {
      assert |Wire(c, w.host.sent)| == 0;
      assert w.pi.sent == Requests(w.pi.requests) + [];
    }
  }

  lemma HostWriteFailsKeeps(c: Session, w: World, a: Action)
    requires Admissible(c) && Inv(c, w) && a.HostWriteFails? && Enabled(c, w, a)
    ensures Inv(c, Next(c, w, a))
  {
    var x, payload := Next(c, w, a), Host.Payload(c.program, w.host.stage);
    ScriptGrows(c.program, w.host.stage, w.host.sent, a.written);
    PiKeepsListening(c, w, x);
  }

  lemma HostTimeoutKeeps(c: Session, w: World, a: Action)
    requires Admissible(c) && Inv(c, w) && a.HostTimeout? && Enabled(c, w, a)
    ensures Inv(c, Next(c, w, a))
  {
    PiKeepsListening(c, w, Next(c, w, a));
  }

  /** In `Skipping` the next byte ends the skip exactly when it is the first after the requests. */
  lemma SkipStopsAtReply(w: World)
    requires PiSpeaks(w.pi) && w.hostRead <= 4 * w.pi.requests && w.hostRead < |w.pi.sent|
    ensures IsPiGetProgInfoByte(w.pi.sent[w.hostRead]) <==> w.hostRead < 4 * w.pi.requests
  {
    var r := 4 * w.pi.requests;
    if w.hostRead < r {
      RequestByteAt(w.pi.requests, w.hostRead);
    } else {
      assert w.pi.sent[w.hostRead] == Tail(w.pi)[0];
      if Pi.Replies(w.pi.stage) >= 1 {
        assert Tail(w.pi)[0] == ToLe(PI_GET_CODE)[0] == 0x22;
      } else {
        assert Tail(w.pi)[0] == ToLe(PI_ERROR)[0] == 0x11;
      }
    }
  }

  /** `x` is `w` after the installer has taken the next byte off its line. */
  ghost predicate HostTook(c: Session, w: World, x: World) {
    w.hostRead < |w.pi.sent| && w.attached && x.attached && x.pi == w.pi && x.hostRead == w.hostRead + 1
    && x.joined == w.joined
    && Host.Reads(w.host.stage) && x.host == Host.GotByte(c.program, w.host, w.pi.sent[w.hostRead])
  }

  lemma HostByteKeeps(c: Session, w: World, a: Action)
    requires Admissible(c) && Inv(c, w) && a.HostByte? && Enabled(c, w, a)
    ensures Inv(c, Next(c, w, a))
  {
    HostTookKeeps(c, w, Next(c, w, a));
  }

  lemma HostTookKeeps(c: Session, w: World, x: World)
    requires Admissible(c) && Inv(c, w) && HostTook(c, w, x)
    requires x.piRead == w.piRead && x.dropped == w.dropped
    ensures Inv(c, x)
  {
    HostByteSpeaks(c, w, x);
    PiKeepsListening(c, w, x);
    HostByteListens(c, w, x);
  }

  lemma HostByteListens(c: Session, w: World, x: World)
    requires Admissible(c) && Inv(c, w) && HostTook(c, w, x)
    ensures HostListens(c, x)
  {
    if w.host.stage.Locking? {
      OnlyRequestsYet(c, w);
      HostLockListens(c, w, x);
    } else if w.host.stage.Skipping? {
      HostSkipListens(c, w, x);
    } else if w.host.got < 3 {
      HostInWordListens(c, w, x);
    } else {
      HostWordListens(c, w, x);
    }
  }

  lemma HostByteSpeaks(c: Session, w: World, x: World)
    requires HostSpeaks(c, w) && HostTook(c, w, x)
    ensures HostSpeaks(c, x) && x.host.sent == w.host.sent
  {
  }

  /** As long as the installer has written nothing the Pi has only sent requests. */
  lemma OnlyRequestsYet(c: Session, w: World)
    requires PiSpeaks(w.pi) && PiListens(c, w) && |w.host.sent| == 0
    ensures w.pi.stage.AwaitInfo? && w.pi.got == 0 && w.pi.sent == Requests(w.pi.requests)
  {
    assert Tail(w.pi) == [];
    assert |Wire(c, w.host.sent)| == 0;
  }

  lemma HostLockListens(c: Session, w: World, x: World)
    requires HostListens(c, w) && HostTook(c, w, x) && w.host.stage.Locking?
    requires w.pi.sent == Requests(w.pi.requests)
    ensures HostListens(c, x)
  {
    LockStep(w.pi.requests, w.joined, w.hostRead);
  }

  lemma LockStep(k: nat, o: nat, e: nat)
    requires o <= e < 4 * k && e < o + FirstLock(o)
    ensures var v := ShiftIn(Shown(Requests(k)[o..e]), Requests(k)[e]);
            v == Shown(Requests(k)[o..e + 1]) && (v == PI_GET_PROG_INFO <==> e + 1 == o + FirstLock(o))
  {
    var sent := Requests(k);
    ShownMore(sent[o..e], sent[e]);
    assert sent[o..e] + [sent[e]] == sent[o..e + 1];
    LocksAfter(k, o, e + 1);
  }

  lemma LocksAfter(k: nat, o: nat, e: nat)
    requires o < e <= 4 * k && e <= o + FirstLock(o)
    ensures Shown(Requests(k)[o..e]) == PI_GET_PROG_INFO <==> e == o + FirstLock(o)
  {
    WindowLocksOnFrameBoundary(k, o, e - o);
    assert o + (e - o) == e;
    LocksAtFirst(o, e - o);
  }

  lemma LocksAtFirst(o: nat, p: nat)
    requires p <= FirstLock(o)
    ensures p >= 4 && (o + p) % 4 == 0 <==> p == FirstLock(o)
  {
  }

  lemma HostSkipListens(c: Session, w: World, x: World)
    requires PiSpeaks(w.pi) && HostListens(c, w) && HostTook(c, w, x) && w.host.stage.Skipping?
    ensures HostListens(c, x)
  {
    SkipStopsAtReply(w);
    EmptyWindow(w.pi.sent, w.hostRead);
    WindowByte(0, 0, w.pi.sent, w.hostRead);
  }

  lemma HostInWordListens(c: Session, w: World, x: World)
    requires HostListens(c, w) && HostTook(c, w, x) && w.host.got < 3
    requires !w.host.stage.Locking? && !w.host.stage.Skipping?
    ensures HostListens(c, x)
  {
    WindowByte(w.host.window, w.host.got, w.pi.sent, w.hostRead);
  }

  lemma HostWordListens(c: Session, w: World, x: World)
    requires PiSpeaks(w.pi) && HostListens(c, w) && HostTook(c, w, x) && w.host.got == 3
    requires !w.host.stage.Locking? && !w.host.stage.Skipping?
    ensures HostListens(c, x)
  {
    var h, sent, p := w.host, w.pi.sent, w.hostRead;
    WindowByte(h.window, h.got, sent, p);
    EmptyWindow(sent, p + 1);
    ReplyWords(w, p - 3 - 4 * w.pi.requests);
  }

  lemma AttachKeeps(c: Session, w: World, a: Action)
    requires Admissible(c) && Inv(c, w) && (a.Open? || a.MissByte?) && Enabled(c, w, a)
    ensures Inv(c, Next(c, w, a))
  {
    PiKeepsListening(c, w, Next(c, w, a));
  }

  lemma PiActionKeeps(c: Session, w: World, a: Action)
    requires Admissible(c) && Inv(c, w) && (a.PiByte? || a.PiDeadline? || a.PiPoll?) && Enabled(c, w, a)
    ensures Inv(c, Next(c, w, a))
  {
    if a.PiDeadline? {
      PiDeadlineKeeps(c, w, a);
    } else if a.PiPoll? {
      PiPollKeeps(c, w, a);
    } else if w.pi.got < 3 {
      PiByteInWord(c, w, a);
    } else {
      assert w.pi.got == 3;
      PiByteEndsWord(c, w, a);
    }
  }

  lemma HostActionKeeps(c: Session, w: World, a: Action)
    requires Admissible(c) && Inv(c, w) && IsHostAction(a) && Enabled(c, w, a)
    ensures Inv(c, Next(c, w, a))
  {
    if a.HostByte? {
      HostByteKeeps(c, w, a);
    } else if a.HostTimeout? {
      HostTimeoutKeeps(c, w, a);
    } else if a.HostWritten? {
      HostWrittenKeeps(c, w, a);
    } else {
      HostWriteFailsKeeps(c, w, a);
    }
  }

  /** Every action keeps the invariant. */
  lemma NextKeeps(c: Session, w: World, a: Action)
    requires Admissible(c) && Inv(c, w) && Enabled(c, w, a)
    ensures Inv(c, Next(c, w, a))
  {
    if IsHostAction(a) {
      HostActionKeeps(c, w, a);
    } else if a.Open? || a.MissByte? {
      AttachKeeps(c, w, a);
    } else {
      PiActionKeeps(c, w, a);
    }
  }

  lemma InitialHolds(c: Session)
    requires Admissible(c)
    ensures Inv(c, Initial(c))
  {
    assert Requests(1) == Requests(0) + ToLe(PI_GET_PROG_INFO);
    assert Holds(c, c.memory, 0);
  }

  lemma {:induction false} RunKeeps(c: Session, w: World, actions: seq<Action>)
    requires Admissible(c) && Inv(c, w) && Possible(c, w, actions)
    ensures Inv(c, End(c, w, actions))
    decreases |actions|
  {
    if actions != [] {
      NextKeeps(c, w, actions[0]);
      RunKeeps(c, Next(c, w, actions[0]), actions[1..]);
    }
  }

  lemma ReachableKeeps(c: Session, w: World)
    requires Admissible(c) && Reachable(c, w)
    ensures Inv(c, w)
  {
    var actions :| Possible(c, Initial(c), actions) && End(c, Initial(c), actions) == w;
    InitialHolds(c);
    RunKeeps(c, Initial(c), actions);
  }
}
