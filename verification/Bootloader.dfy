/**
 * The Pi's side of the boot protocol.  `Step` says what one input does to the loader;
 * `Loader` is the loader as the program runs it, and its contracts tie it to `Step`.
 */
module Bootloader {
  import opened Bytes
  import opened BootShared
  import Crc

  const BOOTLOADER_LOCATION: word := 0x20_0000

  type Memory = map<int, byte>

  /** What one `read_uart` into the eight-byte buffer can return. */
  type Chunk = c: seq<byte> | |c| <= 8

  /** Where the loader waits; a failed one remembers how many replies it had sent. */
  datatype Stage =
    | AwaitInfo
    | AwaitLength
    | AwaitChecksum
    | Receiving
    | AwaitDone
    | Booted
    | Failed(replies: nat)

  /**
   * `window` and `got` belong to the word being read, `requests` counts the requests
   * for program information and `sent` is everything written to the line so far.
   */
  datatype Pi = Pi(stage: Stage, window: word, got: nat,
                   length: word, checksum: word,
                   index: word, digest: Crc.Register, memory: Memory,
                   requests: nat, sent: seq<byte>)

  /**
   * What the line and the timer do to the loader: a byte for the word being read, its
   * deadline, or one round of the receive loop with what the FIFO held and whether the
   * idle time had passed.
   */
  datatype Input =
    | Byte(b: byte)
    | Deadline
    | Poll(chunk: Chunk, expired: bool)

  predicate ReadsWord(stage: Stage) {
    stage.AwaitInfo? || stage.AwaitLength? || stage.AwaitChecksum? || stage.AwaitDone?
  }

  predicate Over(stage: Stage) {
    stage.Booted? || stage.Failed?
  }

  predicate Accepts(pi: Pi, e: Input) {
    if ReadsWord(pi.stage) then e.Byte? || e.Deadline?
    else pi.stage.Receiving? && e.Poll?
  }

  function Replies(stage: Stage): nat {
    match stage
    case Receiving => 1
    case AwaitDone => 2
    case Booted => 2
    case Failed(r) => r
    case _ => 0
  }

  function Start(memory: Memory): Pi {
    Pi(AwaitInfo, 0, 0, 0, 0, BASE, Crc.ZERO, memory, 1, ToLe(PI_GET_PROG_INFO))
  }

  function Fail(pi: Pi): Pi {
    pi.(stage := Failed(Replies(pi.stage)), window := 0, got := 0, sent := pi.sent + ToLe(PI_ERROR))
  }

  function Await(pi: Pi, stage: Stage): Pi {
    pi.(stage := stage, window := 0, got := 0)
  }

  function AskAgain(pi: Pi): Pi {
    Await(pi, AwaitInfo).(requests := pi.requests + 1, sent := pi.sent + ToLe(PI_GET_PROG_INFO))
  }

  /** The word being read is complete and is `w`. */
  function GotWord(pi: Pi, w: word): Pi {
    match pi.stage
    case AwaitInfo => if w != INSTALLER_PROG_INFO then Fail(pi) else Await(pi, AwaitLength)
    case AwaitLength =>
      if WrappingAdd(BASE, w) >= BOOTLOADER_LOCATION then Fail(pi)
      else Await(pi, AwaitChecksum).(length := w)
    case AwaitChecksum =>
      Await(pi, Receiving).(checksum := w, index := BASE, digest := Crc.ZERO,
        sent := pi.sent + ToLe(PI_GET_CODE) + ToLe(w))
    case AwaitDone => if w != INSTALLER_SUCCESS then Fail(pi) else Await(pi, Booted)
    case _ => pi
  }

  function Lookup(memory: Memory, a: int): Option<byte> {
    if a in memory then Some(memory[a]) else None
  }

  /** Copies `bytes` to the addresses from `at` on. */
  function StoreAll(memory: Memory, at: int, bytes: seq<byte>): Memory {
    if bytes == [] then memory
    else
      var n := |bytes| - 1;
      StoreAll(memory, at, bytes[..n])[at + n := bytes[n]]
  }

  lemma {:induction false} StoreAllLookup(memory: Memory, at: int, bytes: seq<byte>)
    ensures forall i :: 0 <= i < |bytes| ==> Lookup(StoreAll(memory, at, bytes), at + i) == Some(bytes[i])
    ensures forall a :: !(at <= a < at + |bytes|) ==>
                          Lookup(StoreAll(memory, at, bytes), a) == Lookup(memory, a)
  {
    if bytes != [] {
      var n := |bytes| - 1;
      StoreAllLookup(memory, at, bytes[..n]);
      assert forall i :: 0 <= i < n ==> bytes[..n][i] == bytes[i];
    }
  }

  function Received(pi: Pi, chunk: Chunk): Pi {
    pi.(memory := StoreAll(pi.memory, pi.index, chunk),
        digest := Crc.Update(pi.digest, chunk),
        index := WrappingAdd(pi.index, |chunk|))
  }

  /** The receive loop has seen exactly `length` bytes. */
  predicate Full(pi: Pi) {
    WrappingSub(pi.index, BASE) == pi.length
  }

  function CheckDigest(pi: Pi): Pi {
    if Crc.Finalize(pi.digest) != pi.checksum then Fail(pi)
    else Await(pi, AwaitDone).(sent := pi.sent + ToLe(PI_SUCCESS))
  }

  function Settle(pi: Pi): Pi {
    if Full(pi) then CheckDigest(pi) else pi
  }

  function Step(pi: Pi, e: Input): Pi {
    match e
    case Byte(b) =>
      var w := ShiftIn(pi.window, b);
      if pi.got == 3 then GotWord(pi, w) else pi.(window := w, got := pi.got + 1)
    case Deadline => if pi.stage.AwaitInfo? then AskAgain(pi) else Fail(pi)
    case Poll(chunk, expired) =>
      if chunk == [] && expired then Fail(pi)
      else
        Settle(Received(pi, chunk))
  }

  function Run(pi: Pi, script: seq<Input>): Pi {
    if script == [] then pi else Step(Run(pi, script[..|script| - 1]), script[|script| - 1])
  }

  ghost predicate Answered(pi: Pi, script: seq<Input>, i: nat)
    requires i < |script|
  {
    Over(Run(pi, script[..i]).stage) || Accepts(Run(pi, script[..i]), script[i])
  }

  /** Each input is of the kind that the loader is waiting for. */
  ghost predicate Answers(pi: Pi, script: seq<Input>) {
    forall i: nat :: i < |script| ==> Answered(pi, script, i)
  }

  ghost predicate Moves(trace: seq<Pi>, script: seq<Input>, i: nat)
    requires i < |trace| - 1 && i < |script|
  {
    trace[i + 1] == Step(trace[i], script[i])
  }

  /** The states that a loader goes through while it works off the first inputs. */
  ghost predicate IsTrace(trace: seq<Pi>, script: seq<Input>) {
    0 < |trace| <= |script| + 1 && forall i: nat :: i < |trace| - 1 ==> Moves(trace, script, i)
  }

  lemma TraceGrows(trace: seq<Pi>, script: seq<Input>)
    requires IsTrace(trace, script) && |trace| <= |script|
    ensures IsTrace(trace + [Step(trace[|trace| - 1], script[|trace| - 1])], script)
  {
    var more := trace + [Step(trace[|trace| - 1], script[|trace| - 1])];
    forall i: nat | i < |trace|
      ensures Moves(more, script, i)
    {
      assert i < |trace| - 1 ==> Moves(trace, script, i);
    }
  }

  lemma {:induction false} TraceIsRun(trace: seq<Pi>, script: seq<Input>)
    requires IsTrace(trace, script)
    ensures trace[|trace| - 1] == Run(trace[0], script[..|trace| - 1])
  {
    var n := |trace| - 1;
    if n > 0 {
      assert Moves(trace, script, n - 1);
      forall i: nat | i < n - 1
        ensures Moves(trace[..n], script, i)
      {
        assert Moves(trace, script, i);
      }
      TraceIsRun(trace[..n], script);
      assert script[..n][..n - 1] == script[..n - 1];
    }
  }

  lemma RunAppend(pi: Pi, script: seq<Input>, e: Input)
    ensures Run(pi, script + [e]) == Step(Run(pi, script), e)
  {
    assert (script + [e])[..|script|] == script;
  }

  function AsInputs(bytes: seq<byte>): seq<Input> {
    if bytes == [] then [] else AsInputs(bytes[..|bytes| - 1]) + [Byte(bytes[|bytes| - 1])]
  }

  lemma {:induction false} WindowFills(pi: Pi, bytes: seq<byte>)
    requires |bytes| < 4 && pi.window == 0 && pi.got == 0
    ensures Run(pi, AsInputs(bytes)) == pi.(window := ShiftAll(0, bytes), got := |bytes|)
  {
    if bytes != [] {
      var n := |bytes| - 1;
      WindowFills(pi, bytes[..n]);
      RunAppend(pi, AsInputs(bytes[..n]), Byte(bytes[n]));
    }
  }

  /** The word that is read is the little-endian one that its four bytes spell. */
  lemma WordsAreLittleEndian(pi: Pi, bytes: seq<byte>)
    requires |bytes| == 4 && ReadsWord(pi.stage) && pi.window == 0 && pi.got == 0
    ensures Run(pi, AsInputs(bytes)) == GotWord(pi, FromLe(bytes))
  {
    WindowFills(pi, bytes[..3]);
    RunAppend(pi, AsInputs(bytes[..3]), Byte(bytes[3]));
    WindowIsLastFour(0, bytes);
    assert bytes[0..] == bytes;
  }

  /** The receive loop has left the verdict on its digest in the loader's state. */
  ghost predicate Digested(pi: Pi, sent: seq<byte>, digest: Crc.Register, checksum: word) {
    if Crc.Finalize(digest) != checksum then pi.stage.Failed? && pi.sent == sent + ToLe(PI_ERROR)
    else pi == Await(pi, AwaitDone) && pi.sent == sent + ToLe(PI_SUCCESS)
  }

  lemma IdlePollFails(pi: Pi)
    requires pi.stage.Receiving?
    ensures Step(pi, Poll([], true)) == Fail(pi)
  {
  }

  /** One round of the receive loop, in terms of what the loop keeps in variables. */
  ghost predicate Rounded(pi: Pi, s: Pi, memory: Memory, digest: Crc.Register, index: word) {
    s.memory == memory && s.digest == digest && s.index == index
    && if WrappingSub(index, BASE) == pi.length then Digested(s, pi.sent, digest, pi.checksum)
       else s == pi.(memory := memory, digest := digest, index := index)
  }

  lemma PollRounds(pi: Pi, chunk: Chunk, expired: bool)
    requires pi.stage.Receiving? && !(chunk == [] && expired)
    ensures Rounded(pi, Step(pi, Poll(chunk, expired)), StoreAll(pi.memory, pi.index, chunk),
                    Crc.Update(pi.digest, chunk), WrappingAdd(pi.index, |chunk|))
  {
    SettleRounds(pi, Received(pi, chunk));
  }

  lemma SettleRounds(pi: Pi, n: Pi)
    requires n == pi.(memory := n.memory, digest := n.digest, index := n.index) && pi.stage.Receiving?
    ensures Rounded(pi, Settle(n), n.memory, n.digest, n.index)
  {
  }

  // ------------------------------------------- what was read off the inputs

  /** The inputs from `from` to `to` deliver these bytes. */
  ghost predicate Delivers(script: seq<Input>, from: nat, to: nat, bytes: seq<byte>) {
    from <= to <= |script| && |bytes| == to - from
    && forall i :: 0 <= i < |bytes| ==> script[from + i] == Byte(bytes[i])
  }

  /** They deliver a word, the lowest byte first. */
  ghost predicate Spells(script: seq<Input>, from: nat, to: nat, w: word) {
    Delivers(script, from, to, ToLe(w))
  }

  lemma DeliversMore(script: seq<Input>, from: nat, to: nat, bytes: seq<byte>, b: byte)
    requires Delivers(script, from, to, bytes) && to < |script| && script[to] == Byte(b)
    ensures Delivers(script, from, to + 1, bytes + [b])
  {
  }

  lemma ReadSpells(script: seq<Input>, from: nat, to: nat, bytes: seq<byte>)
    requires Delivers(script, from, to, bytes) && |bytes| == 4
    ensures Spells(script, from, to, Shown(bytes))
  {
    ShownFour(bytes);
    LeRoundTrip(FromLe(bytes));
    LeIsInjective(ToLe(FromLe(bytes)), bytes);
  }

  /** A word that is not `w` is read there. */
  ghost predicate SpellsOther(script: seq<Input>, from: nat, to: nat, w: word) {
    exists v: word :: v != w && Spells(script, from, to, v)
  }

  /** How many of the first `n` inputs are deadlines. */
  function Deadlines(script: seq<Input>, n: nat): nat
    requires n <= |script|
  {
    if n == 0 then 0 else Deadlines(script, n - 1) + if script[n - 1].Deadline? then 1 else 0
  }

  lemma {:induction false} BytesAreNoDeadlines(script: seq<Input>, from: nat, n: nat)
    requires from + n <= |script| && forall i :: from <= i < from + n ==> script[i].Byte?
    ensures Deadlines(script, from + n) == Deadlines(script, from)
    decreases n
  {
    if n > 0 {
      BytesAreNoDeadlines(script, from, n - 1);
    }
  }

  lemma CutShortOnce(script: seq<Input>, from: nat, to: nat)
    requires CutShort(script, from, to)
    ensures Deadlines(script, to) == Deadlines(script, from) + 1
  {
    BytesAreNoDeadlines(script, from, to - 1 - from);
  }

  function Gathered(script: seq<Input>, i: nat, j: nat): seq<byte>
    requires j <= |script|
    decreases j
  {
    if j <= i then []
    else Gathered(script, i, j - 1) + if script[j - 1].Poll? then script[j - 1].chunk else []
  }

  /** Everything that the polls among the inputs from `i` to `j` found. */
  function Data(script: seq<Input>, i: nat, j: nat): seq<byte>
    requires j <= |script|
  {
    Gathered(script, i, j)
  }

  /** The last of the first `to` inputs is a deadline. */
  ghost predicate AtDeadline(script: seq<Input>, to: nat) {
    0 < to <= |script| && script[to - 1].Deadline?
  }

  /** A deadline comes after less than a word. */
  ghost predicate CutShort(script: seq<Input>, from: nat, to: nat) {
    from < to && AtDeadline(script, to) && forall i :: from <= i < to - 1 ==> script[i].Byte?
  }

  lemma DeliversThenDeadline(script: seq<Input>, from: nat, to: nat, bytes: seq<byte>)
    requires Delivers(script, from, to, bytes) && to < |script| && script[to].Deadline?
    ensures CutShort(script, from, to + 1)
  {
    forall i | from <= i < to
      ensures script[i].Byte?
    {
      assert script[from + (i - from)] == Byte(bytes[i - from]);
    }
  }

  /** It is a poll that the loader gives up on. */
  ghost predicate AtIdlePoll(script: seq<Input>, to: nat) {
    0 < to <= |script| && script[to - 1] == Poll([], true)
  }

  /** Two words follow one another. */
  ghost predicate TwoWords(script: seq<Input>, p: nat, v: word, w: word) {
    Spells(script, p, p + 4, v) && Spells(script, p + 4, p + 8, w)
  }

  lemma WordsFollow(script: seq<Input>, p: nat, q: nat, h: nat, v: word, w: word)
    requires Spells(script, p, q, v) && Spells(script, q, h, w)
    ensures h == p + 8 && TwoWords(script, p, v, w)
  {
  }

  /** A deadline passes, or the length does not fit. */
  ghost predicate HeaderRefused(script: seq<Input>, from: nat, to: nat, length: word) {
    AtDeadline(script, to)
    || (Spells(script, from, to, length) && WrappingAdd(BASE, length) >= BOOTLOADER_LOCATION)
  }

  /** The installer's header, with a length that fits. */
  ghost predicate HeaderRead(script: seq<Input>, a: nat, length: word, checksum: word) {
    Spells(script, a, a + 4, INSTALLER_PROG_INFO) && Spells(script, a + 4, a + 8, length)
    && Spells(script, a + 8, a + 12, checksum) && WrappingAdd(BASE, length) < BOOTLOADER_LOCATION
  }

  /** Data of that length and checksum; the loader counts bytes modulo the word size. */
  predicate Announced(data: seq<byte>, length: word, checksum: word) {
    |data| % TURN == length && Crc.Checksum(data) == checksum
  }

  /** `data` is in memory from `BASE` on, unless the addresses wrapped around. */
  ghost predicate Placed(before: Memory, data: seq<byte>, memory: Memory) {
    BASE + |data| < TURN ==> memory == ImageOf(before, data)
  }

  function ImageOf(before: Memory, data: seq<byte>): Memory {
    StoreAll(before, BASE, data)
  }

  /** A request to begin with, and one for each deadline of the first `n` inputs. */
  function Asked(script: seq<Input>, n: nat): seq<byte>
    requires n <= |script|
  {
    Requests(1 + Deadlines(script, n))
  }

  lemma AskedFirst(script: seq<Input>)
    ensures [] + ToLe(PI_GET_PROG_INFO) == Asked(script, 0)
  {
    assert Requests(1) == Requests(0) + ToLe(PI_GET_PROG_INFO);
  }

  lemma AskedMore(script: seq<Input>, a: nat, to: nat)
    requires a <= to <= |script| && Deadlines(script, to) == Deadlines(script, a) + 1
    ensures Asked(script, a) + ToLe(PI_GET_PROG_INFO) == Asked(script, to)
  {
  }

  /** The requests up to the header, the reply to it, and the verdict. */
  function Replied(script: seq<Input>, a: nat, checksum: word): seq<byte>
    requires a <= |script|
  {
    Asked(script, a) + ToLe(PI_GET_CODE) + ToLe(checksum) + ToLe(PI_SUCCESS)
  }

  /**
   * What a load that has succeeded has read, said and left behind: the header from `a` to `h`,
   * the announced program until `b`, and then the installer's success word.
   */
  ghost predicate Accepted(script: seq<Input>, a: nat, h: nat, b: nat, length: word, checksum: word,
        before: Memory, memory: Memory, sent: seq<byte>) {
    h == a + 12 <= b && HeaderRead(script, a, length, checksum) && Spells(script, b, b + 4, INSTALLER_SUCCESS)
    && Announced(Data(script, h, b), length, checksum) && Placed(before, Data(script, h, b), memory)
    && sent == Replied(script, a, checksum)
  }

  ghost predicate Loaded(script: seq<Input>, to: nat, before: Memory, memory: Memory, sent: seq<byte>) {
    exists a: nat, h: nat, b: nat, length: word, checksum: word ::
      to == b + 4 && Accepted(script, a, h, b, length, checksum, before, memory, sent)
  }

  lemma {:induction false} StoreAllConcat(m: Memory, a: int, x: seq<byte>, y: seq<byte>)
    ensures StoreAll(StoreAll(m, a, x), a + |x|, y) == StoreAll(m, a, x + y)
    decreases |y|
  {
    if y == [] {
      assert x + y == x;
    } else {
      var n := |y| - 1;
      StoreAllConcat(m, a, x, y[..n]);
      assert (x + y)[..|x| + n] == x + y[..n];
    }
  }

  lemma LoadedEndsWell(script: seq<Input>, to: nat, before: Memory, memory: Memory, sent: seq<byte>)
    requires Loaded(script, to, before, memory, sent)
    ensures to >= 4 && Spells(script, to - 4, to, INSTALLER_SUCCESS)
  {
    var a: nat, h: nat, b: nat, length: word, checksum: word :|
      to == b + 4 && Accepted(script, a, h, b, length, checksum, before, memory, sent);
    assert b == to - 4;
  }

  /** The loader's index after so many bytes. */
  function IndexAfter(n: nat): word {
    (BASE + n) % TURN
  }

  lemma IndexMoves(n: nat, k: word, m: nat)
    requires m == n + k
    ensures WrappingAdd(IndexAfter(n), k) == IndexAfter(m)
  {
  }

  lemma IndexOfLength(n: nat)
    ensures WrappingSub(IndexAfter(n), BASE) == n % TURN
    ensures BASE + n < TURN ==> IndexAfter(n) == BASE + n
  {
  }

  /** The receive loop has dealt with `data`. */
  ghost predicate Poured(data: seq<byte>, before: Memory, memory: Memory, digest: Crc.Register, index: word) {
    digest == Crc.Digest(data) && Placed(before, data, memory) && index == IndexAfter(|data|)
  }

  lemma NothingPoured(before: Memory)
    ensures Poured([], before, before, Crc.ZERO, BASE)
  {
  }

  lemma PouredMore(data: seq<byte>, chunk: Chunk, more: seq<byte>, before: Memory, memory: Memory,
        digest: Crc.Register, index: word)
    requires Poured(data, before, memory, digest, index) && more == data + chunk
    ensures Poured(more, before, StoreAll(memory, index, chunk), Crc.Update(digest, chunk), WrappingAdd(index, |chunk|))
  {
    DigestMore(data, chunk);
    IndexMoves(|data|, |chunk|, |more|);
    IndexOfLength(|data|);
    PlacedMore(data, chunk, before, memory, index);
  }

  lemma DigestMore(data: seq<byte>, chunk: seq<byte>)
    ensures Crc.Update(Crc.Digest(data), chunk) == Crc.Digest(data + chunk)
  {
    Crc.UpdateConcat(Crc.ZERO, data, chunk);
  }

  lemma PlacedMore(data: seq<byte>, chunk: Chunk, before: Memory, memory: Memory, index: word)
    requires Placed(before, data, memory) && (BASE + |data| < TURN ==> index == BASE + |data|)
    ensures Placed(before, data + chunk, StoreAll(memory, index, chunk))
  {
    StoreAllConcat(before, BASE, data, chunk);
  }

  lemma DataMore(script: seq<Input>, from: nat, to: nat)
    requires from <= to < |script| && script[to].Poll?
    ensures Data(script, from, to + 1) == Data(script, from, to) + script[to].chunk
  {
  }

  lemma PollPours(pi: Pi, chunk: Chunk, expired: bool, data: seq<byte>, more: seq<byte>, before: Memory)
    requires pi.stage.Receiving? && Poured(data, before, pi.memory, pi.digest, pi.index) && more == data + chunk
    ensures var s := Step(pi, Poll(chunk, expired)); Poured(more, before, s.memory, s.digest, s.index)
  {
    if chunk == [] && expired {
      IdlePollFails(pi);
      assert more == data;
    } else {
      PollRounds(pi, chunk, expired);
      PouredMore(data, chunk, more, before, pi.memory, pi.digest, pi.index);
    }
  }

  /** From `from` to `to` the loader has been in the receive loop. */
  ghost predicate Looped(trace: seq<Pi>, script: seq<Input>, from: nat, to: nat) {
    forall i {:trigger trace[i]} :: from <= i < to && i < |trace| && i < |script| ==>
      trace[i].stage.Receiving? && script[i].Poll?
  }

  lemma LoopedMore(trace: seq<Pi>, script: seq<Input>, from: nat, to: nat, more: seq<Pi>)
    requires Looped(trace, script, from, to) && |trace| == to + 1 && to < |script| && trace <= more
    requires trace[to].stage.Receiving? && script[to].Poll?
    ensures Looped(more, script, from, to + 1)
  {
    forall i | from <= i < to + 1 && i < |more| && i < |script|
      ensures more[i].stage.Receiving? && script[i].Poll?
    {
      assert more[i] == trace[i];
    }
  }

  /** What the loop has made of everything that was polled. */
  lemma {:induction false} LoopPours(trace: seq<Pi>, script: seq<Input>, from: nat, end: nat)
    requires IsTrace(trace, script) && from <= end < |trace| && Looped(trace, script, from, end)
    requires trace[from].index == BASE && trace[from].digest == Crc.ZERO
    ensures Poured(Data(script, from, end), trace[from].memory, trace[end].memory, trace[end].digest, trace[end].index)
    decreases end - from
  {
    if from == end {
      NothingPoured(trace[from].memory);
    } else {
      var n := end - 1;
      LoopPours(trace, script, from, n);
      assert Moves(trace, script, n);
      assert trace[n].stage.Receiving?;
      DataMore(script, from, n);
      PollPours(trace[n], script[n].chunk, script[n].expired, Data(script, from, n), Data(script, from, end),
                trace[from].memory);
    }
  }

  lemma PouredOut(data: seq<byte>, before: Memory, memory: Memory, digest: Crc.Register, index: word)
    requires Poured(data, before, memory, digest, index)
    ensures digest == Crc.Digest(data) && Placed(before, data, memory)
    ensures WrappingSub(index, BASE) == |data| % TURN
  {
    IndexOfLength(|data|);
  }

  lemma WordsAreHeader(script: seq<Input>, a: nat, p: nat, h: nat, length: word, checksum: word)
    requires p == a + 4 && h == p + 8 && Spells(script, a, p, INSTALLER_PROG_INFO)
    requires TwoWords(script, p, length, checksum) && WrappingAdd(BASE, length) < BOOTLOADER_LOCATION
    ensures h == a + 12 && HeaderRead(script, a, length, checksum)
  {
    assert p + 4 == a + 8 && p + 8 == a + 12;
  }

  datatype ReadResult = Word(w: word) | TimedOut | Starved
  datatype Outcome = Ok | Err | Pending

  /** The loader on one session's inputs: `at` of them have been consumed. */
  class Loader {
    const script: seq<Input>
    ghost const start: Pi
    var at: nat
    var sent: seq<byte>
    var memory: Memory

    ghost var trace: seq<Pi>
    ghost var state: Pi

    ghost predicate Valid()
      reads this
    {
      at <= |script| && |trace| == at + 1 && trace[0] == start && trace[at] == state
      && IsTrace(trace, script) && Answers(start, script)
    }

    constructor (script: seq<Input>, memory: Memory)
      requires Answers(Start(memory), script)
      ensures Valid() && state == start == Start(memory)
      ensures this.script == script && sent == [] && this.memory == memory && at == 0
    {
      this.script := script;
      this.start := Start(memory);
      this.at, this.sent, this.memory := 0, [], memory;
      this.state, this.trace := Start(memory), [Start(memory)];
    }

    method WriteWord(w: word)
      modifies this`sent
      ensures sent == old(sent) + ToLe(w)
    {
      sent := sent + ToLe(w);
    }

    /** The next input, which takes the loader one step on. */
    method Next() returns (e: Input)
      requires Valid() && at < |script| && !Over(state.stage)
      modifies this`at, this`state, this`trace
      ensures Valid() && at == old(at) + 1 && e == script[old(at)]
      ensures Accepts(old(state), e) && state == Step(old(state), e) && old(trace) <= trace
    {
      TraceIsRun(trace, script);
      TraceGrows(trace, script);
      assert Answered(start, script, at);
      e := script[at];
      at := at + 1;
      state := Step(state, e);
      trace := trace + [state];
    }

    /**
     * `read_uart_u32_timeout`: four bytes make a word, and a deadline throws away the
     * bytes of an unfinished one.
     */
    method ReadU32Timeout() returns (r: ReadResult)
      requires Valid() && ReadsWord(state.stage) && state.window == 0 && state.got == 0
      modifies this`at, this`state, this`trace
      ensures Valid() && at >= old(at) && (!r.Starved? ==> at > old(at))
      ensures r.Word? ==> at == old(at) + 4 && state == GotWord(old(state), r.w) && Spells(script, old(at), at, r.w)
      ensures r.TimedOut? ==> at <= old(at) + 4 && state == Step(old(state), Deadline) && CutShort(script, old(at), at)
      ensures r.Starved? ==> at == |script| && ReadsWord(state.stage)
                             && state == old(state).(window := state.window, got := state.got)
    {
      var v: word := 0;
      var readCount := 0;
      ghost var bytes := [];
      while true
        invariant Valid() && 0 <= readCount < 4 && at == old(at) + readCount
        invariant |bytes| == readCount && v == Shown(bytes) && Delivers(script, old(at), at, bytes)
        invariant state == old(state).(window := v, got := readCount)
        decreases |script| - at
      {
        if at == |script| {
          return Starved;
        }
        ghost var to := at;
        var e := Next();
        if e.Deadline? {
          DeliversThenDeadline(script, old(at), to, bytes);
          return TimedOut;
        }
        readCount := readCount + 1;
        v := v / 0x100 + 0x100_0000 * e.b as int;
        ShownMore(bytes, e.b);
        DeliversMore(script, old(at), to, bytes, e.b);
        bytes := bytes + [e.b];
        if readCount == 4 {
          break;
        }
      }
      ReadSpells(script, old(at), at, bytes);
      return Word(v);
    }

    /**
     * The request loop at the head of `load`: a request for every timeout, until a word has
     * been read, which must be the installer's.
     */
    method RequestProgInfo() returns (r: Outcome, ghost a: nat)
      requires Valid() && at == 0 && sent == [] && memory == start.memory && start == Start(memory)
      modifies this`at, this`state, this`trace, this`sent
      ensures Valid() && memory == state.memory
      ensures r.Ok? ==> state == Await(state, AwaitLength) && sent == state.sent
      ensures r.Err? ==> state.stage.Failed? && state.sent == sent + ToLe(PI_ERROR)
      ensures r.Pending? ==> at == |script| && !Over(state.stage) && sent == state.sent
      ensures !r.Pending? ==> at == a + 4 && sent == Asked(script, a)
      ensures r.Ok? ==> Spells(script, a, at, INSTALLER_PROG_INFO)
      ensures r.Err? ==> SpellsOther(script, a, at, INSTALLER_PROG_INFO)
    {
      AskedFirst(script);
      while true
        invariant Valid() && memory == state.memory
        invariant state == Await(state, AwaitInfo) && state.sent == sent + ToLe(PI_GET_PROG_INFO)
        invariant sent + ToLe(PI_GET_PROG_INFO) == Asked(script, at)
        decreases |script| - at
      {
        a := at;
        WriteWord(PI_GET_PROG_INFO);
        var v := ReadU32Timeout();
        if v.Starved? {
          r := Pending;
          return;
        }
        if v.Word? {
          r := if v.w != INSTALLER_PROG_INFO then Err else Ok;
          return;
        }
        CutShortOnce(script, a, at);
        AskedMore(script, a, at);
      }
    }

    /** One round of the receive loop: what the FIFO held goes to memory and the digest. */
    method PollOnce(index: word, digest: Crc.Register) returns (failed: bool, index': word, digest': Crc.Register)
      requires Valid() && at < |script| && state.stage.Receiving? && memory == state.memory
      requires index == state.index && digest == state.digest
      modifies this`at, this`state, this`trace, this`memory
      ensures Valid() && at == old(at) + 1 && memory == state.memory && old(trace) <= trace
      ensures script[old(at)].Poll? && (failed <==> script[old(at)] == Poll([], true))
      ensures failed ==> state == Fail(old(state)) && AtIdlePoll(script, at)
      ensures !failed ==> Rounded(old(state), state, memory, digest', index')
    {
      ghost var pi: Pi := state;
      var e := Next();
      failed, index', digest' := false, index, digest;
      if e.chunk == [] {
        if e.expired {
          IdlePollFails(pi);
          failed := true;
          return;
        }
      }
      PollRounds(pi, e.chunk, e.expired);
      memory := StoreAll(memory, index, e.chunk);
      digest' := Crc.Update(digest, e.chunk);
      index' := WrappingAdd(index, |e.chunk|);
    }

    /** The receive loop of `load`, which ends as soon as exactly `programLength` bytes are in. */
    method Receive(programLength: word) returns (r: Outcome, digest: Crc.Register)
      requires Valid() && memory == state.memory && sent == state.sent
      requires state.stage == Receiving && state.index == BASE && state.digest == Crc.ZERO
      requires programLength == state.length
      modifies this`at, this`state, this`trace, this`memory
      ensures Valid() && memory == state.memory
      ensures at >= old(at)
      ensures r.Ok? ==> Digested(state, sent, digest, old(state.checksum))
      ensures r.Ok? ==> digest == Crc.Digest(Data(script, old(at), at))
                        && |Data(script, old(at), at)| % TURN == programLength
                        && Placed(old(memory), Data(script, old(at), at), memory)
      ensures r.Err? ==> state.stage.Failed? && state.sent == sent + ToLe(PI_ERROR)
      ensures r.Err? ==> at > old(at) && AtIdlePoll(script, at)
      ensures r.Pending? ==> at == |script| && !Over(state.stage) && sent == state.sent
    {
      var index: word := BASE;
      digest := Crc.ZERO;
      while true
        invariant Valid() && memory == state.memory && at >= old(at)
        invariant old(trace) <= trace && Looped(trace, script, old(at), at)
        invariant state.stage.Receiving? && state.index == index && state.digest == digest
        invariant state.length == programLength && state.sent == sent && state.checksum == old(state.checksum)
        decreases |script| - at
      {
        if at == |script| {
          r := Pending;
          return;
        }
        ghost var was, to := trace, at;
        var failed;
        failed, index, digest := PollOnce(index, digest);
        if failed {
          r := Err;
          return;
        }
        LoopedMore(was, script, old(at), to, trace);
        if WrappingSub(index, BASE) == programLength {
          LoopPours(trace, script, old(at), at);
          PouredOut(Data(script, old(at), at), old(memory), memory, digest, index);
          r := Ok;
          return;
        }
      }
    }

    /** The length and checksum words, and the reply to them. */
    method ReceiveHeader() returns (r: Outcome, length: word, checksum: word)
      requires Valid() && memory == state.memory && sent == state.sent && state == Await(state, AwaitLength)
      modifies this`at, this`state, this`trace, this`sent
      ensures Valid() && memory == state.memory
      ensures r.Ok? ==> sent == state.sent && state.stage == Receiving && state.index == BASE
                        && state.digest == Crc.ZERO && state.length == length && state.checksum == checksum
      ensures r.Ok? ==> at == old(at) + 8 && TwoWords(script, old(at), length, checksum)
                        && WrappingAdd(BASE, length) < BOOTLOADER_LOCATION
                        && sent == old(sent) + ToLe(PI_GET_CODE) + ToLe(checksum)
      ensures r.Err? ==> state.stage.Failed? && state.sent == sent + ToLe(PI_ERROR)
      ensures r.Err? ==> at > old(at) && sent == old(sent) && HeaderRefused(script, old(at), at, length)
      ensures r.Pending? ==> at == |script| && !Over(state.stage) && sent == state.sent
    {
      length, checksum := 0, 0;
      ghost var p := at;
      var first := ReadU32Timeout();
      ghost var q := at;
      if !first.Word? {
        r := if first.Starved? then Pending else Err;
        return;
      }
      length := first.w;
      if WrappingAdd(BASE, length) >= BOOTLOADER_LOCATION {
        r := Err;
        return;
      }
      var second := ReadU32Timeout();
      if !second.Word? {
        r := if second.Starved? then Pending else Err;
        return;
      }
      checksum := second.w;
      WordsFollow(script, p, q, at, length, checksum);
      WriteWord(PI_GET_CODE);
      WriteWord(checksum);
      r := Ok;
    }

    /** The checksum comparison and the final handshake. */
    method Conclude(digest: Crc.Register, checksum: word) returns (r: Outcome)
      requires Valid() && memory == state.memory && Digested(state, sent, digest, checksum)
      modifies this`at, this`state, this`trace, this`sent
      ensures Valid() && memory == state.memory
      ensures r.Ok? ==> state.stage.Booted? && sent == state.sent
      ensures r.Ok? ==> Crc.Finalize(digest) == checksum && sent == old(sent) + ToLe(PI_SUCCESS)
                        && at == old(at) + 4 && Spells(script, old(at), at, INSTALLER_SUCCESS)
      ensures r.Err? ==> state.stage.Failed? && state.sent == sent + ToLe(PI_ERROR)
      ensures r.Err? ==> if Crc.Finalize(digest) != checksum then at == old(at) && sent == old(sent)
                         else at > old(at) && sent == old(sent) + ToLe(PI_SUCCESS)
                              && (AtDeadline(script, at) || SpellsOther(script, old(at), at, INSTALLER_SUCCESS))
      ensures r.Pending? ==> at == |script| && !Over(state.stage) && sent == state.sent
    {
      var calculated := Crc.Finalize(digest);
      if calculated != checksum {
        return Err;
      }
      WriteWord(PI_SUCCESS);
      var done := ReadU32Timeout();
      if !done.Word? {
        return if done.Starved? then Pending else Err;
      }
      return if done.w != INSTALLER_SUCCESS then Err else Ok;
    }

    /** The receive loop and what follows it; the program is in by `b`. */
    method FinishLoad(length: word, checksum: word) returns (r: Outcome, ghost b: nat)
      requires Valid() && memory == state.memory && sent == state.sent
      requires state.stage == Receiving && state.index == BASE && state.digest == Crc.ZERO
      requires length == state.length && checksum == state.checksum
      modifies this`at, this`state, this`trace, this`memory, this`sent
      ensures Valid() && memory == state.memory && old(at) <= b <= |script|
      ensures r.Ok? ==> state.stage.Booted? && sent == state.sent
      ensures r.Ok? ==> at == b + 4 && Spells(script, b, at, INSTALLER_SUCCESS)
                        && Announced(Data(script, old(at), b), length, checksum)
                        && Placed(old(memory), Data(script, old(at), b), memory)
                        && sent == old(sent) + ToLe(PI_SUCCESS)
      ensures r.Err? ==> state.stage.Failed? && state.sent == sent + ToLe(PI_ERROR)
      ensures r.Pending? ==> at == |script| && !Over(state.stage) && sent == state.sent
    {
      var digest;
      r, digest := Receive(length);
      b := at;
      if r.Ok? {
        r := Conclude(digest, checksum);
      }
    }

    /** Everything up to the receive loop; the header begins at `a`. */
    method BeginLoad() returns (r: Outcome, length: word, checksum: word, ghost a: nat)
      requires Valid() && at == 0 && sent == [] && memory == start.memory && start == Start(memory)
      modifies this`at, this`state, this`trace, this`sent
      ensures Valid() && memory == state.memory
      ensures r.Ok? ==> sent == state.sent && state.stage == Receiving && state.index == BASE
                        && state.digest == Crc.ZERO && state.length == length && state.checksum == checksum
      ensures r.Ok? ==> at == a + 12 && HeaderRead(script, a, length, checksum)
                        && sent == Asked(script, a) + ToLe(PI_GET_CODE) + ToLe(checksum)
      ensures r.Err? ==> state.stage.Failed? && state.sent == sent + ToLe(PI_ERROR)
      ensures r.Pending? ==> at == |script| && !Over(state.stage) && sent == state.sent
    {
      length, checksum := 0, 0;
      r, a := RequestProgInfo();
      if !r.Ok? {
        return;
      }
      ghost var p := at;
      r, length, checksum := ReceiveHeader();
      if r.Ok? {
        WordsAreHeader(script, a, p, at, length, checksum);
      }
    }

    method LoadSteps() returns (r: Outcome)
      requires Valid() && at == 0 && sent == [] && memory == start.memory && start == Start(memory)
      modifies this
      ensures Valid() && memory == state.memory
      ensures r.Ok? ==> state.stage.Booted? && sent == state.sent
      ensures r.Ok? ==> Loaded(script, at, old(memory), memory, sent)
      ensures r.Err? ==> state.stage.Failed? && state.sent == sent + ToLe(PI_ERROR)
      ensures r.Pending? ==> at == |script| && !Over(state.stage) && sent == state.sent
    {
      var length, checksum;
      ghost var a, b;
      r, length, checksum, a := BeginLoad();
      if !r.Ok? {
        return;
      }
      ghost var h := at;
      r, b := FinishLoad(length, checksum);
      if r.Ok? {
        assert Accepted(script, a, h, b, length, checksum, old(memory), memory, sent);
      }
    }

    /**
     * `load`: the final answer, the memory and the bytes sent are those of `Run`, and it
     * succeeds only with a header, a program and a last word as they should be.
     */
    method Load() returns (r: Outcome)
      requires Valid() && at == 0 && sent == [] && memory == start.memory && start == Start(memory)
      modifies this
      ensures Valid() && state == Run(Start(old(memory)), script[..at]) && memory == state.memory
      ensures r.Ok? ==> state.stage.Booted? && sent == state.sent
      ensures r.Ok? ==> at >= 4 && Spells(script, at - 4, at, INSTALLER_SUCCESS)
      ensures r.Ok? ==> Loaded(script, at, old(memory), memory, sent)
      ensures r.Err? ==> state.stage.Failed? && state.sent == sent + ToLe(PI_ERROR)
      ensures r.Pending? ==> at == |script| && !Over(state.stage) && sent == state.sent
    {
      r := LoadSteps();
      TraceIsRun(trace, script);
      if r.Ok? {
        LoadedEndsWell(script, at, old(memory), memory, sent);
      }
    }

    /** `main`: an error is reported on the line; only a successful load jumps to `BASE`. */
    method Boot() returns (jumps: bool)
      requires Valid() && at == 0 && sent == [] && memory == start.memory && start == Start(memory)
      modifies this
      ensures Valid() && state == Run(Start(old(memory)), script[..at])
      ensures memory == state.memory && sent == state.sent
      ensures jumps <==> state.stage.Booted?
      ensures jumps ==> at >= 4 && Spells(script, at - 4, at, INSTALLER_SUCCESS)
      ensures jumps ==> Loaded(script, at, old(memory), memory, sent)
      ensures !jumps ==> state.stage.Failed? || at == |script|
    {
      var r := Load();
      if r.Err? {
        WriteWord(PI_ERROR);
      }
      return r.Ok?;
    }
  }
}
