/**
 * The host's side of the boot protocol, up to the message that the program is loaded.
 * `Step` says what one input does to the installer; `Transmitter` is the installer as
 * the program runs it, and its contracts tie it to `Step`.
 */
module Installer {
  import opened Bytes
  import opened BootShared
  import opened Sequences
  import Crc

  datatype Stage =
    | Locking
    | PutHeader
    | Skipping
    | Matching
    | Echo
    | PutProgram
    | AwaitSuccess
    | PutSuccess
    | Done
    | Failed

  datatype Host = Host(stage: Stage, window: word, got: nat, sent: seq<byte>)

  /** A read delivers a byte or fails; a write succeeds or fails after `written` bytes. */
  datatype Input =
    | Byte(b: byte)
    | Timeout
    | Written
    | WriteFails(written: nat)

  predicate Reads(stage: Stage) {
    stage.Locking? || stage.Skipping? || stage.Matching? || stage.Echo? || stage.AwaitSuccess?
  }

  predicate Writes(stage: Stage) {
    stage.PutHeader? || stage.PutProgram? || stage.PutSuccess?
  }

  predicate Over(stage: Stage) {
    stage.Done? || stage.Failed?
  }

  function Length(program: seq<byte>): word {
    |program| % 0x1_0000_0000
  }

  /** The three words that answer the Pi's request. */
  function HeaderOf(length: word, checksum: word): (bytes: seq<byte>)
    ensures |bytes| == 12
  {
    ToLe(INSTALLER_PROG_INFO) + ToLe(length) + ToLe(checksum)
  }

  function Header(program: seq<byte>): (bytes: seq<byte>)
    ensures |bytes| == 12
  {
    HeaderOf(Length(program), Crc.Checksum(program))
  }

  /** What is about to be written. */
  function Payload(program: seq<byte>, stage: Stage): seq<byte> {
    match stage
    case PutHeader => Header(program)
    case PutProgram => program
    case PutSuccess => ToLe(INSTALLER_SUCCESS)
    case _ => []
  }

  predicate Accepts(program: seq<byte>, h: Host, e: Input) {
    if Reads(h.stage) then e.Byte? || e.Timeout?
    else Writes(h.stage) && (e.Written? || (e.WriteFails? && e.written < |Payload(program, h.stage)|))
  }

  const START := Host(Locking, 0, 0, [])

  function Enter(h: Host, stage: Stage): Host {
    h.(stage := stage, window := 0, got := 0)
  }

  /** The word being read is complete and is `w`. */
  function GotWord(program: seq<byte>, h: Host, w: word): Host {
    match h.stage
    case Matching => Enter(h, if w == PI_GET_CODE then Echo else Failed)
    case Echo => Enter(h, if w == Crc.Checksum(program) then PutProgram else Failed)
    case AwaitSuccess => Enter(h, if w == PI_SUCCESS then PutSuccess else Failed)
    case _ => h
  }

  function GotByte(program: seq<byte>, h: Host, b: byte): Host {
    var w := ShiftIn(h.window, b);
    match h.stage
    case Locking => if w == PI_GET_PROG_INFO then Enter(h, PutHeader) else h.(window := w)
    case Skipping => if IsPiGetProgInfoByte(b) then h else h.(stage := Matching, window := ShiftIn(0, b), got := 1)
    case _ => if h.got == 3 then GotWord(program, h, w) else h.(window := w, got := h.got + 1)
  }

  function AfterWrite(stage: Stage): Stage {
    match stage
    case PutHeader => Skipping
    case PutProgram => AwaitSuccess
    case _ => Done
  }

  function Step(program: seq<byte>, h: Host, e: Input): Host {
    match e
    case Byte(b) => GotByte(program, h, b)
    case Timeout => Enter(h, Failed)
    case Written => Enter(h, AfterWrite(h.stage)).(sent := h.sent + Payload(program, h.stage))
    case WriteFails(k) =>
      var p := Payload(program, h.stage);
      Enter(h, Failed).(sent := h.sent + if k < |p| then p[..k] else p)
  }

  function Run(program: seq<byte>, h: Host, script: seq<Input>): Host {
    if script == [] then h
    else Step(program, Run(program, h, script[..|script| - 1]), script[|script| - 1])
  }

  ghost predicate Answered(program: seq<byte>, script: seq<Input>, i: nat)
    requires i < |script|
  {
    var h := Run(program, START, script[..i]);
    Over(h.stage) || Accepts(program, h, script[i])
  }

  /** Each input is of the kind that the installer is waiting for. */
  ghost predicate Answers(program: seq<byte>, script: seq<Input>) {
    forall i: nat :: i < |script| ==> Answered(program, script, i)
  }

  ghost predicate Moves(program: seq<byte>, trace: seq<Host>, script: seq<Input>, i: nat)
    requires i < |trace| - 1 && i < |script|
  {
    trace[i + 1] == Step(program, trace[i], script[i])
  }

  ghost predicate IsTrace(program: seq<byte>, trace: seq<Host>, script: seq<Input>) {
    0 < |trace| <= |script| + 1 && trace[0] == START
    && forall i: nat :: i < |trace| - 1 ==> Moves(program, trace, script, i)
  }

  lemma TraceGrows(program: seq<byte>, trace: seq<Host>, script: seq<Input>)
    requires IsTrace(program, trace, script) && |trace| <= |script|
    ensures IsTrace(program, trace + [Step(program, trace[|trace| - 1], script[|trace| - 1])], script)
  {
    var more := trace + [Step(program, trace[|trace| - 1], script[|trace| - 1])];
    forall i: nat | i < |trace|
      ensures Moves(program, more, script, i)
    {
      assert i < |trace| - 1 ==> Moves(program, trace, script, i);
    }
  }

  lemma {:induction false} TraceIsRun(program: seq<byte>, trace: seq<Host>, script: seq<Input>)
    requires IsTrace(program, trace, script)
    ensures trace[|trace| - 1] == Run(program, START, script[..|trace| - 1])
  {
    var n := |trace| - 1;
    if n > 0 {
      assert Moves(program, trace, script, n - 1);
      forall i: nat | i < n - 1
        ensures Moves(program, trace[..n], script, i)
      {
        assert Moves(program, trace, script, i);
      }
      TraceIsRun(program, trace[..n], script);
      assert script[..n][..n - 1] == script[..n - 1];
    }
  }

  /** The inputs from `from` to `to` deliver these bytes. */
  ghost predicate Delivers(script: seq<Input>, from: nat, to: nat, bytes: seq<byte>) {
    from <= to <= |script| && |bytes| == to - from
    && forall i :: 0 <= i < |bytes| ==> script[from + i] == Byte(bytes[i])
  }

  /** They deliver a word, the lowest byte first. */
  ghost predicate Spells(script: seq<Input>, from: nat, to: nat, w: word) {
    Delivers(script, from, to, ToLe(w))
  }

  /** Before the last of the first `to` inputs the Pi's success word was read. */
  ghost predicate VerdictRead(script: seq<Input>, to: nat) {
    to >= 5 && Spells(script, to - 5, to - 1, PI_SUCCESS)
  }

  lemma VerdictThenWrite(script: seq<Input>, from: nat, to: nat)
    requires Spells(script, from, to, PI_SUCCESS)
    ensures VerdictRead(script, to + 1)
  {
    assert to + 1 - 5 == from;
  }

  /** No request ends after any of these inputs. */
  ghost predicate NoneYet(script: seq<Input>, from: nat, to: nat) {
    forall k: nat {:trigger Spells(script, k, k + 4, PI_GET_PROG_INFO)} ::
      from <= k && k + 4 <= to ==> !Spells(script, k, k + 4, PI_GET_PROG_INFO)
  }

  /** The inputs up to `to` end with the first request there is. */
  ghost predicate LocksFirst(script: seq<Input>, from: nat, to: nat) {
    from + 4 <= to && Spells(script, to - 4, to, PI_GET_PROG_INFO) && NoneYet(script, from, to - 1)
  }

  lemma LocksOrNot(script: seq<Input>, from: nat, to: nat, next: nat, bytes: seq<byte>)
    requires next == to + 1 && NoneYet(script, from, to) && Delivers(script, from, next, bytes)
    ensures Shown(bytes) == PI_GET_PROG_INFO ==> LocksFirst(script, from, next)
    ensures Shown(bytes) != PI_GET_PROG_INFO ==> NoneYet(script, from, next)
  {
    if |bytes| < 4 {
      ShortWindowIsLowZero(bytes);
    } else {
      WindowSpells(script, from, next, bytes);
    }
  }

  lemma WindowSpells(script: seq<Input>, from: nat, to: nat, bytes: seq<byte>)
    requires Delivers(script, from, to, bytes) && |bytes| >= 4
    ensures Shown(bytes) == PI_GET_PROG_INFO <==> Spells(script, to - 4, to, PI_GET_PROG_INFO)
  {
    var last := bytes[|bytes| - 4..];
    WindowIsLastFour(0, bytes);
    assert Delivers(script, to - 4, to, last) by {
      forall i | 0 <= i < 4
        ensures script[to - 4 + i] == Byte(last[i])
      {
        assert script[from + (|bytes| - 4 + i)] == Byte(bytes[|bytes| - 4 + i]);
      }
    }
    ReadSpells(script, to - 4, to, last);
    if Spells(script, to - 4, to, PI_GET_PROG_INFO) {
      SameDelivery(script, to - 4, to, last, ToLe(PI_GET_PROG_INFO));
      LeRoundTrip(PI_GET_PROG_INFO);
    }
  }

  lemma SameDelivery(script: seq<Input>, from: nat, to: nat, a: seq<byte>, b: seq<byte>)
    requires Delivers(script, from, to, a) && Delivers(script, from, to, b)
    ensures a == b
  {
    forall i | 0 <= i < |a|
      ensures a[i] == b[i]
    {
      assert script[from + i] == Byte(a[i]);
    }
  }

  /** What is skipped are bytes of requests. */
  ghost predicate OnlyRequestBytes(script: seq<Input>, from: nat, to: nat) {
    from <= to <= |script| && forall i :: from <= i < to ==> script[i] == Byte(0xEE) || script[i] == Byte(0xFF)
  }

  lemma SkipsOneMore(script: seq<Input>, from: nat, to: nat, b: byte)
    requires OnlyRequestBytes(script, from, to) && to < |script| && script[to] == Byte(b) && IsPiGetProgInfoByte(b)
    ensures OnlyRequestBytes(script, from, to + 1)
  {
  }

  /** The last eight of the first `to` inputs are the Pi's reply: it asks for the code and echoes the checksum. */
  ghost predicate Replied(script: seq<Input>, to: nat, checksum: word) {
    to >= 8 && Spells(script, to - 8, to - 4, PI_GET_CODE) && Spells(script, to - 4, to, checksum)
  }

  lemma RepliedInTwoWords(script: seq<Input>, from: nat, to: nat, checksum: word)
    requires Spells(script, from, from + 4, PI_GET_CODE) && Spells(script, from + 4, to, checksum)
    ensures Replied(script, to, checksum)
  {
    assert to - 8 == from && to - 4 == from + 4;
  }

  lemma DeliversMore(script: seq<Input>, from: nat, to: nat, bytes: seq<byte>, b: byte)
    requires Delivers(script, from, to, bytes) && to < |script| && script[to] == Byte(b)
    ensures Delivers(script, from, to + 1, bytes + [b])
  {
  }

  /** Four bytes are the little-endian form of the word that the window shows. */
  lemma ReadSpells(script: seq<Input>, from: nat, to: nat, bytes: seq<byte>)
    requires Delivers(script, from, to, bytes) && |bytes| == 4
    ensures Shown(bytes) == FromLe(bytes) && Spells(script, from, to, FromLe(bytes))
  {
    ShownFour(bytes);
    LeRoundTrip(FromLe(bytes));
    LeIsInjective(ToLe(FromLe(bytes)), bytes);
  }

  /** The installer once these bytes of a word have been read. */
  function Collected(program: seq<byte>, h: Host, buf: seq<byte>): Host {
    if |buf| < 4 then h.(window := Shown(buf), got := |buf|) else GotWord(program, h, Shown(buf))
  }

  lemma CollectsMore(program: seq<byte>, h: Host, buf: seq<byte>, b: byte)
    requires (h.stage.Echo? || h.stage.AwaitSuccess?) && |buf| < 4
    ensures GotByte(program, Collected(program, h, buf), b) == Collected(program, h, buf + [b])
  {
    ShownMore(buf, b);
  }

  datatype Outcome = Ok | Err | Pending

  /** The installer on one session's inputs: `at` of them have been consumed. */
  class Transmitter {
    const program: seq<byte>
    const script: seq<Input>
    var at: nat
    var sent: seq<byte>
    ghost var trace: seq<Host>
    ghost var state: Host

    ghost predicate Valid()
      reads this
    {
      at <= |script| && |trace| == at + 1 && trace[at] == state
      && IsTrace(program, trace, script) && Answers(program, script)
    }

    constructor (program: seq<byte>, script: seq<Input>)
      requires Answers(program, script)
      ensures Valid() && state == START && at == 0 && sent == []
      ensures this.program == program && this.script == script
    {
      this.program, this.script := program, script;
      this.at, this.sent := 0, [];
      this.state, this.trace := START, [START];
    }

    method Next() returns (e: Input)
      requires Valid() && at < |script| && !Over(state.stage)
      modifies this`at, this`state, this`trace
      ensures Valid() && at == old(at) + 1 && e == script[old(at)]
      ensures Accepts(program, old(state), e) && state == Step(program, old(state), e)
    {
      TraceIsRun(program, trace, script);
      TraceGrows(program, trace, script);
      assert Answered(program, script, at);
      e := script[at];
      at := at + 1;
      state := Step(program, state, e);
      trace := trace + [state];
    }

    /** `write_all` of what the installer is about to write. */
    method Put(payload: seq<byte>) returns (r: Outcome)
      requires Valid() && Writes(state.stage) && payload == Payload(program, state.stage) && sent == state.sent
      modifies this`at, this`state, this`trace, this`sent
      ensures Valid() && sent == state.sent && old(sent) <= sent <= old(sent) + payload
      ensures r.Ok? ==> state == Enter(old(state), AfterWrite(old(state).stage)).(sent := sent)
                        && at == old(at) + 1 && sent == old(sent) + payload
      ensures r.Err? ==> state.stage.Failed? && at == old(at) + 1 && script[old(at)].WriteFails?
                         && |sent| == |old(sent)| + script[old(at)].written < |old(sent)| + |payload|
      ensures r.Pending? ==> at == |script| && state == old(state) && sent == old(sent)
    {
      if at == |script| {
        return Pending;
      }
      var e := Next();
      if e.WriteFails? {
        sent := sent + payload[..e.written];
        return Err;
      }
      sent := sent + payload;
      return Ok;
    }

    /** `getu8`. */
    method GetU8() returns (r: Outcome, b: byte)
      requires Valid() && Reads(state.stage)
      modifies this`at, this`state, this`trace
      ensures Valid()
      ensures r.Ok? ==> at == old(at) + 1 && script[old(at)] == Byte(b) && state == GotByte(program, old(state), b)
      ensures r.Err? ==> state.stage.Failed? && state.sent == old(state.sent)
                         && at == old(at) + 1 && script[old(at)].Timeout?
      ensures r.Pending? ==> at == |script| && state == old(state)
    {
      b := 0;
      if at == |script| {
        r := Pending;
        return;
      }
      var e := Next();
      if e.Timeout? {
        r := Err;
        return;
      }
      r, b := Ok, e.b;
    }

    /** Locks on to the Pi's request, whatever the first bytes were. */
    method Lock() returns (r: Outcome)
      requires Valid() && state == START
      modifies this`at, this`state, this`trace
      ensures Valid() && state.sent == []
      ensures r.Ok? ==> state == Enter(state, PutHeader)
      ensures r.Ok? ==> LocksFirst(script, old(at), at)
      ensures r.Err? ==> state.stage.Failed?
      ensures r.Pending? ==> at == |script| && !Over(state.stage)
    {
      var v: word := 0;
      ghost var bytes := [];
      while true
        invariant Valid() && state == Host(Locking, v, 0, []) && v == Shown(bytes)
        invariant Delivers(script, old(at), at, bytes) && NoneYet(script, old(at), at)
        decreases |script| - at
      {
        ghost var to := at;
        var newValue;
        r, newValue := GetU8();
        if !r.Ok? {
          return;
        }
        v := v / 0x100 + 0x100_0000 * newValue as int;
        ShownMore(bytes, newValue);
        DeliversMore(script, old(at), to, bytes, newValue);
        bytes := bytes + [newValue];
        LocksOrNot(script, old(at), to, at, bytes);
        if v == PI_GET_PROG_INFO {
          return;
        }
      }
    }

    /** Skips what is left of earlier requests, up to the byte that ends them. */
    method Skip() returns (r: Outcome, byte: byte, ghost from: nat)
      requires Valid() && state == Enter(state, Skipping)
      modifies this`at, this`state, this`trace
      ensures Valid() && state.sent == old(state.sent)
      ensures r.Ok? ==> state == old(state).(stage := Matching, window := ShiftIn(0, byte), got := 1)
                        && at == from + 1 && script[from] == Byte(byte) && byte != 0xEE && byte != 0xFF
                        && OnlyRequestBytes(script, old(at), from)
      ensures r.Err? ==> state.stage.Failed?
      ensures r.Pending? ==> at == |script| && !Over(state.stage)
    {
      from := at;
      r, byte := GetU8();
      if !r.Ok? {
        return;
      }
      while IsPiGetProgInfoByte(byte)
        invariant Valid() && r.Ok? && at == from + 1 && script[from] == Byte(byte)
        invariant old(at) <= from && OnlyRequestBytes(script, old(at), from)
        invariant state == if IsPiGetProgInfoByte(byte) then old(state)
                           else old(state).(stage := Matching, window := ShiftIn(0, byte), got := 1)
        decreases |script| - at
      {
        SkipsOneMore(script, old(at), from, byte);
        from := at;
        r, byte := GetU8();
        if !r.Ok? {
          return;
        }
      }
    }

    /** Reads the rest of the word that begins with that byte. */
    method Match(first: byte, ghost from: nat) returns (r: Outcome)
      requires Valid() && state == Host(Matching, ShiftIn(0, first), 1, state.sent)
      requires at == from + 1 && script[from] == Byte(first)
      modifies this`at, this`state, this`trace
      ensures Valid() && state.sent == old(state.sent)
      ensures r.Ok? ==> state == Enter(state, Echo) && at == from + 4 && Spells(script, from, at, PI_GET_CODE)
      ensures r.Err? ==> state.stage.Failed?
      ensures r.Pending? ==> at == |script| && !Over(state.stage)
    {
      var next: word := 0x100_0000 * first as int;
      ghost var bytes := [first];
      ShownMore([], first);
      for i := 1 to 4
        invariant Valid() && at == from + i
        invariant |bytes| == i && next == Shown(bytes) && Delivers(script, from, at, bytes)
        invariant i < 4 ==> state == Host(Matching, next, i, old(state.sent))
        invariant i == 4 ==> state == Enter(old(state), if next == PI_GET_CODE then Echo else Failed)
      {
        ghost var to := at;
        var byte;
        r, byte := GetU8();
        if !r.Ok? {
          return;
        }
        next := next / 0x100 + 0x100_0000 * byte as int;
        ShownMore(bytes, byte);
        DeliversMore(script, from, to, bytes, byte);
        bytes := bytes + [byte];
      }
      ReadSpells(script, from, at, bytes);
      r := if next == PI_GET_CODE then Ok else Err;
    }

    /** The word that follows the requests must ask for the code. */
    method SkipAndMatch() returns (r: Outcome, ghost from: nat)
      requires Valid() && state == Enter(state, Skipping)
      modifies this`at, this`state, this`trace
      ensures Valid() && state.sent == old(state.sent)
      ensures r.Ok? ==> state == Enter(state, Echo) && at == from + 4 && Spells(script, from, at, PI_GET_CODE)
      ensures r.Err? ==> state.stage.Failed?
      ensures r.Pending? ==> at == |script| && !Over(state.stage)
    {
      var byte;
      r, byte, from := Skip();
      if r.Ok? {
        r := Match(byte, from);
      }
    }

    /** `get32`: four bytes into a buffer, then `from_le_bytes`. */
    method Get32() returns (r: Outcome, w: word)
      requires Valid() && (state.stage.Echo? || state.stage.AwaitSuccess?) && state.window == 0 && state.got == 0
      modifies this`at, this`state, this`trace
      ensures Valid()
      ensures r.Ok? ==> state == GotWord(program, old(state), w)
                        && at == old(at) + 4 && Spells(script, old(at), at, w)
      ensures r.Err? ==> state.stage.Failed? && state.sent == old(state.sent)
      ensures r.Pending? ==> at == |script| && state.stage == old(state).stage && state.sent == old(state.sent)
    {
      var buf: seq<byte> := [];
      w := 0;
      while |buf| < 4
        invariant Valid() && |buf| <= 4 && at == old(at) + |buf| && Delivers(script, old(at), at, buf)
        invariant state == Collected(program, old(state), buf)
      {
        ghost var to := at;
        var b;
        r, b := GetU8();
        if !r.Ok? {
          return;
        }
        CollectsMore(program, old(state), buf, b);
        DeliversMore(script, old(at), to, buf, b);
        buf := buf + [b];
      }
      ReadSpells(script, old(at), at, buf);
      r, w := Ok, FromLe(buf);
    }

    method ConfirmChecksum(checksum: word) returns (r: Outcome)
      requires Valid() && state == Enter(state, Echo) && checksum == Crc.Checksum(program)
      modifies this`at, this`state, this`trace
      ensures Valid() && state.sent == old(state.sent)
      ensures r.Ok? ==> state == Enter(state, PutProgram)
                        && at == old(at) + 4 && Spells(script, old(at), at, checksum)
      ensures r.Err? ==> state.stage.Failed?
      ensures r.Pending? ==> at == |script| && !Over(state.stage)
    {
      var piChecksum;
      r, piChecksum := Get32();
      if r.Ok? && piChecksum != checksum {
        r := Err;
      }
    }

    /** Locks on to the Pi's request and answers it. */
    method Greet(checksum: word) returns (r: Outcome)
      requires Valid() && at == 0 && sent == [] && state == START && checksum == Crc.Checksum(program)
      modifies this`at, this`state, this`trace, this`sent
      ensures Valid() && sent == state.sent && sent <= Header(program)
      ensures r.Ok? ==> state == Enter(state, Skipping) && sent == Header(program)
      ensures r.Err? ==> state.stage.Failed?
      ensures r.Pending? ==> at == |script| && !Over(state.stage)
    {
      r := Lock();
      if r.Ok? {
        assert [] + Header(program) == Header(program);
        r := Put(HeaderOf(Length(program), checksum));
      }
    }

    /** Up to the point where the Pi has asked for the code and echoed the checksum. */
    method Handshake(checksum: word) returns (r: Outcome)
      requires Valid() && at == 0 && sent == [] && state == START && checksum == Crc.Checksum(program)
      modifies this`at, this`state, this`trace, this`sent
      ensures Valid() && sent == state.sent && sent <= Header(program)
      ensures r.Ok? ==> state == Enter(state, PutProgram) && sent == Header(program)
                        && Replied(script, at, checksum)
      ensures r.Err? ==> state.stage.Failed?
      ensures r.Pending? ==> at == |script| && !Over(state.stage)
    {
      r := Greet(checksum);
      if !r.Ok? {
        return;
      }
      ghost var from;
      r, from := SkipAndMatch();
      if !r.Ok? {
        return;
      }
      r := ConfirmChecksum(checksum);
      if r.Ok? {
        RepliedInTwoWords(script, from, at, checksum);
      }
    }

    /** The program, and the success word once the Pi has sent its own. */
    method SendProgram() returns (r: Outcome)
      requires Valid() && sent == state.sent && state == Enter(state, PutProgram)
      modifies this`at, this`state, this`trace, this`sent
      ensures Valid() && sent == state.sent
      ensures old(sent) <= sent <= old(sent) + program + ToLe(INSTALLER_SUCCESS)
      ensures |sent| > |old(sent)| + |program| ==> VerdictRead(script, at)
      ensures r.Ok? ==> VerdictRead(script, at)
                        && sent == old(sent) + program + ToLe(INSTALLER_SUCCESS)
      ensures r.Ok? <==> state.stage.Done?
      ensures r.Err? ==> state.stage.Failed?
      ensures r.Pending? ==> at == |script| && !Over(state.stage)
    {
      r := Put(program);
      if !r.Ok? {
        return;
      }
      ghost var from := at;
      var next;
      r, next := Get32();
      if !r.Ok? {
        return;
      }
      if next != PI_SUCCESS {
        return Err;
      }
      VerdictThenWrite(script, from, at);
      r := Put(ToLe(INSTALLER_SUCCESS));
    }

    /** The digest of the program in one go. */
    method ProgramChecksum() returns (checksum: word)
      ensures checksum == Crc.Checksum(program)
    {
      checksum := Crc.Finalize(Crc.Update(Crc.ZERO, program));
    }

    /** `transmit`: the outcome and the bytes sent are those of `Run`; success is the whole protocol. */
    method Transmit() returns (r: Outcome)
      requires Valid() && at == 0 && sent == [] && state == START
      modifies this
      ensures Valid() && state == Run(program, START, script[..at]) && sent == state.sent
      ensures sent <= Header(program) + program + ToLe(INSTALLER_SUCCESS)
      ensures r.Ok? ==> sent == Header(program) + program + ToLe(INSTALLER_SUCCESS)
      ensures r.Ok? ==> VerdictRead(script, at)
      ensures r.Ok? <==> state.stage.Done?
      ensures r.Err? ==> state.stage.Failed?
      ensures r.Pending? ==> at == |script| && !Over(state.stage)
    {
      var checksum := ProgramChecksum();
      r := Handshake(checksum);
      PrefixOfMore(sent, Header(program), program);
      PrefixOfMore(sent, Header(program) + program, ToLe(INSTALLER_SUCCESS));
      if r.Ok? {
        r := SendProgram();
      }
      TraceIsRun(program, trace, script);
    }
  }
}
