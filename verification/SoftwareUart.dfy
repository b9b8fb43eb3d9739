/**
 * The software UART: a transmitter of 8N1 frames that is timed by the cycle counter, and
 * a receiver that decodes what it sends.
 */
module SoftwareUart {
  import opened Bytes
  import opened CycleCounter

  /** `(700 * 1_000_000) / 115_200` */
  const CYCLES_PER_BIT := 6076

  /** At 700 MHz that is 115200 baud, to within a cycle a bit. */
  lemma BitTimeIsBaud()
    ensures 115_200 * CYCLES_PER_BIT <= 700 * 1_000_000 < 115_200 * (CYCLES_PER_BIT + 1)
  {
  }

  /** The most cycles from a wait's end to a pin write, to the next read, to the read after
      it, and between samples. */
  datatype Latency = Latency(write: nat, read: nat, first: nat, sample: nat) {
    function Jitter(): nat { write + read + first + sample }

    predicate Positive() { read > 0 && first > 0 && sample > 0 }
  }

  // --------------------------------------------------------------- frames

  /** A start bit, eight data bits, the lowest first, and a stop bit. */
  predicate FrameBit(v: byte, k: nat) {
    if k == 0 then false else if k <= 8 then Bit(v, k - 1) else true
  }

  // ------------------------------------------------------------- waveform

  /** The pin was written at these times, with these levels; it idles high. */
  datatype Wave = Wave(times: seq<nat>, levels: seq<bool>) {
    predicate Fits() { |times| == |levels| }

    function Level(t: nat): bool
      requires Fits()
      decreases |times|
    {
      if times == [] then true
      else
        var n := |times| - 1;
        if times[n] <= t then levels[n] else Wave(times[..n], levels[..n]).Level(t)
    }
  }

  /** One edge: its level, and its time to within `jitter`. */
  ghost predicate OnTime(w: Wave, at: nat, due: nat, level: bool, jitter: nat) {
    w.Fits() && at < |w.times| && due <= w.times[at] <= due + jitter && w.levels[at] == level
  }

  ghost predicate Extends(w: Wave, w': Wave) {
    w.Fits() && w'.Fits() && w.times <= w'.times && w.levels <= w'.levels
  }

  /**
   * The first `n` edges of a byte's frame, after the first `from` edges: each is on time
   * to within `jitter` of the frame's start, however many come before it.
   */
  ghost predicate Framed(w: Wave, from: nat, start: nat, v: byte, n: nat, jitter: nat) {
    forall k: nat {:trigger FrameBit(v, k)} :: k < n ==>
      OnTime(w, from + k, start + k * CYCLES_PER_BIT, FrameBit(v, k), jitter)
  }

  lemma FramedKept(w: Wave, w': Wave, from: nat, start: nat, v: byte, n: nat, jitter: nat)
    requires Framed(w, from, start, v, n, jitter) && Extends(w, w')
    ensures Framed(w', from, start, v, n, jitter)
  {
  }

  /** The whole of a transmission. */
  ghost predicate Carries(w: Wave, starts: seq<nat>, bytes: seq<byte>, jitter: nat) {
    w.Fits() && |w.times| == 10 * |bytes| && |starts| == |bytes|
    && (forall i :: 0 <= i < |bytes| ==> Framed(w, 10 * i, starts[i], bytes[i], 10, jitter))
    && forall i :: 0 < i < |bytes| ==> starts[i - 1] + 10 * CYCLES_PER_BIT <= starts[i]
  }

  // ----------------------------------------------------------- transmitter

  class SWUart {
    const clock: Clock
    const latency: Latency
    var pin: bool
    ghost var wave: Wave
    ghost var starts: seq<nat>
    ghost var sent: seq<byte>

    /** What was sent is on the wire, and the last frame's time is up. */
    ghost predicate Valid()
      reads this, clock
    {
      Carries(wave, starts, sent, latency.Jitter()) && latency.Positive() && latency.Jitter() < CYCLES_PER_BIT
      && (starts != [] ==> starts[|starts| - 1] + 10 * CYCLES_PER_BIT <= clock.now)
    }

    constructor (clock: Clock, latency: Latency)
      requires latency.Positive() && latency.Jitter() < CYCLES_PER_BIT
      ensures Valid() && this.clock == clock && this.latency == latency && sent == [] && pin
    {
      this.clock, this.latency, pin := clock, latency, true;
      wave, starts, sent := Wave([], []), [], [];
    }

    /** One bit: the pin is written, and the wait for the bit's end begins. */
    method Send(level: bool, desired: word, ghost due: nat) returns (ok: bool, next: word)
      requires latency.Positive() && latency.Jitter() < CYCLES_PER_BIT && wave.Fits() && desired == Counter(due)
      requires due <= clock.now <= due + latency.first + latency.sample
      modifies this`pin, this`wave, clock
      ensures ok && pin == level
      ensures Extends(old(wave), wave) && |wave.times| == |old(wave).times| + 1
      ensures OnTime(wave, |old(wave).times|, due, level, latency.Jitter())
      ensures next == Counter(due + CYCLES_PER_BIT)
      ensures due + CYCLES_PER_BIT <= clock.now <= due + CYCLES_PER_BIT + latency.first + latency.sample
    {
      clock.Pass(0, latency.write);
      pin := level;
      wave := Wave(wave.times + [clock.now], wave.levels + [level]);
      AddOfCounter(due, CYCLES_PER_BIT);
      next := WrappingAdd(desired, CYCLES_PER_BIT);
      ghost var at;
      ok, at := clock.DelayUntil(next, latency.read, latency.first, latency.sample);
      assert Counter(due + CYCLES_PER_BIT) == next;
    }

    /** The frame so far: `k` bits after the edges of `before`. */
    ghost predicate Sending(before: Wave, start: nat, v: byte, k: nat)
      reads this
    {
      Extends(before, wave) && |wave.times| == |before.times| + k
      && Framed(wave, |before.times|, start, v, k, latency.Jitter())
    }

    method SendBit(ghost before: Wave, ghost start: nat, ghost v: byte, ghost k: nat, level: bool, desired: word)
      returns (ok: bool, next: word)
      requires latency.Positive() && latency.Jitter() < CYCLES_PER_BIT
      requires k < 10 && Sending(before, start, v, k) && level == FrameBit(v, k)
      requires var due := start + k * CYCLES_PER_BIT;
               desired == Counter(due) && due <= clock.now <= due + latency.first + latency.sample
      modifies this`pin, this`wave, clock
      ensures ok && Sending(before, start, v, k + 1) && pin == level
      ensures var due := start + (k + 1) * CYCLES_PER_BIT;
              next == Counter(due) && due <= clock.now <= due + latency.first + latency.sample
    {
      ghost var was := wave;
      ok, next := Send(level, desired, start + k * CYCLES_PER_BIT);
      FramedKept(was, wave, |before.times|, start, v, k, latency.Jitter());
    }

    /** One frame; the assertion of `delay_until` does not fire. */
    method SendFrame(v: byte, desired: word, ghost start: nat) returns (ok: bool, next: word)
      requires latency.Positive() && latency.Jitter() < CYCLES_PER_BIT && wave.Fits()
      requires desired == Counter(start) && start <= clock.now <= start + latency.first + latency.sample
      modifies this`pin, this`wave, clock
      ensures ok && Sending(old(wave), start, v, 10) && pin
      ensures var due := start + 10 * CYCLES_PER_BIT;
              next == Counter(due) && due <= clock.now <= due + latency.first + latency.sample
    {
      ghost var before := wave;
      ok, next := SendBit(before, start, v, 0, false, desired);
      var rest := v;
      for i := 0 to 8
        invariant ok && Sending(before, start, v, i + 1)
        invariant forall j: nat :: Bit(rest, j) == Bit(v, i + j)
        invariant var due := start + (i + 1) * CYCLES_PER_BIT;
                  next == Counter(due) && due <= clock.now <= due + latency.first + latency.sample
      {
        assert Bit(rest, 0) == Bit(v, i + 0);
        ok, next := SendBit(before, start, v, i + 1, rest % 2 == 1, next);
        forall j: nat
          ensures Bit(rest / 2, j) == Bit(v, i + 1 + j)
        {
          assert Bit(rest, j + 1) == Bit(v, i + (j + 1));
        }
        rest := rest / 2;
      }
      ok, next := SendBit(before, start, v, 9, true, next);
    }

    /** The last frame is over by then. */
    ghost predicate OverBy(time: nat)
      reads this
    {
      starts != [] ==> starts[|starts| - 1] + 10 * CYCLES_PER_BIT <= time
    }

    /** Every byte that was sent is on the wire. */
    ghost predicate OnWire()
      reads this
    {
      Carries(wave, starts, sent, latency.Jitter())
    }

    method SendByte(v: byte, desired: word, ghost due: nat) returns (ok: bool, next: word)
      requires latency.Positive() && latency.Jitter() < CYCLES_PER_BIT && OnWire()
      requires desired == Counter(due) && due <= clock.now <= due + latency.first + latency.sample
      requires OverBy(due)
      modifies this`pin, this`wave, this`starts, this`sent, clock
      ensures ok && OnWire() && starts == old(starts) + [due] && sent == old(sent) + [v]
      ensures OverBy(due + 10 * CYCLES_PER_BIT)
      ensures var end := due + 10 * CYCLES_PER_BIT;
              next == Counter(end) && end <= clock.now <= end + latency.first + latency.sample
    {
      ghost var before := wave;
      ok, next := SendFrame(v, desired, due);
      CarriesMore(before, wave, starts, sent, due, v, latency.Jitter());
      starts, sent := starts + [due], sent + [v];
    }

    /**
     * The bytes are sent one frame after the other, each frame counted from the one
     * reading of the counter at the start: lateness does not add up, and however often
     * the counter wraps the assertion does not fire.
     */
    method Write(bytes: seq<byte>) returns (ok: bool, ghost start: nat)
      requires Valid()
      modifies this`pin, this`wave, this`starts, this`sent, clock
      ensures ok && Valid() && sent == old(sent) + bytes
      ensures old(clock.now) < start <= old(clock.now) + latency.first
      ensures starts == old(starts) + Grid(start, |bytes|)
    {
      var desired := clock.Read(latency.first);
      start := clock.now;
      ghost var due := start;
      ok := true;
      for i := 0 to |bytes|
        invariant ok && OnWire() && sent == old(sent) + bytes[..i] && starts == old(starts) + Grid(start, i)
        invariant due == Due(start, i) && OverBy(due)
        invariant desired == Counter(due) && due <= clock.now <= due + latency.first + latency.sample
      {
        GridGrows(old(starts), start, i);
        BytesGrow(old(sent), bytes, i);
        ok, desired := SendByte(bytes[i], desired, due);
        due := due + 10 * CYCLES_PER_BIT;
      }
      assert bytes[..|bytes|] == bytes;
    }
  }

  function Due(start: nat, i: nat): nat {
    start + i * (10 * CYCLES_PER_BIT)
  }

  /** The times that `n` frames in a row are due. */
  function Grid(start: nat, n: nat): seq<nat> {
    if n == 0 then [] else Grid(start, n - 1) + [Due(start, n - 1)]
  }

  lemma GridGrows(before: seq<nat>, start: nat, i: nat)
    ensures before + Grid(start, i + 1) == before + Grid(start, i) + [Due(start, i)]
  {
  }

  lemma BytesGrow(before: seq<byte>, bytes: seq<byte>, i: nat)
    requires i < |bytes|
    ensures before + bytes[..i + 1] == before + bytes[..i] + [bytes[i]]
  {
  }

  lemma CarriesMore(before: Wave, w: Wave, starts: seq<nat>, bytes: seq<byte>, start: nat, v: byte, jitter: nat)
    requires Carries(before, starts, bytes, jitter)
    requires starts != [] ==> starts[|starts| - 1] + 10 * CYCLES_PER_BIT <= start
    requires Extends(before, w) && |w.times| == |before.times| + 10
    requires Framed(w, |before.times|, start, v, 10, jitter)
    ensures Carries(w, starts + [start], bytes + [v], jitter)
  {
    forall i | 0 <= i < |bytes|
      ensures Framed(w, 10 * i, starts[i], bytes[i], 10, jitter)
    {
      FramedKept(before, w, 10 * i, starts[i], bytes[i], 10, jitter);
    }
  }

  lemma {:induction false} GridAt(start: nat, n: nat, i: nat)
    requires i < n
    ensures |Grid(start, n)| == n && Grid(start, n)[i] == Due(start, i)
    decreases n
  {
    if n > 1 {
      GridAt(start, n - 1, if i < n - 1 then i else 0);
    }
  }

  /**
   * No accumulated drift: edge `e` of a write is within the jitter of `e` bit times after
   * its start, and has the level of the bit that it begins.
   */
  lemma NoDrift(w: Wave, before: seq<nat>, start: nat, n: nat, sent: seq<byte>, jitter: nat, i: nat, k: nat)
    requires Carries(w, before + Grid(start, n), sent, jitter) && i < n && k < 10
    ensures |before| + i < |sent|
    ensures OnTime(w, 10 * (|before| + i) + k, start + (10 * i + k) * CYCLES_PER_BIT,
                   FrameBit(sent[|before| + i], k), jitter)
  {
    GridAt(start, n, i);
    assert Framed(w, 10 * (|before| + i), (before + Grid(start, n))[|before| + i], sent[|before| + i], 10, jitter);
    assert FrameBit(sent[|before| + i], k) ==> FrameBit(sent[|before| + i], k);
  }
}
