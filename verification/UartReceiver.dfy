/**
 * A receiver for the software UART: it waits for the line to fall, samples in the middle
 * of each bit from there, and waits for the next fall once it has sampled the stop bit.
 */
module UartReceiver {
  import opened Bytes
  import opened Sequences
  import opened SoftwareUart

  /** `CYCLES_PER_BIT / 2` */
  const HALF_BIT := 3038

  function Sample(w: Wave, fall: nat, k: nat): bool
    requires w.Fits()
  {
    w.Level(fall + HALF_BIT + k * CYCLES_PER_BIT)
  }

  /** The number that bits spell, the lowest first. */
  function Value(bits: seq<bool>): nat {
    if bits == [] then 0 else (if bits[0] then 1 else 0) + 2 * Value(bits[1..])
  }

  /** Samples `k` to `k + n - 1`. */
  function Samples(w: Wave, fall: nat, k: nat, n: nat): seq<bool>
    requires w.Fits()
    decreases n
  {
    if n == 0 then [] else [Sample(w, fall, k)] + Samples(w, fall, k + 1, n - 1)
  }

  ghost predicate High(w: Wave, from: nat, until: nat)
    requires w.Fits()
  {
    forall t :: from <= t < until ==> w.Level(t)
  }

  /** Listening from `from`, the receiver sees the line fall at `fall`, and then this byte. */
  ghost predicate Hears(w: Wave, from: nat, fall: nat, v: byte)
    requires w.Fits()
  {
    from <= fall && High(w, from, fall) && !w.Level(fall)
    && !Sample(w, fall, 0) && Value(Samples(w, fall, 1, 8)) == v && Sample(w, fall, 9)
  }

  /** Where the receiver has sampled the stop bit. */
  function StopSample(fall: nat): nat {
    fall + HALF_BIT + 9 * CYCLES_PER_BIT
  }

  /** Listening from `from`, the receiver decodes these bytes and then nothing more. */
  ghost predicate Decodes(w: Wave, from: nat, bytes: seq<byte>)
    requires w.Fits()
    decreases |bytes|
  {
    if bytes == [] then forall t :: from <= t ==> w.Level(t)
    else exists fall: nat :: Hears(w, from, fall, bytes[0]) && Decodes(w, StopSample(fall), bytes[1..])
  }

  lemma HearsOneByte(w: Wave, from: nat, x: nat, y: nat, a: byte, b: byte)
    requires w.Fits() && Hears(w, from, x, a) && Hears(w, from, y, b)
    ensures x == y && a == b
  {
  }

  lemma HearsSomething(w: Wave, from: nat, bytes: seq<byte>) returns (fall: nat)
    requires w.Fits() && bytes != [] && Decodes(w, from, bytes)
    ensures Hears(w, from, fall, bytes[0]) && Decodes(w, StopSample(fall), bytes[1..])
    ensures from <= fall && !w.Level(fall)
  {
    fall :| Hears(w, from, fall, bytes[0]) && Decodes(w, StopSample(fall), bytes[1..]);
  }

  /** A waveform is never decoded in two ways. */
  lemma {:induction false} DecodesOneWay(w: Wave, from: nat, a: seq<byte>, b: seq<byte>)
    requires w.Fits() && Decodes(w, from, a) && Decodes(w, from, b)
    ensures a == b
    decreases |a|
  {
    var x, y := from, from;
    if a != [] {
      x := HearsSomething(w, from, a);
    }
    if b != [] {
      y := HearsSomething(w, from, b);
    }
    if a != [] && b != [] {
      HearsOneByte(w, from, x, y, a[0], b[0]);
      DecodesOneWay(w, StopSample(x), a[1..], b[1..]);
      HeadAndTail(a);
      HeadAndTail(b);
    }
  }

  // ------------------------------------------------------------ levels

  ghost predicate Ascending(times: seq<nat>) {
    forall a, b :: 0 <= a < b < |times| ==> times[a] < times[b]
  }

  lemma {:induction false} LevelAt(w: Wave, n: nat, t: nat)
    requires w.Fits() && Ascending(w.times) && n < |w.times|
    requires w.times[n] <= t && (n + 1 < |w.times| ==> t < w.times[n + 1])
    ensures w.Level(t) == w.levels[n]
    decreases |w.times|
  {
    var last := |w.times| - 1;
    if n < last {
      LevelAt(Wave(w.times[..last], w.levels[..last]), n, t);
    }
  }

  lemma {:induction false} LevelBefore(w: Wave, t: nat)
    requires w.Fits() && (w.times != [] ==> t < w.times[0]) && Ascending(w.times)
    ensures w.Level(t)
    decreases |w.times|
  {
    if w.times != [] {
      var last := |w.times| - 1;
      LevelBefore(Wave(w.times[..last], w.levels[..last]), t);
    }
  }

  // ------------------------------------------------------------- bits

  lemma {:induction false} SamplesSpell(w: Wave, fall: nat, k: nat, n: nat, v: byte)
    requires w.Fits() && v < Pow2(n)
    requires forall j :: 0 <= j < n ==> Sample(w, fall, k + j) == Bit(v, j)
    ensures Value(Samples(w, fall, k, n)) == v
    decreases n
  {
    if n > 0 {
      forall j | 0 <= j < n - 1
        ensures Sample(w, fall, k + 1 + j) == Bit(v / 2, j)
      {
        assert Sample(w, fall, k + (j + 1)) == Bit(v, j + 1);
      }
      SamplesSpell(w, fall, k + 1, n - 1, v / 2);
      assert Sample(w, fall, k + 0) == Bit(v, 0);
      assert Samples(w, fall, k, n)[1..] == Samples(w, fall, k + 1, n - 1);
    }
  }

  // --------------------------------------------------------------- theorem

  /** Edge `e` belongs to bit `e % 10` of byte `e / 10`. */
  lemma EdgeTimes(w: Wave, starts: seq<nat>, bytes: seq<byte>, jitter: nat, i: nat, k: nat)
    requires Carries(w, starts, bytes, jitter) && i < |bytes| && k < 10
    ensures 10 * i + k < |w.times| == |w.levels|
    ensures starts[i] + k * CYCLES_PER_BIT <= w.times[10 * i + k] <= starts[i] + k * CYCLES_PER_BIT + jitter
    ensures w.levels[10 * i + k] == FrameBit(bytes[i], k)
  {
    assert Framed(w, 10 * i, starts[i], bytes[i], 10, jitter);
    assert OnTime(w, 10 * i + k, starts[i] + k * CYCLES_PER_BIT, FrameBit(bytes[i], k), jitter);
  }

  lemma {:induction false} EdgesAscend(w: Wave, starts: seq<nat>, bytes: seq<byte>, jitter: nat)
    requires Carries(w, starts, bytes, jitter) && jitter < CYCLES_PER_BIT
    ensures Ascending(w.times)
  {
    forall e | 0 <= e < |w.times| - 1
      ensures w.times[e] < w.times[e + 1]
    {
      var i, k := e / 10, e % 10;
      EdgeTimes(w, starts, bytes, jitter, i, k);
      if k < 9 {
        EdgeTimes(w, starts, bytes, jitter, i, k + 1);
      } else {
        EdgeTimes(w, starts, bytes, jitter, i + 1, 0);
      }
    }
    StepsAscend(w.times);
  }

  lemma StepsAscend(times: seq<nat>)
    requires forall e :: 0 <= e < |times| - 1 ==> times[e] < times[e + 1]
    ensures Ascending(times)
  {
    forall a, b | 0 <= a < b < |times|
      ensures times[a] < times[b]
    {
      StepsBetween(times, a, b);
    }
  }

  lemma {:induction false} StepsBetween(times: seq<nat>, a: nat, b: nat)
    requires forall e :: 0 <= e < |times| - 1 ==> times[e] < times[e + 1]
    requires a < b < |times|
    ensures times[a] < times[b]
    decreases b
  {
    assert times[b - 1] < times[b - 1 + 1];
    if a < b - 1 {
      StepsBetween(times, a, b - 1);
    }
  }

  /** A sample in the middle of a bit sees that bit. */
  lemma SampleSees(w: Wave, starts: seq<nat>, bytes: seq<byte>, jitter: nat, i: nat, k: nat)
    requires Carries(w, starts, bytes, jitter) && jitter < HALF_BIT && i < |bytes| && k < 10
    ensures 10 * i < |w.times| && Sample(w, w.times[10 * i], k) == FrameBit(bytes[i], k)
  {
    EdgesAscend(w, starts, bytes, jitter);
    EdgeTimes(w, starts, bytes, jitter, i, 0);
    EdgeTimes(w, starts, bytes, jitter, i, k);
    if k < 9 {
      EdgeTimes(w, starts, bytes, jitter, i, k + 1);
    } else if i + 1 < |bytes| {
      EdgeTimes(w, starts, bytes, jitter, i + 1, 0);
    }
    LevelAt(w, 10 * i + k, w.times[10 * i] + HALF_BIT + k * CYCLES_PER_BIT);
  }

  lemma HearsByte(w: Wave, starts: seq<nat>, bytes: seq<byte>, jitter: nat, i: nat, from: nat)
    requires Carries(w, starts, bytes, jitter) && jitter < HALF_BIT && i < |bytes|
    requires 10 * i < |w.times| && from <= w.times[10 * i]
    requires i > 0 ==> w.times[10 * i - 1] <= from
    ensures Hears(w, from, w.times[10 * i], bytes[i])
  {
    var fall := w.times[10 * i];
    EdgesAscend(w, starts, bytes, jitter);
    EdgeTimes(w, starts, bytes, jitter, i, 0);
    forall t | from <= t < fall
      ensures w.Level(t)
    {
      if i == 0 {
        LevelBefore(w, t);
      } else {
        EdgeTimes(w, starts, bytes, jitter, i - 1, 9);
        LevelAt(w, 10 * i - 1, t);
      }
    }
    LevelAt(w, 10 * i, fall);
    SampleSees(w, starts, bytes, jitter, i, 0);
    SampleSees(w, starts, bytes, jitter, i, 9);
    forall j | 0 <= j < 8
      ensures Sample(w, fall, 1 + j) == Bit(bytes[i], j)
    {
      SampleSees(w, starts, bytes, jitter, i, 1 + j);
    }
    assert Pow2(8) == 256;
    SamplesSpell(w, fall, 1, 8, bytes[i]);
  }

  /** After the last stop bit the line stays high. */
  lemma HighAfter(w: Wave, starts: seq<nat>, bytes: seq<byte>, jitter: nat, from: nat)
    requires Carries(w, starts, bytes, jitter) && jitter < HALF_BIT
    requires bytes != [] ==> w.times[|w.times| - 1] <= from
    ensures forall t :: from <= t ==> w.Level(t)
  {
    EdgesAscend(w, starts, bytes, jitter);
    forall t | from <= t
      ensures w.Level(t)
    {
      if bytes == [] {
        LevelBefore(w, t);
      } else {
        EdgeTimes(w, starts, bytes, jitter, |bytes| - 1, 9);
        LevelAt(w, |w.times| - 1, t);
      }
    }
  }

  lemma DecodesMore(w: Wave, from: nat, fall: nat, bytes: seq<byte>)
    requires w.Fits() && bytes != [] && Hears(w, from, fall, bytes[0])
    requires Decodes(w, StopSample(fall), bytes[1..])
    ensures Decodes(w, from, bytes)
  {
  }

  /** The stop bit is sampled before the next frame begins. */
  lemma StopIsSampled(w: Wave, starts: seq<nat>, bytes: seq<byte>, jitter: nat, i: nat)
    requires Carries(w, starts, bytes, jitter) && jitter < HALF_BIT && i < |bytes|
    ensures 10 * i + 10 <= |w.times| && w.times[10 * i + 9] <= StopSample(w.times[10 * i])
    ensures i + 1 < |bytes| ==> 10 * i + 10 < |w.times| && StopSample(w.times[10 * i]) <= w.times[10 * i + 10]
  {
    EdgeTimes(w, starts, bytes, jitter, i, 0);
    EdgeTimes(w, starts, bytes, jitter, i, 9);
    if i + 1 < |bytes| {
      EdgeTimes(w, starts, bytes, jitter, i + 1, 0);
    }
  }

  lemma {:induction false} DecodesFrom(w: Wave, starts: seq<nat>, bytes: seq<byte>, jitter: nat, i: nat, from: nat)
    requires Carries(w, starts, bytes, jitter) && jitter < HALF_BIT && i <= |bytes|
    requires i < |bytes| ==> 10 * i < |w.times| && from <= w.times[10 * i]
    requires i > 0 ==> w.times[10 * i - 1] <= from
    ensures Decodes(w, from, bytes[i..])
    decreases |bytes| - i
  {
    if i == |bytes| {
      HighAfter(w, starts, bytes, jitter, from);
    } else {
      HearsByte(w, starts, bytes, jitter, i, from);
      var fall := w.times[10 * i];
      StopIsSampled(w, starts, bytes, jitter, i);
      DecodesFrom(w, starts, bytes, jitter, i + 1, StopSample(fall));
      assert bytes[i..][0] == bytes[i] && bytes[i..][1..] == bytes[i + 1..];
      DecodesMore(w, from, fall, bytes[i..]);
    }
  }

  /**
   * With jitter below half a bit the receiver decodes exactly the bytes that were sent, in
   * any number of writes, and can decode nothing else.
   */
  lemma ReceiverDecodes(w: Wave, starts: seq<nat>, bytes: seq<byte>, jitter: nat, from: nat, heard: seq<byte>)
    requires Carries(w, starts, bytes, jitter) && jitter < HALF_BIT
    requires bytes != [] ==> from <= starts[0]
    ensures Decodes(w, from, heard) <==> heard == bytes
  {
    if bytes != [] {
      EdgeTimes(w, starts, bytes, jitter, 0, 0);
    }
    DecodesFrom(w, starts, bytes, jitter, 0, from);
    assert bytes[0..] == bytes;
    if Decodes(w, from, heard) {
      DecodesOneWay(w, from, heard, bytes);
    }
  }
}
