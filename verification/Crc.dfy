/**
 * CRC-32/BZIP2 started from zero, bit by bit: the digest that the installer
 * takes of a program in one go, the Pi over the chunks it receives, and the
 * interleaver over the register files it traps.
 */
module Crc {
  import opened Bytes

  /** The 32-bit shift register, most significant bit first. */
  type Register = s: seq<bool> | |s| == 32 witness seq(32, _ => false)

  const ZERO: Register := MsbBits(0, 32)
  const ONES: Register := MsbBits(0xFFFF_FFFF, 32)
  const POLYNOMIAL: Register := MsbBits(0x04C1_1DB7, 32)

  function Xor(a: Register, b: Register): (c: Register) {
    seq(32, i => 0 <= i < 32 && a[i] != b[i])
  }

  /** Shifts the register up by one and reduces by the polynomial. */
  function ShiftOut(s: Register): Register {
    var up := s[1..] + [false];
    if s[0] then Xor(up, POLYNOMIAL) else up
  }

  /** Feeds one message bit in at the top. */
  function BitStep(s: Register, x: bool): Register {
    ShiftOut(s[0 := s[0] != x])
  }

  function Absorb(s: Register, bits: seq<bool>): Register
    decreases |bits|
  {
    if bits == [] then s else Absorb(BitStep(s, bits[0]), bits[1..])
  }

  /** The message bits of a byte string: each byte goes in top bit first. */
  function MessageBits(bytes: seq<byte>): (bits: seq<bool>)
    ensures |bits| == 8 * |bytes|
  {
    if bytes == [] then [] else MsbBits(bytes[0], 8) + MessageBits(bytes[1..])
  }

  /** `Digest::update`. */
  function Update(s: Register, bytes: seq<byte>): Register
    decreases |bytes|
  {
    if bytes == [] then s else Update(Absorb(s, MsbBits(bytes[0], 8)), bytes[1..])
  }

  function Invert(s: Register): Register {
    Xor(s, ONES)
  }

  /** `Digest::finalize`: the final exclusive or is all ones. */
  function Finalize(s: Register): word {
    FromMsbBound(Invert(s));
    Pow2Of32();
    FromMsb(Invert(s))
  }

  /** The digest of a message in one go. */
  function Digest(bytes: seq<byte>): Register {
    Update(ZERO, bytes)
  }

  function Checksum(bytes: seq<byte>): word {
    Finalize(Digest(bytes))
  }

  lemma Pow2Of32()
    ensures Pow2(32) == 0x1_0000_0000
  {
    assert Pow2(8) == 0x100;
    assert Pow2(16) == 0x1_0000;
    assert Pow2(24) == 0x100_0000;
  }

  lemma PolynomialIsOdd()
    ensures POLYNOMIAL[31]
  {
    LastBitIsParity(0x04C1_1DB7, 32);
  }

  // ---------------------------------------------------------------- chunks

  lemma {:induction false} AbsorbConcat(s: Register, a: seq<bool>, b: seq<bool>)
    ensures Absorb(s, a + b) == Absorb(Absorb(s, a), b)
    decreases |a|
  {
    if a == [] {
      assert a + b == b;
    } else {
      assert (a + b)[1..] == a[1..] + b;
      AbsorbConcat(BitStep(s, a[0]), a[1..], b);
    }
  }

  lemma {:induction false} UpdateConcat(s: Register, a: seq<byte>, b: seq<byte>)
    ensures Update(s, a + b) == Update(Update(s, a), b)
    decreases |a|
  {
    if a == [] {
      assert a + b == b;
    } else {
      assert (a + b)[1..] == a[1..] + b;
      UpdateConcat(Absorb(s, MsbBits(a[0], 8)), a[1..], b);
    }
  }

  function Flatten(chunks: seq<seq<byte>>): seq<byte> {
    if chunks == [] then [] else chunks[0] + Flatten(chunks[1..])
  }

  function UpdateChunks(s: Register, chunks: seq<seq<byte>>): Register
    decreases |chunks|
  {
    if chunks == [] then s else UpdateChunks(Update(s, chunks[0]), chunks[1..])
  }

  /** Any split into chunks, empty ones included, gives the one-shot digest. */
  lemma {:induction false} ChunkingDoesNotMatter(s: Register, chunks: seq<seq<byte>>)
    ensures UpdateChunks(s, chunks) == Update(s, Flatten(chunks))
    decreases |chunks|
  {
    if chunks != [] {
      ChunkingDoesNotMatter(Update(s, chunks[0]), chunks[1..]);
      UpdateConcat(s, chunks[0], Flatten(chunks[1..]));
    }
  }

  lemma {:induction false} UpdateIsAbsorb(s: Register, bytes: seq<byte>)
    ensures Update(s, bytes) == Absorb(s, MessageBits(bytes))
    decreases |bytes|
  {
    if bytes != [] {
      UpdateIsAbsorb(Absorb(s, MsbBits(bytes[0], 8)), bytes[1..]);
      AbsorbConcat(s, MsbBits(bytes[0], 8), MessageBits(bytes[1..]));
    }
  }

  // ------------------------------------------------------- error detection

  /** The registers differ somewhere in their `i` lowest bits. */
  ghost predicate DifferLow(s: Register, t: Register, i: nat)
    requires i <= 32
  {
    exists j :: 32 - i <= j < 32 && s[j] != t[j]
  }

  lemma BitStepShifts(s: Register, x: bool, j: nat)
    requires j < 31
    ensures BitStep(s, x)[j] == (s[j + 1] != ((s[0] != x) && POLYNOMIAL[j]))
    ensures BitStep(s, x)[31] == (s[0] != x)
  {
    PolynomialIsOdd();
  }

  /** A low difference survives a step, one bit further up or re-entering at the bottom. */
  lemma DifferenceSurvives(s: Register, t: Register, x: bool, y: bool, i: nat)
    requires i < 32 && DifferLow(s, t, i)
    ensures DifferLow(BitStep(s, x), BitStep(t, y), i + 1)
  {
    var j :| 32 - i <= j < 32 && s[j] != t[j];
    BitStepShifts(s, x, j - 1);
    BitStepShifts(t, y, j - 1);
    var s', t' := BitStep(s, x), BitStep(t, y);
    if (s[0] != x) == (t[0] != y) {
      assert s'[j - 1] != t'[j - 1];
    } else {
      assert s'[31] != t'[31];
    }
  }

  lemma {:induction false} DifferenceSurvivesBits(s: Register, t: Register, a: seq<bool>, b: seq<bool>, i: nat)
    requires |a| == |b| && i + |a| <= 32 && DifferLow(s, t, i)
    ensures Absorb(s, a) != Absorb(t, b)
    decreases |a|
  {
    if a != [] {
      DifferenceSurvives(s, t, a[0], b[0], i);
      DifferenceSurvivesBits(BitStep(s, a[0]), BitStep(t, b[0]), a[1..], b[1..], i + 1);
    }
  }

  /** At most 32 message bits can be read off the register they lead to. */
  lemma {:induction false} ShortMessagesAreTold(s: Register, a: seq<bool>, b: seq<bool>)
    requires |a| == |b| <= 32 && a != b
    ensures Absorb(s, a) != Absorb(s, b)
    decreases |a|
  {
    if a[0] == b[0] {
      assert a == [a[0]] + a[1..] && b == [b[0]] + b[1..];
      ShortMessagesAreTold(BitStep(s, a[0]), a[1..], b[1..]);
    } else {
      BitStepShifts(s, a[0], 0);
      BitStepShifts(s, b[0], 0);
      assert DifferLow(BitStep(s, a[0]), BitStep(s, b[0]), 1);
      DifferenceSurvivesBits(BitStep(s, a[0]), BitStep(s, b[0]), a[1..], b[1..], 1);
    }
  }

  lemma BitStepIsInjective(s: Register, t: Register, x: bool)
    requires s != t
    ensures BitStep(s, x) != BitStep(t, x)
  {
    var j :| 0 <= j < 32 && s[j] != t[j];
    BitStepShifts(s, x, 0);
    BitStepShifts(t, x, 0);
    if s[0] == t[0] {
      BitStepShifts(s, x, j - 1);
      BitStepShifts(t, x, j - 1);
    }
  }

  lemma {:induction false} AbsorbIsInjective(s: Register, t: Register, bits: seq<bool>)
    requires s != t
    ensures Absorb(s, bits) != Absorb(t, bits)
    decreases |bits|
  {
    if bits != [] {
      BitStepIsInjective(s, t, bits[0]);
      AbsorbIsInjective(BitStep(s, bits[0]), BitStep(t, bits[0]), bits[1..]);
    }
  }

  lemma FinalizeIsInjective(s: Register, t: Register)
    requires Finalize(s) == Finalize(t)
    ensures s == t
  {
    FromMsbIsInjective(Invert(s), Invert(t));
    forall i | 0 <= i < 32
      ensures s[i] == t[i]
    {
      assert Invert(s)[i] == Invert(t)[i];
    }
  }

  /** The two byte strings have the same bits outside `[k, k + 32)`. */
  ghost predicate AgreeOutsideBurst(p: seq<byte>, q: seq<byte>, k: nat) {
    |p| == |q| &&
    forall i :: 0 <= i < 8 * |p| && !(k <= i < k + 32) ==> MessageBits(p)[i] == MessageBits(q)[i]
  }

  /** A corruption confined to 32 consecutive bits, at any bit offset, changes any digest. */
  lemma BurstIsTold(s: Register, p: seq<byte>, q: seq<byte>, k: nat)
    requires AgreeOutsideBurst(p, q, k) && p != q
    ensures Update(s, p) != Update(s, q)
  {
    var a, b := MessageBits(p), MessageBits(q);
    if a == b {
      MessageBitsAreInjective(p, q);
    }
    var n := |a|;
    var lo := if k <= n then k else n;
    var hi := if k + 32 <= n then k + 32 else n;
    assert a[..lo] == b[..lo] && a[hi..] == b[hi..];
    assert a == a[..lo] + a[lo..hi] + a[hi..];
    assert b == b[..lo] + b[lo..hi] + b[hi..];
    var t := Absorb(s, a[..lo]);
    ShortMessagesAreTold(t, a[lo..hi], b[lo..hi]);
    AbsorbIsInjective(Absorb(t, a[lo..hi]), Absorb(t, b[lo..hi]), a[hi..]);
    AbsorbConcat(s, a[..lo], a[lo..hi]);
    AbsorbConcat(s, b[..lo], b[lo..hi]);
    AbsorbConcat(s, a[..lo] + a[lo..hi], a[hi..]);
    AbsorbConcat(s, b[..lo] + b[lo..hi], b[hi..]);
    UpdateIsAbsorb(s, p);
    UpdateIsAbsorb(s, q);
  }

  /** In particular it changes the checksum. */
  lemma BurstIsDetected(p: seq<byte>, q: seq<byte>, k: nat)
    requires AgreeOutsideBurst(p, q, k) && p != q
    ensures Checksum(p) != Checksum(q)
  {
    BurstIsTold(ZERO, p, q, k);
    if Checksum(p) == Checksum(q) {
      FinalizeIsInjective(Update(ZERO, p), Update(ZERO, q));
    }
  }

  lemma {:induction false} MessageBitsAreInjective(p: seq<byte>, q: seq<byte>)
    requires |p| == |q| && MessageBits(p) == MessageBits(q)
    ensures p == q
  {
    if p != [] {
      var a, b := MessageBits(p), MessageBits(q);
      assert MsbBits(p[0], 8) == a[..8] == b[..8] == MsbBits(q[0], 8);
      assert MessageBits(p[1..]) == a[8..] == b[8..] == MessageBits(q[1..]);
      assert Pow2(8) == 0x100;
      MsbRoundTrip(p[0], 8);
      MsbRoundTrip(q[0], 8);
      MessageBitsAreInjective(p[1..], q[1..]);
      assert p == [p[0]] + p[1..] && q == [q[0]] + q[1..];
    }
  }

  lemma {:induction false} MessageBitsAt(p: seq<byte>, i: nat)
    requires i < 8 * |p|
    ensures MessageBits(p)[i] == MsbBits(p[i / 8], 8)[i % 8]
  {
    if i >= 8 {
      MessageBitsAt(p[1..], i - 8);
      assert (i - 8) / 8 == i / 8 - 1 && (i - 8) % 8 == i % 8;
    } else {
      assert i / 8 == 0 && i % 8 == i;
    }
  }

  /** Four consecutive bytes are such a burst. */
  lemma FourBytesAreABurst(p: seq<byte>, q: seq<byte>, k: nat)
    requires |p| == |q|
    requires forall i :: 0 <= i < |p| && !(k <= i < k + 4) ==> p[i] == q[i]
    ensures AgreeOutsideBurst(p, q, 8 * k)
  {
    forall i | 0 <= i < 8 * |p| && !(8 * k <= i < 8 * k + 32)
      ensures MessageBits(p)[i] == MessageBits(q)[i]
    {
      MessageBitsAt(p, i);
      MessageBitsAt(q, i);
      assert 0 <= i / 8 < |p| && !(k <= i / 8 < k + 4);
    }
  }

  lemma FourBytesAreDetected(p: seq<byte>, q: seq<byte>, k: nat)
    requires |p| == |q| && p != q
    requires forall i :: 0 <= i < |p| && !(k <= i < k + 4) ==> p[i] == q[i]
    ensures Checksum(p) != Checksum(q)
  {
    FourBytesAreABurst(p, q, k);
    BurstIsDetected(p, q, 8 * k);
  }
}
