/** Bytes, 32-bit words and the two bit orders that the programs use. */
module Bytes {

  type byte = b: int | 0 <= b < 0x100 witness 0
  type word = w: int | 0 <= w < 0x1_0000_0000 witness 0

  datatype Option<+T> = None | Some(value: T)

  /** How many words there are: the counter's turn, and where `u32` arithmetic wraps around. */
  const TURN := 0x1_0000_0000

  /** `u32::wrapping_add`, and `+` in a release build. */
  function WrappingAdd(a: word, b: word): word {
    if a + b < TURN then a + b else a + b - TURN
  }

  /** `u32::wrapping_sub`, and `-` in a release build. */
  function WrappingSub(a: word, b: word): word {
    if b <= a then a - b else a - b + TURN
  }

  /** `u32::to_le_bytes`. */
  function ToLe(w: word): (bytes: seq<byte>)
    ensures |bytes| == 4
  {
    [w % 0x100, w / 0x100 % 0x100, w / 0x1_0000 % 0x100, w / 0x100_0000]
  }

  /** `u32::from_le_bytes`. */
  function FromLe(bytes: seq<byte>): word
    requires |bytes| == 4
  {
    0x100_0000 * bytes[3] as int + 0x1_0000 * bytes[2] as int + 0x100 * bytes[1] as int + bytes[0]
  }

  lemma LeRoundTrip(w: word)
    ensures FromLe(ToLe(w)) == w
  {
    var q := w / 0x100;
    assert w == 0x100 * q + w % 0x100;
    assert q == 0x100 * (q / 0x100) + q % 0x100;
    assert w / 0x1_0000 == q / 0x100;
    var p := q / 0x100;
    assert p == 0x100 * (p / 0x100) + p % 0x100;
    assert w / 0x100_0000 == p / 0x100;
  }

  lemma LowDigit(x: int, a: byte, r: int)
    requires x == 0x100 * r + a
    ensures x % 0x100 == a && x / 0x100 == r
  {
  }

  lemma LeIsInjective(a: seq<byte>, b: seq<byte>)
    requires |a| == |b| == 4 && FromLe(a) == FromLe(b)
    ensures a == b
  {
    var ra2, rb2 := 0x100 * a[3] as int + a[2], 0x100 * b[3] as int + b[2];
    var ra1, rb1 := 0x100 * ra2 + a[1], 0x100 * rb2 + b[1];
    LowDigit(FromLe(a), a[0], ra1);
    LowDigit(FromLe(b), b[0], rb1);
    LowDigit(ra1, a[1], ra2);
    LowDigit(rb1, b[1], rb2);
    LowDigit(ra2, a[2], a[3]);
    LowDigit(rb2, b[2], b[3]);
  }

  /**
   * One step of the receive window of both programs:
   * `(v >> 8) + ((b as u32) << 24)`.
   */
  function ShiftIn(v: word, b: byte): word {
    v / 0x100 + 0x100_0000 * b as int
  }

  function ShiftAll(v: word, bytes: seq<byte>): word {
    if bytes == [] then v
    else ShiftIn(ShiftAll(v, bytes[..|bytes| - 1]), bytes[|bytes| - 1])
  }

  lemma ShiftAllAppend(v: word, bytes: seq<byte>, b: byte)
    ensures ShiftAll(v, bytes + [b]) == ShiftIn(ShiftAll(v, bytes), b)
  {
    assert (bytes + [b])[..|bytes|] == bytes;
  }

  /** Four bytes push out whatever was in the window. */
  lemma FourShifts(v: word, b: byte, c: byte, d: byte, e: byte)
    ensures ShiftIn(ShiftIn(ShiftIn(ShiftIn(v, b), c), d), e) == FromLe([b, c, d, e])
  {
    var q := v / 0x100;
    var r := q / 0x100;
    var s := r / 0x100;
    var x1 := ShiftIn(v, b);
    LowDigit(x1, q % 0x100, r + 0x1_0000 * b as int);
    var x2 := ShiftIn(x1, c);
    LowDigit(x2, r % 0x100, s + 0x100 * b as int + 0x1_0000 * c as int);
    var x3 := ShiftIn(x2, d);
    LowDigit(x3, s, b as int + 0x100 * c as int + 0x1_0000 * d as int);
  }

  lemma {:induction false} ShiftAllConcat(v: word, a: seq<byte>, b: seq<byte>)
    ensures ShiftAll(v, a + b) == ShiftAll(ShiftAll(v, a), b)
    decreases |b|
  {
    if b == [] {
      assert a + b == a;
    } else {
      var n := |b| - 1;
      ShiftAllConcat(v, a, b[..n]);
      assert a + b == a + b[..n] + [b[n]];
      ShiftAllAppend(v, a + b[..n], b[n]);
    }
  }

  lemma ShiftAllFour(v: word, b: byte, c: byte, d: byte, e: byte)
    ensures ShiftAll(v, [b, c, d, e]) == ShiftIn(ShiftIn(ShiftIn(ShiftIn(v, b), c), d), e)
  {
    ShiftAllAppend(v, [b, c, d], e);
    ShiftAllAppend(v, [b, c], d);
    ShiftAllAppend(v, [b], c);
    ShiftAllAppend(v, [], b);
    assert [b, c, d] + [e] == [b, c, d, e] && [b, c] + [d] == [b, c, d];
    assert [b] + [c] == [b, c] && [] + [b] == [b];
  }

  /** The window holds exactly the last four bytes, whatever was in it before. */
  lemma WindowIsLastFour(v: word, bytes: seq<byte>)
    requires |bytes| >= 4
    ensures ShiftAll(v, bytes) == FromLe(bytes[|bytes| - 4..])
  {
    var before, last := bytes[..|bytes| - 4], bytes[|bytes| - 4..];
    assert bytes == before + last && last == [last[0], last[1], last[2], last[3]];
    ShiftAllConcat(v, before, last);
    ShiftAllFour(ShiftAll(v, before), last[0], last[1], last[2], last[3]);
    FourShifts(ShiftAll(v, before), last[0], last[1], last[2], last[3]);
  }

  /** Before four bytes have arrived the low byte of the window is still zero. */
  lemma {:induction false} ShortWindowIsLowZero(bytes: seq<byte>)
    requires |bytes| < 4
    ensures ShiftAll(0, bytes) % 0x100 == 0
    ensures |bytes| < 3 ==> ShiftAll(0, bytes) % 0x1_0000 == 0
    ensures |bytes| < 2 ==> ShiftAll(0, bytes) % 0x100_0000 == 0
  {
    if bytes != [] {
      var n := |bytes| - 1;
      ShortWindowIsLowZero(bytes[..n]);
      ShiftInAligned(ShiftAll(0, bytes[..n]), bytes[n]);
    }
  }

  lemma ShiftInAligned(v: word, b: byte)
    ensures v % 0x1_0000 == 0 ==> ShiftIn(v, b) % 0x100 == 0
    ensures v % 0x100_0000 == 0 ==> ShiftIn(v, b) % 0x1_0000 == 0
    ensures v == 0 ==> ShiftIn(v, b) % 0x100_0000 == 0
  {
    if v % 0x1_0000 == 0 {
      var q := v / 0x1_0000;
      LowDigit(v, 0, 0x100 * q);
      LowDigit(ShiftIn(v, b), 0, q + 0x1_0000 * b as int);
    }
    if v % 0x100_0000 == 0 {
      var q := v / 0x100_0000;
      LowDigit(v, 0, 0x1_0000 * q);
      LowHalf(ShiftIn(v, b), q + 0x100 * b as int);
    }
    if v == 0 {
      assert ShiftIn(v, b) == 0x100_0000 * b as int;
    }
  }

  lemma LowHalf(x: int, r: int)
    requires x == 0x1_0000 * r
    ensures x % 0x1_0000 == 0
  {
  }

  /** Bit `i` of `v`, counted from the lowest. */
  predicate Bit(v: nat, i: nat) {
    if i == 0 then v % 2 == 1 else Bit(v / 2, i - 1)
  }

  /** The `n` low bits of `v`, most significant first. */
  function MsbBits(v: nat, n: nat): (bits: seq<bool>)
    ensures |bits| == n
  {
    if n == 0 then [] else MsbBits(v / 2, n - 1) + [v % 2 == 1]
  }

  lemma LastBitIsParity(v: nat, n: nat)
    requires n > 0
    ensures MsbBits(v, n)[n - 1] == (v % 2 == 1)
  {
  }

  /** The number that a most-significant-first bit string denotes. */
  function FromMsb(bits: seq<bool>): nat {
    if bits == [] then 0
    else 2 * FromMsb(bits[..|bits| - 1]) + (if bits[|bits| - 1] then 1 else 0)
  }

  function Pow2(n: nat): (p: nat)
    ensures p > 0
  {
    if n == 0 then 1 else 2 * Pow2(n - 1)
  }

  lemma {:induction false} MsbRoundTrip(v: nat, n: nat)
    requires v < Pow2(n)
    ensures FromMsb(MsbBits(v, n)) == v
  {
    if n > 0 {
      MsbRoundTrip(v / 2, n - 1);
      assert MsbBits(v, n)[..n - 1] == MsbBits(v / 2, n - 1);
    }
  }

  lemma {:induction false} FromMsbIsInjective(a: seq<bool>, b: seq<bool>)
    requires |a| == |b| && FromMsb(a) == FromMsb(b)
    ensures a == b
  {
    if a != [] {
      var n := |a| - 1;
      FromMsbIsInjective(a[..n], b[..n]);
      assert a == a[..n] + [a[n]] && b == b[..n] + [b[n]];
    }
  }

  lemma {:induction false} FromMsbBound(bits: seq<bool>)
    ensures FromMsb(bits) < Pow2(|bits|)
  {
    if bits != [] {
      FromMsbBound(bits[..|bits| - 1]);
    }
  }
}
