/**
 * What the checksum is: the complement of the remainder that the message, followed by 32
 * zeros, leaves on division by the generator of CRC-32, as polynomials over GF(2).
 */
module CrcRemainder {
  import opened Bytes
  import opened Crc

  /** A polynomial over GF(2): its coefficients, highest exponent first. */
  type Poly = seq<bool>

  function Zeros(n: nat): (p: Poly)
    ensures |p| == n
  {
    seq(n, _ => false)
  }

  function Plus(a: Poly, b: Poly): (c: Poly)
    requires |a| == |b|
    ensures |c| == |a|
  {
    seq(|a|, i requires 0 <= i < |a| => a[i] != b[i])
  }

  /** One shifted copy of `g` for each term of `q`. */
  function Times(q: Poly, g: Poly): (p: Poly)
    requires g != []
    ensures |p| == |q| + |g| - 1
  {
    if q == [] then Zeros(|g| - 1)
    else
      var n := |q| - 1;
      Plus(Times(q[..n], g) + [false], Zeros(n) + if q[n] then g else Zeros(|g|))
  }

  /** The parity of the terms of the first `n` coefficients of `q` that fall on coefficient `k`. */
  function Convolve(q: Poly, g: Poly, k: nat, n: nat): bool
    requires n <= |q|
    decreases n
  {
    if n == 0 then false
    else Convolve(q, g, k, n - 1) != (q[n - 1] && 0 <= k - (n - 1) < |g| && g[k - (n - 1)])
  }

  lemma {:induction false} ConvolvePrefix(q: Poly, g: Poly, k: nat, m: nat, n: nat)
    requires n <= m <= |q|
    ensures Convolve(q[..m], g, k, n) == Convolve(q, g, k, n)
    decreases n
  {
    if n > 0 {
      ConvolvePrefix(q, g, k, m, n - 1);
    }
  }

  lemma {:induction false} ConvolveBelow(q: Poly, g: Poly, k: nat, n: nat)
    requires n <= |q| && k >= n + |g| - 1
    ensures !Convolve(q, g, k, n)
    decreases n
  {
    if n > 0 {
      ConvolveBelow(q, g, k, n - 1);
    }
  }

  lemma TimesAt(q: Poly, g: Poly, k: nat)
    requires q != [] && g != [] && k < |q| + |g| - 1
    ensures var n := |q| - 1;
            Times(q, g)[k] == ((k < n + |g| - 1 && Times(q[..n], g)[k]) != (q[n] && n <= k && g[k - n]))
  {
    var n := |q| - 1;
    TermAdded(Times(q[..n], g), n, q[n], g, k);
  }

  lemma TermAdded(p: Poly, n: nat, c: bool, g: Poly, k: nat)
    requires |p| == n + |g| - 1 && k < n + |g|
    ensures Plus(p + [false], Zeros(n) + if c then g else Zeros(|g|))[k]
            == ((k < |p| && p[k]) != (c && n <= k && g[k - n]))
  {
    TermAt(n, c, g, k);
  }

  lemma TermAt(n: nat, c: bool, g: Poly, k: nat)
    requires k < n + |g|
    ensures (Zeros(n) + if c then g else Zeros(|g|))[k] == (c && n <= k && g[k - n])
  {
  }

  /** The product's coefficients are the sums of products that they should be. */
  lemma {:induction false} TimesIsConvolution(q: Poly, g: Poly, k: nat)
    requires g != [] && k < |q| + |g| - 1
    ensures Times(q, g)[k] == Convolve(q, g, k, |q|)
    decreases |q|
  {
    if q != [] {
      var n := |q| - 1;
      TimesAt(q, g, k);
      ConvolvePrefix(q, g, k, n, n);
      if k < n + |g| - 1 {
        TimesIsConvolution(q[..n], g, k);
      } else {
        ConvolveBelow(q, g, k, n);
      }
    }
  }

  /** The exponents of the generator of CRC-32. */
  const EXPONENTS: set<int> := {32, 26, 23, 22, 16, 12, 11, 10, 8, 7, 5, 4, 2, 1, 0}

  function Generator(): (g: Poly)
    ensures |g| == 33
  {
    seq(33, i => 32 - i in EXPONENTS)
  }

  /** `m`, followed by 32 zeros, is `q` times the generator and `r` left over. */
  ghost predicate Divides(m: Poly, q: Poly, r: Poly) {
    |q| == |m| && |r| == 32 && m + Zeros(32) == Plus(Times(q, Generator()), Zeros(|m|) + r)
  }

  ghost predicate IsRemainder(m: Poly, r: Poly) {
    exists q :: Divides(m, q, r)
  }

  // ------------------------------------------------- remainders are unique

  lemma {:induction false} QuotientsDiffer(q: Poly, p: Poly, g: Poly, k: nat)
    requires |q| == |p| && g != [] && g[0] && k < |q|
    requires q[..k] == p[..k] && q[k] != p[k]
    ensures Times(q, g)[k] != Times(p, g)[k]
    decreases |q|
  {
    var n := |q| - 1;
    if k < n {
      assert q[..n][..k] == q[..k] && p[..n][..k] == p[..k];
      QuotientsDiffer(q[..n], p[..n], g, k);
    }
  }

  lemma {:induction false} FirstDifference(q: Poly, p: Poly) returns (k: nat)
    requires |q| == |p| && q != p
    ensures k < |q| && q[..k] == p[..k] && q[k] != p[k]
    decreases |q|
  {
    var n := |q| - 1;
    if q[..n] == p[..n] {
      k := n;
      assert q == q[..n] + [q[n]] && p == p[..n] + [p[n]];
    } else {
      k := FirstDifference(q[..n], p[..n]);
      assert q[..n][..k] == q[..k] && p[..n][..k] == p[..k];
    }
  }

  lemma DividesAt(m: Poly, q: Poly, r: Poly, i: nat)
    requires Divides(m, q, r) && i < |m| + 32
    ensures (i < |m| && m[i]) == (Times(q, Generator())[i] != (i >= |m| && r[i - |m|]))
  {
    assert (m + Zeros(32))[i] == Plus(Times(q, Generator()), Zeros(|m|) + r)[i];
  }

  /** There is one quotient and one remainder. */
  lemma RemainderIsUnique(m: Poly, q: Poly, r: Poly, q': Poly, r': Poly)
    requires Divides(m, q, r) && Divides(m, q', r')
    ensures q == q' && r == r'
  {
    if q != q' {
      var k := FirstDifference(q, q');
      QuotientsDiffer(q, q', Generator(), k);
      DividesAt(m, q, r, k);
      DividesAt(m, q', r', k);
    }
    forall i | 0 <= i < 32
      ensures r[i] == r'[i]
    {
      DividesAt(m, q, r, |m| + i);
      DividesAt(m, q', r', |m| + i);
    }
  }

  // ------------------------------------------------ the register divides

  lemma {:induction false} MsbBitsSplit(v: nat, n: nat, w: nat, k: nat)
    requires w < Pow2(k)
    ensures MsbBits(v * Pow2(k) + w, n + k) == MsbBits(v, n) + MsbBits(w, k)
    decreases k
  {
    if k > 0 {
      var x := v * Pow2(k) + w;
      Halve(v, w, Pow2(k - 1));
      MsbBitsSplit(v, n, w / 2, k - 1);
      assert MsbBits(x, n + k) == MsbBits(x / 2, n + (k - 1)) + [x % 2 == 1];
    }
  }

  lemma Halve(v: nat, w: nat, p: nat)
    ensures (v * (2 * p) + w) / 2 == v * p + w / 2 && (v * (2 * p) + w) % 2 == w % 2
  {
    assert v * (2 * p) == 2 * (v * p);
  }

  lemma ByteAppended(v: nat, n: nat, b: byte, w: nat, m: nat)
    requires w == 0x100 * v + b && m == n + 8
    ensures MsbBits(w, m) == MsbBits(v, n) + MsbBits(b, 8)
  {
    assert Pow2(8) == 0x100;
    MsbBitsSplit(v, n, b, 8);
  }

  lemma FourBytes(x: nat, y: nat, z: nat, a: byte, b: byte, c: byte, d: byte)
    requires x == 0x100 * a as int + b && y == 0x100 * x + c && z == 0x100 * y + d
    ensures MsbBits(z, 32) == MsbBits(a, 8) + MsbBits(b, 8) + MsbBits(c, 8) + MsbBits(d, 8)
  {
    ByteAppended(a, 8, b, x, 16);
    ByteAppended(x, 16, c, y, 24);
    ByteAppended(y, 24, d, z, 32);
  }

  /** The exponents from `low` to `low + 7` that are in the generator, the highest first. */
  function Octet(low: nat): (p: Poly)
    ensures |p| == 8
  {
    seq(8, i => low + 7 - i in EXPONENTS)
  }

  lemma FirstOctet()
    ensures Octet(24) == MsbBits(0x04, 8)
  {
    assert MsbBits(0x04, 8) == [false, false, false, false, false, true, false, false];
  }

  lemma SecondOctet()
    ensures Octet(16) == MsbBits(0xC1, 8)
  {
    assert MsbBits(0xC1, 8) == [true, true, false, false, false, false, false, true];
  }

  lemma ThirdOctet()
    ensures Octet(8) == MsbBits(0x1D, 8)
  {
    assert MsbBits(0x1D, 8) == [false, false, false, true, true, true, false, true];
  }

  lemma FourthOctet()
    ensures Octet(0) == MsbBits(0xB7, 8)
  {
    assert MsbBits(0xB7, 8) == [true, false, true, true, false, true, true, true];
  }

  /** The constant of the shift register is the generator without its highest term. */
  lemma PolynomialIsGenerator()
    ensures Generator() == [true] + POLYNOMIAL
  {
    FourBytes(0x04C1, 0x04_C11D, 0x04C1_1DB7, 0x04, 0xC1, 0x1D, 0xB7);
    FirstOctet();
    SecondOctet();
    ThirdOctet();
    FourthOctet();
    GeneratorInOctets();
  }

  lemma GeneratorInOctets()
    ensures Generator() == [true] + (Octet(24) + Octet(16) + Octet(8) + Octet(0))
  {
  }

  lemma RegisterAt(s: Register, x: bool, j: nat)
    requires j < 32
    ensures BitStep(s, x)[j] == ((j < 31 && s[j + 1]) != ((s[0] != x) && Generator()[j + 1]))
  {
    PolynomialIsGenerator();
  }

  /** One bit more of the message is one bit more of the quotient. */
  lemma BitStepDivides(m: Poly, q: Poly, s: Register, x: bool)
    requires Divides(m, q, s)
    ensures Divides(m + [x], q + [s[0] != x], BitStep(s, x))
  {
    var n, top, g := |m|, s[0] != x, Generator();
    var m', q', s' := m + [x], q + [top], BitStep(s, x);
    assert q'[..n] == q;
    forall i | 0 <= i < n + 33
      ensures (m' + Zeros(32))[i] == Plus(Times(q', g), Zeros(n + 1) + s')[i]
    {
      StepAt(m, q, s, x, i);
    }
    assert m' + Zeros(32) == Plus(Times(q', g), Zeros(n + 1) + s');
  }

  lemma StepAt(m: Poly, q: Poly, s: Register, x: bool, i: nat)
    requires Divides(m, q, s) && i < |m| + 33
    ensures (m + [x] + Zeros(32))[i]
            == (Times(q + [s[0] != x], Generator())[i] != (Zeros(|m| + 1) + BitStep(s, x))[i])
  {
    var n, top, g := |m|, s[0] != x, Generator();
    assert (q + [top])[..n] == q;
    assert Times(q + [top], g)[i]
           == ((Times(q, g) + [false])[i] != (Zeros(n) + if top then g else Zeros(33))[i]);
    PolynomialIsGenerator();
    if i < n + 32 {
      DividesAt(m, q, s, i);
    }
    if i > n {
      RegisterAt(s, x, i - n - 1);
    }
  }

  lemma {:induction false} AbsorbDivides(m: Poly, q: Poly, s: Register, bits: seq<bool>) returns (q': Poly)
    requires Divides(m, q, s)
    ensures Divides(m + bits, q', Absorb(s, bits))
    decreases |bits|
  {
    if bits == [] {
      q' := q;
      assert m + bits == m;
    } else {
      BitStepDivides(m, q, s, bits[0]);
      q' := AbsorbDivides(m + [bits[0]], q + [s[0] != bits[0]], BitStep(s, bits[0]), bits[1..]);
      assert m + [bits[0]] + bits[1..] == m + bits;
    }
  }

  lemma {:induction false} MsbBitsOfZero(n: nat)
    ensures MsbBits(0, n) == Zeros(n)
  {
    if n > 0 {
      MsbBitsOfZero(n - 1);
    }
  }

  lemma NothingDivides()
    ensures Divides([], [], ZERO)
  {
    MsbBitsOfZero(32);
  }

  // ------------------------------------------------- bits of the message

  lemma {:induction false} MsbBitsAt(v: nat, n: nat, k: nat)
    requires k < n
    ensures MsbBits(v, n)[k] == Bit(v, n - 1 - k)
    decreases n
  {
    if k < n - 1 {
      MsbBitsAt(v / 2, n - 1, k);
    }
  }

  /** The bytes in order, each with its highest bit first. */
  function Message(bytes: seq<byte>): (m: Poly)
    ensures |m| == 8 * |bytes|
  {
    seq(8 * |bytes|, k requires 0 <= k < 8 * |bytes| => Bit(bytes[k / 8], 7 - k % 8))
  }

  lemma MessageIsItsBits(bytes: seq<byte>)
    ensures Message(bytes) == MessageBits(bytes)
  {
    forall k | 0 <= k < 8 * |bytes|
      ensures Message(bytes)[k] == MessageBits(bytes)[k]
    {
      MessageBitsAt(bytes, k);
      MsbBitsAt(bytes[k / 8], 8, k % 8);
    }
  }

  /** The bits of a word, each inverted, the highest first. */
  function Complement(c: word): (r: Poly)
    ensures |r| == 32
  {
    seq(32, k requires 0 <= k < 32 => !Bit(c, 31 - k))
  }

  lemma {:induction false} MsbBitsOfOnes(n: nat)
    ensures MsbBits(Pow2(n) - 1, n) == seq(n, _ => true)
  {
    if n > 0 {
      MsbBitsOfOnes(n - 1);
      assert (Pow2(n) - 1) / 2 == Pow2(n - 1) - 1;
    }
  }

  lemma {:induction false} BitOfMsb(bits: seq<bool>, k: nat, e: nat)
    requires k < |bits| && e == |bits| - 1 - k
    ensures Bit(FromMsb(bits), e) == bits[k]
    decreases |bits|
  {
    var n := |bits| - 1;
    var v := FromMsb(bits[..n]);
    assert FromMsb(bits) / 2 == v;
    if k < n {
      BitOfMsb(bits[..n], k, e - 1);
    }
  }

  lemma ComplementAt(c: word, k: nat)
    requires k < 32
    ensures Complement(c)[k] == !Bit(c, 31 - k)
  {
  }

  lemma InvertAt(s: Register, k: nat)
    requires k < 32
    ensures Invert(s)[k] == !s[k]
  {
    Pow2Of32();
    MsbBitsOfOnes(32);
    assert ONES[k];
  }

  lemma ComplementOf(c: word, bits: Register, s: Register)
    requires c == FromMsb(bits) && forall k :: 0 <= k < 32 ==> bits[k] == !s[k]
    ensures Complement(c) == s
  {
    forall k | 0 <= k < 32
      ensures Complement(c)[k] == s[k]
    {
      ComplementAt(c, k);
      BitOfMsb(bits, k, 31 - k);
    }
  }

  lemma FinalizeComplements(s: Register)
    ensures Complement(Finalize(s)) == s
  {
    forall k | 0 <= k < 32
      ensures Invert(s)[k] == !s[k]
    {
      InvertAt(s, k);
    }
    ComplementOf(Finalize(s), Invert(s), s);
  }

  lemma ComplementIsInjective(c: word, d: word)
    requires Complement(c) == Complement(d)
    ensures c == d
  {
    Pow2Of32();
    forall k | 0 <= k < 32
      ensures MsbBits(c, 32)[k] == MsbBits(d, 32)[k]
    {
      MsbBitsAt(c, 32, k);
      MsbBitsAt(d, 32, k);
      assert Complement(c)[k] == Complement(d)[k];
    }
    assert MsbBits(c, 32) == MsbBits(d, 32);
    MsbRoundTrip(c, 32);
    MsbRoundTrip(d, 32);
  }

  /**
   * The checksum of a message is the one word whose complement is the remainder of the
   * message's bits, followed by 32 zeros, on division by the generator.
   */
  lemma ChecksumIsRemainder(bytes: seq<byte>, c: word)
    ensures c == Checksum(bytes) <==> IsRemainder(Message(bytes), Complement(c))
  {
    var m, s := Message(bytes), Digest(bytes);
    NothingDivides();
    var q := AbsorbDivides([], [], ZERO, MessageBits(bytes));
    assert [] + MessageBits(bytes) == MessageBits(bytes);
    MessageIsItsBits(bytes);
    UpdateIsAbsorb(ZERO, bytes);
    assert Divides(m, q, s);
    FinalizeComplements(s);
    if IsRemainder(m, Complement(c)) {
      var q' :| Divides(m, q', Complement(c));
      RemainderIsUnique(m, q, s, q', Complement(c));
      ComplementIsInjective(c, Checksum(bytes));
    }
  }
}
