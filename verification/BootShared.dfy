/** The protocol words that both ends of the serial line agree on. */
module BootShared {
  import opened Bytes

  const PI_ERROR: word := 0x0000_1111
  const PI_GET_PROG_INFO: word := 0xEEEE_FFFF
  const PI_GET_CODE: word := 0x1111_2222
  const PI_SUCCESS: word := 0x2222_3333
  const INSTALLER_PROG_INFO: word := 0xBEEF_DEAD
  const INSTALLER_SUCCESS: word := 0x4444_5555

  const BASE: word := 0x8000

  predicate IsPiGetProgInfoByte(b: byte) {
    b == 0xEE || b == 0xFF
  }

  /** The words as they go over the line, and the bytes that the installer skips. */
  lemma ProtocolBytes(b: byte)
    ensures ToLe(PI_GET_PROG_INFO) == [0xFF, 0xFF, 0xEE, 0xEE] && ToLe(PI_GET_CODE) == [0x22, 0x22, 0x11, 0x11]
    ensures ToLe(PI_SUCCESS) == [0x33, 0x33, 0x22, 0x22] && ToLe(PI_ERROR) == [0x11, 0x11, 0x00, 0x00]
    ensures ToLe(INSTALLER_PROG_INFO) == [0xAD, 0xDE, 0xEF, 0xBE]
    ensures ToLe(INSTALLER_SUCCESS) == [0x55, 0x55, 0x44, 0x44]
    ensures IsPiGetProgInfoByte(b) <==> b in ToLe(PI_GET_PROG_INFO)
  {
  }

  /** What the Pi has on the line after asking `k` times for program information. */
  function Requests(k: nat): (bytes: seq<byte>)
    ensures |bytes| == 4 * k
  {
    if k == 0 then [] else Requests(k - 1) + ToLe(PI_GET_PROG_INFO)
  }

  lemma RequestBytes()
    ensures ToLe(PI_GET_PROG_INFO) == [0xFF, 0xFF, 0xEE, 0xEE]
  {
  }

  /** Byte `r` of request `j`. */
  lemma {:induction false} RequestByteIs(k: nat, j: nat, r: nat)
    requires j < k && r < 4
    ensures Requests(k)[4 * j + r] == (if r < 2 then 0xFF else 0xEE)
    decreases k
  {
    RequestBytes();
    if j < k - 1 {
      RequestByteIs(k - 1, j, r);
    }
  }

  lemma RequestByteAt(k: nat, i: nat)
    requires i < 4 * k
    ensures IsPiGetProgInfoByte(Requests(k)[i])
  {
    RequestByteIs(k, i / 4, i % 4);
  }

  /** What a window that started empty shows after these bytes. */
  function Shown(bytes: seq<byte>): word {
    ShiftAll(0, bytes)
  }

  lemma ShownMore(bytes: seq<byte>, b: byte)
    ensures Shown(bytes + [b]) == ShiftIn(Shown(bytes), b)
  {
    ShiftAllAppend(0, bytes, b);
  }

  lemma ShownFour(bytes: seq<byte>)
    requires |bytes| == 4
    ensures Shown(bytes) == FromLe(bytes)
  {
    WindowIsLastFour(0, bytes);
    assert bytes[0..] == bytes;
  }

  /**
   * A window that starts empty and joins the request stream at byte `o` shows the whole
   * request once `p` bytes have arrived.
   */
  predicate Locked(k: nat, o: nat, p: nat) {
    o + p <= 4 * k && Shown(Requests(k)[o..o + p]) == PI_GET_PROG_INFO
  }

  /** That happens exactly when four bytes have arrived and a request ends there. */
  lemma WindowLocksOnFrameBoundary(k: nat, o: nat, p: nat)
    requires o + p <= 4 * k
    ensures Locked(k, o, p) <==> p >= 4 && (o + p) % 4 == 0
  {
    var seen := Requests(k)[o..o + p];
    if p < 4 {
      ShortWindowIsLowZero(seen);
    } else {
      WindowIsLastFour(0, seen);
      assert seen[p - 4..] == Requests(k)[o + p - 4..o + p];
      LastFourOfRequests(k, o + p);
    }
  }

  lemma RequestIsToldByItsBytes(bytes: seq<byte>)
    requires |bytes| == 4
    ensures FromLe(bytes) == PI_GET_PROG_INFO <==> bytes == [0xFF, 0xFF, 0xEE, 0xEE]
  {
    if FromLe(bytes) == PI_GET_PROG_INFO {
      LeIsInjective(bytes, [0xFF, 0xFF, 0xEE, 0xEE]);
    }
  }

  lemma LastFourOfRequests(k: nat, e: nat)
    requires 4 <= e <= 4 * k
    ensures FromLe(Requests(k)[e - 4..e]) == PI_GET_PROG_INFO <==> e % 4 == 0
  {
    RequestIsToldByItsBytes(Requests(k)[e - 4..e]);
    LastFour(k, e / 4 - 1, e % 4);
  }

  /** The four bytes that end `r` bytes after request `j`. */
  lemma LastFour(k: nat, j: nat, r: nat)
    requires r < 4 && 4 * j + 4 + r <= 4 * k
    ensures Requests(k)[4 * j + r..4 * j + r + 4] == [0xFF, 0xFF, 0xEE, 0xEE] <==> r == 0
  {
    var last := Requests(k)[4 * j + r..4 * j + r + 4];
    if r == 0 {
      RequestByteIs(k, j, 0);
      RequestByteIs(k, j, 1);
      RequestByteIs(k, j, 2);
      RequestByteIs(k, j, 3);
    } else if r == 1 {
      RequestByteIs(k, j, 2);
      assert last[1] == 0xEE;
    } else {
      RequestByteIs(k, j, r);
      assert last[0] == 0xEE;
    }
  }

  function FirstLock(o: nat): nat {
    if o % 4 == 0 then 4 else 8 - o % 4
  }

  lemma FirstLockIsNear(o: nat)
    ensures 4 <= FirstLock(o) <= 7 && (o + FirstLock(o)) % 4 == 0
  {
  }

  /** The lock comes at the first opportunity: after at least four and at most seven bytes. */
  lemma LocksWithinSevenBytes(k: nat, o: nat)
    requires o + FirstLock(o) <= 4 * k
    ensures 4 <= FirstLock(o) <= 7 && (o + FirstLock(o)) % 4 == 0
    ensures Locked(k, o, FirstLock(o))
    ensures forall q :: 0 <= q < FirstLock(o) ==> !Locked(k, o, q)
  {
    var p := FirstLock(o);
    FirstLockIsNear(o);
    WindowLocksOnFrameBoundary(k, o, p);
    forall q | 0 <= q < p
      ensures !Locked(k, o, q)
    {
      WindowLocksOnFrameBoundary(k, o, q);
    }
  }
}
