/** The breakpoint registers: the status that the debugger reads is the one that it wrote. */
module Breakpoints {
  import opened BitFields
  import opened Bytes
  import Debugging

  /** The mismatch bit and the enable bit of BCR0. */
  const MISMATCH := 0x40_0000
  const ENABLE := 1

  function Status(bcr: int): Debugging.Breakpoint {
    if Get(bcr, ENABLE, 2) == 1 then Debugging.Enabled(Get(bcr, MISMATCH, 2) == 0) else Debugging.Disabled
  }

  /** The register without the two bits. */
  function Rest(bcr: int): int {
    bcr - Get(bcr, MISMATCH, 2) * MISMATCH - Get(bcr, ENABLE, 2)
  }

  function WithStatus(bcr: word, status: Debugging.Breakpoint): int {
    match status
    case Disabled => Put(bcr, ENABLE, 2, 0)
    case Enabled(matching) => Put(Put(bcr, MISMATCH, 2, Flag(!matching)), ENABLE, 2, 1)
  }

  lemma LowBitOf(w: nat, k: nat, low: nat)
    requires w == 2 * k + low
    ensures Get(w, ENABLE, 2) == low % 2
  {
  }

  lemma LowBitSet(low: nat, v: nat)
    requires low < MISMATCH && v < 2
    ensures 0 <= low - low % 2 + v < MISMATCH
  {
  }

  lemma EnableApart(w: nat, v: nat)
    requires v < 2
    ensures Get(Put(w, ENABLE, 2, v), MISMATCH, 2) == Get(w, MISMATCH, 2)
  {
    var f := Get(w, MISMATCH, 2);
    var high, low := Spell(w, MISMATCH, 2);
    LowBitOf(w, (high * 2 + f) * 0x20_0000, low);
    LowBitSet(low, v);
    FieldOf(w - low % 2 + v, MISMATCH, 2, high, f, low - low % 2 + v);
  }

  lemma MismatchApart(w: nat, v: nat)
    requires v < 2
    ensures Get(Put(w, MISMATCH, 2, v), ENABLE, 2) == Get(w, ENABLE, 2)
  {
    var f, q, b, x := Get(w, MISMATCH, 2), w / 2, w % 2, Put(w, MISMATCH, 2, v);
    PutHere(w, MISMATCH, 2, v);
    assert x == (q + (v - f) * 0x20_0000) * 2 + b;
    FieldOf(x, ENABLE, 2, q + (v - f) * 0x20_0000, b, 0);
    FieldOf(w, ENABLE, 2, q, b, 0);
  }

  /** Getting what was set; every other bit of the register, and the mode of a disabled one, stays. */
  lemma StatusRoundTrip(bcr: word, status: Debugging.Breakpoint)
    ensures Status(WithStatus(bcr, status)) == status
    ensures Rest(WithStatus(bcr, status)) == Rest(bcr)
    ensures status.Disabled? ==> Get(WithStatus(bcr, status), MISMATCH, 2) == Get(bcr, MISMATCH, 2)
  {
    match status
    case Disabled =>
      PutHere(bcr, ENABLE, 2, 0);
      EnableApart(bcr, 0);
    case Enabled(matching) =>
      var w := Put(bcr, MISMATCH, 2, Flag(!matching));
      PutHere(bcr, MISMATCH, 2, Flag(!matching));
      MismatchApart(bcr, Flag(!matching));
      PutHere(w, ENABLE, 2, 1);
      EnableApart(w, 1);
  }

  lemma GetSpeltOut(x: int)
    ensures Get(x, ENABLE, 2) == x % 2 && Get(x, MISMATCH, 2) == x / 0x40_0000 % 2
  {
  }

  /** The mismatch bit is bit 22, set for a mismatch, and the enable bit is the lowest. */
  lemma StatusOfBits(bcr: word)
    ensures Status(bcr) == if bcr % 2 == 0 then Debugging.Disabled
                           else Debugging.Enabled(bcr / 0x40_0000 % 2 == 0)
  {
    GetSpeltOut(bcr);
  }

  /** Enabling sets the lowest bit, and bit 22 for mismatch mode only; disabling clears the lowest. */
  lemma BitsOfStatus(bcr: word, status: Debugging.Breakpoint)
    ensures var x := WithStatus(bcr, status);
            x % 2 == (if status.Disabled? then 0 else 1)
            && x / 0x40_0000 % 2 == (match status
                                     case Disabled => bcr / 0x40_0000 % 2
                                     case Enabled(matching) => if matching then 0 else 1)
            && x - x / 0x40_0000 % 2 * 0x40_0000 - x % 2 == bcr - bcr / 0x40_0000 % 2 * 0x40_0000 - bcr % 2
  {
    StatusRoundTrip(bcr, status);
    GetSpeltOut(bcr);
    GetSpeltOut(WithStatus(bcr, status));
  }
}
