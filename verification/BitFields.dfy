/** Fields of a packed register: a field of `size` values starts at the bit of a given weight. */
module BitFields {
  function Get(w: int, weight: nat, size: nat): nat
    requires weight > 0 && size > 0
  {
    w / weight % size
  }

  /** What `set_` functions do: bits of `v` that do not fit are lost. */
  function Put(w: int, weight: nat, size: nat, v: nat): int
    requires weight > 0 && size > 0
  {
    w - Get(w, weight, size) * weight + v % size * weight
  }

  function Flag(v: bool): nat {
    if v then 1 else 0
  }

  lemma {:induction false} MulMonotone(a: nat, b: nat, d: nat)
    requires a < b
    ensures a * d + d <= b * d
    decreases b
  {
    assert b * d == (b - 1) * d + d;
    if a < b - 1 {
      MulMonotone(a, b - 1, d);
    }
  }

  lemma DivUnique(n: nat, d: nat, k: nat, r: nat)
    requires n == k * d + r && r < d
    ensures n / d == k && n % d == r
  {
    var q := n / d;
    assert n == q * d + n % d;
    if q < k {
      MulMonotone(q, k, d);
    } else if k < q {
      MulMonotone(k, q, d);
    }
  }

  /** A field of a word that is spelt out. */
  lemma FieldOf(w: nat, weight: nat, size: nat, high: nat, f: nat, low: nat)
    requires f < size && low < weight && w == (high * size + f) * weight + low
    ensures Get(w, weight, size) == f
  {
    DivUnique(w, weight, high * size + f, low);
    DivUnique(high * size + f, size, high, f);
  }

  lemma PutIntoZero(weight: nat, size: nat, v: nat)
    requires weight > 0 && size > 0
    ensures Put(0, weight, size, v) == v % size * weight
  {
    DivUnique(0, weight, 0, 0);
    DivUnique(0, size, 0, 0);
  }

  lemma PutLow(w: int, size: nat, v: nat)
    requires size > 0 && Get(w, 1, size) == 0
    ensures Put(w, 1, size, v) == w + v % size
  {
  }

  lemma Distribute(a: int, b: int, d: int)
    ensures (a + b) * d == a * d + b * d
  {
  }

  /** A word as the part above a field, the field and the part below it. */
  lemma Spell(w: nat, weight: nat, size: nat) returns (high: nat, low: nat)
    requires weight > 0 && size > 0
    ensures low < weight && w == high * size * weight + Get(w, weight, size) * weight + low
  {
    high, low := w / weight / size, w % weight;
    var r := w / weight;
    assert r == high * size + r % size;
    assert w == r * weight + low;
    Distribute(high * size, r % size, weight);
  }

  /** Writing a field of a word that is spelt out. */
  lemma PutField(w: nat, weight: nat, size: nat, high: nat, f: nat, low: nat, v: nat)
    requires f < size && low < weight && w == (high * size + f) * weight + low
    ensures Put(w, weight, size, v) == w - f * weight + v % size * weight
  {
    FieldOf(w, weight, size, high, f, low);
  }

  /** A field reads as what was put there, and what is below it and above it stays. */
  lemma PutHere(w: nat, weight: nat, size: nat, v: nat)
    requires weight > 0 && size > 0
    ensures Put(w, weight, size, v) >= 0 && Get(Put(w, weight, size, v), weight, size) == v % size
  {
    var high, low := Spell(w, weight, size);
    var f := v % size;
    Distribute(high * size, f, weight);
    assert Put(w, weight, size, v) == (high * size + f) * weight + low;
    NonNegative(high * size + f, weight);
    FieldOf(Put(w, weight, size, v), weight, size, high, f, low);
  }

  lemma NonNegative(a: nat, b: nat)
    ensures a * b >= 0
  {
  }
}
