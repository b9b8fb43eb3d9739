/**
 * The lockdown registers of the TLB: eight bit-packed entries behind an index register,
 * and what it means for them to map addresses.
 */
module Lockdown {
  import opened BitFields
  import opened Bytes

  /** The three registers of one entry. */
  datatype Entry = Entry(va: word, pa: word, attributes: word)

  /** The 4 KB frame that a register or an address is in. */
  function Frame(w: word): word {
    w - w % 0x1000
  }

  // ------------------------------------------------------- what they mean

  /**
   * One entry, unpacked.  The VA register has the frame in bits 31-12, the global flag in
   * bit 9 and the ASID in bits 7-0; the PA register the frame, the page size in bits 7-6,
   * the permissions in bits 2-1 and the valid flag in bit 0; the attributes register the
   * domain in bits 10-7 and the memory type in bits 5-0.
   */
  datatype Mapping = Mapping(valid: bool, va: word, pa: word, size: nat, global: bool, asid: nat,
                             permissions: nat, domain: nat, memory: nat)

  function Unpack(e: Entry): Mapping {
    Mapping(Get(e.pa, 1, 2) == 1, Frame(e.va), Frame(e.pa), Get(e.pa, 0x40, 4), Get(e.va, 0x200, 2) == 1,
            Get(e.va, 1, 0x100), Get(e.pa, 2, 4), Get(e.attributes, 0x80, 0x10), Get(e.attributes, 1, 0x40))
  }

  /** 16 MB, 4 KB, 64 KB or 1 MB. */
  function PageSize(size: nat): nat {
    if size == 0 then 0x100_0000 else if size == 1 then 0x1000 else if size == 2 then 0x1_0000 else 0x10_0000
  }

  predicate Hits(m: Mapping, asid: nat, a: word) {
    m.valid && (m.global || m.asid == asid) && a / PageSize(m.size) == m.va / PageSize(m.size)
  }

  function Translate(m: Mapping, a: word): int {
    m.pa - m.pa % PageSize(m.size) + a % PageSize(m.size)
  }

  // -------------------------------------------------------------- pinning

  const MEGABYTE := 0x10_0000

  /** `PageSize::Mb1` */
  const MB1 := 3

  datatype Attributes = Attributes(global: bool, asid: nat, domain: nat, size: nat, memory: nat, permissions: nat)

  predicate Acceptable(idx: nat, va: word, pa: word, attributes: Attributes) {
    idx < 8 && va % MEGABYTE == 0 && pa % MEGABYTE == 0 && attributes.domain < 16
    && (attributes.global ==> attributes.asid == 0)
  }

  /** What an entry means once it is pinned; two bits of the permissions fit. */
  function Pinned(va: word, pa: word, attributes: Attributes): Mapping {
    Mapping(true, va, pa, attributes.size % 4, attributes.global, attributes.asid % 0x100,
            attributes.permissions % 4, attributes.domain % 0x10, attributes.memory % 0x40)
  }

  function PackVa(va: word, attributes: Attributes): int {
    Put(Put(va, 1, 0x100, attributes.asid), 0x200, 2, Flag(attributes.global))
  }

  /** From a clear register, whose `spv` bit stays clear. */
  function PackAttributes(domain: nat, memory: nat): int {
    Put(Put(0, 0x80, 0x10, domain), 1, 0x40, memory)
  }

  function PackPa(pa: word, attributes: Attributes): int {
    Put(Put(Put(pa, 0x40, 4, attributes.size), 2, 4, attributes.permissions), 1, 2, 1)
  }

  lemma FrameOf(w: word, frame: nat, low: nat)
    requires w == frame * 0x1000 + low && low < 0x1000
    ensures Frame(w) == frame * 0x1000
  {
  }

  lemma VaUnpacks(va: word, attributes: Attributes)
    requires va % MEGABYTE == 0
    ensures PackVa(va, attributes) == va + attributes.asid % 0x100 + if attributes.global then 0x200 else 0
    ensures 0 <= PackVa(va, attributes) < 0x1_0000_0000
    ensures Frame(PackVa(va, attributes)) == va && Get(PackVa(va, attributes), 1, 0x100) == attributes.asid % 0x100
    ensures Get(PackVa(va, attributes), 0x200, 2) == Flag(attributes.global)
  {
    var k, asid, global := va / MEGABYTE, attributes.asid % 0x100, Flag(attributes.global);
    FieldOf(va, 1, 0x100, k * 0x1000, 0, 0);
    var w := va + asid;
    FieldOf(w, 0x200, 2, k * 0x400, 0, asid);
    var x := w + global * 0x200;
    assert PackVa(va, attributes) == x;
    FieldOf(x, 0x200, 2, k * 0x400, global, asid);
    FieldOf(x, 1, 0x100, k * 0x1000 + global * 2, asid, 0);
    FrameOf(x, k * 0x100, global * 0x200 + asid);
  }

  lemma PaPacks(pa: word, k: nat, attributes: Attributes)
    requires pa == k * MEGABYTE
    ensures PackPa(pa, attributes) == pa + attributes.size % 4 * 0x40 + attributes.permissions % 4 * 2 + 1
  {
    var size, ap := attributes.size % 4, attributes.permissions % 4;
    PutField(pa, 0x40, 4, k * 0x1000, 0, 0, attributes.size);
    var w := pa + size * 0x40;
    PutField(w, 2, 4, k * 0x2_0000 + size * 8, 0, 0, attributes.permissions);
    var x := w + ap * 2;
    PutField(x, 1, 2, k * 0x8_0000 + size * 0x20 + ap, 0, 0, 1);
  }

  lemma PaFields(y: nat, k: nat, size: nat, ap: nat)
    requires size < 4 && ap < 4 && y == k * MEGABYTE + size * 0x40 + ap * 2 + 1 < 0x1_0000_0000
    ensures Frame(y) == k * MEGABYTE && Get(y, 1, 2) == 1
    ensures Get(y, 0x40, 4) == size && Get(y, 2, 4) == ap
  {
    FieldOf(y, 1, 2, k * 0x8_0000 + size * 0x20 + ap, 1, 0);
    FieldOf(y, 2, 4, k * 0x2_0000 + size * 8, ap, 1);
    FieldOf(y, 0x40, 4, k * 0x1000, size, ap * 2 + 1);
    FrameOf(y, k * 0x100, size * 0x40 + ap * 2 + 1);
  }

  lemma PaUnpacks(pa: word, attributes: Attributes)
    requires pa % MEGABYTE == 0
    ensures PackPa(pa, attributes) == pa + attributes.size % 4 * 0x40 + attributes.permissions % 4 * 2 + 1
    ensures 0 <= PackPa(pa, attributes) < 0x1_0000_0000
    ensures Frame(PackPa(pa, attributes)) == pa && Get(PackPa(pa, attributes), 1, 2) == 1
    ensures Get(PackPa(pa, attributes), 0x40, 4) == attributes.size % 4
    ensures Get(PackPa(pa, attributes), 2, 4) == attributes.permissions % 4
  {
    var k := pa / MEGABYTE;
    PaPacks(pa, k, attributes);
    PaFields(PackPa(pa, attributes), k, attributes.size % 4, attributes.permissions % 4);
  }

  lemma AttributeFields(domain: nat, memory: nat)
    requires domain < 0x10 && memory < 0x40
    ensures Get(domain * 0x80, 1, 0x40) == 0
    ensures Get(domain * 0x80 + memory, 0x80, 0x10) == domain
    ensures Get(domain * 0x80 + memory, 1, 0x40) == memory
  {
    FieldOf(domain * 0x80, 1, 0x40, domain * 2, 0, 0);
    FieldOf(domain * 0x80 + memory, 0x80, 0x10, 0, domain, memory);
    FieldOf(domain * 0x80 + memory, 1, 0x40, domain * 2, memory, 0);
  }

  lemma AttributesUnpack(domain: nat, memory: nat)
    ensures PackAttributes(domain, memory) == domain % 0x10 * 0x80 + memory % 0x40
    ensures Get(PackAttributes(domain, memory), 0x80, 0x10) == domain % 0x10
    ensures Get(PackAttributes(domain, memory), 1, 0x40) == memory % 0x40
  {
    PutIntoZero(0x80, 0x10, domain);
    AttributeFields(domain % 0x10, memory % 0x40);
    PutLow(domain % 0x10 * 0x80, 0x40, memory);
  }

  /** The bit fields of a pinned entry are the ones that were put there. */
  lemma PackUnpacks(va: word, pa: word, attributes: Attributes)
    requires va % MEGABYTE == 0 && pa % MEGABYTE == 0
    ensures 0 <= PackVa(va, attributes) < 0x1_0000_0000 && 0 <= PackPa(pa, attributes) < 0x1_0000_0000
    ensures 0 <= PackAttributes(attributes.domain, attributes.memory) < 0x1_0000_0000
    ensures Unpack(Entry(PackVa(va, attributes), PackPa(pa, attributes),
                         PackAttributes(attributes.domain, attributes.memory)))
            == Pinned(va, pa, attributes)
  {
    VaUnpacks(va, attributes);
    PaUnpacks(pa, attributes);
    AttributesUnpack(attributes.domain, attributes.memory);
  }

  /** The three words, spelt out. */
  function WordsOf(va: word, pa: word, attributes: Attributes): (e: Entry)
    requires va % MEGABYTE == 0 && pa % MEGABYTE == 0
  {
    VaUnpacks(va, attributes);
    PaUnpacks(pa, attributes);
    Entry(va + attributes.asid % 0x100 + (if attributes.global then 0x200 else 0),
          pa + attributes.size % 4 * 0x40 + attributes.permissions % 4 * 2 + 1,
          attributes.domain % 0x10 * 0x80 + attributes.memory % 0x40)
  }

  lemma PackedWords(va: word, pa: word, attributes: Attributes)
    requires va % MEGABYTE == 0 && pa % MEGABYTE == 0
    ensures PackVa(va, attributes) == WordsOf(va, pa, attributes).va
    ensures PackPa(pa, attributes) == WordsOf(va, pa, attributes).pa
    ensures PackAttributes(attributes.domain, attributes.memory) == WordsOf(va, pa, attributes).attributes
  {
    VaUnpacks(va, attributes);
    PaUnpacks(pa, attributes);
    AttributesUnpack(attributes.domain, attributes.memory);
  }

  lemma ClearedWord(w: word)
    ensures var x := Put(w, 1, 2, 0);
            0 <= x <= w && x == w - w % 2 && x % 2 == 0 && Frame(x) == Frame(w)
            && Get(x, 0x40, 4) == Get(w, 0x40, 4) && Get(x, 2, 4) == Get(w, 2, 4)
  {
    var x := Put(w, 1, 2, 0);
    assert x == w / 2 * 2;
    assert x / 2 == w / 2;
    assert Get(x, 2, 4) == x / 2 % 4;
    assert w / 0x40 == w / 2 / 0x20 && x / 0x40 == x / 2 / 0x20;
    assert w / 0x1000 == w / 2 / 0x800 && x / 0x1000 == x / 2 / 0x800;
  }

  /** Clearing the valid bit changes nothing else about an entry. */
  lemma ClearsValid(e: Entry)
    ensures 0 <= Put(e.pa, 1, 2, 0) < 0x1_0000_0000
    ensures Put(e.pa, 1, 2, 0) == e.pa - e.pa % 2
    ensures Unpack(e.(pa := Put(e.pa, 1, 2, 0))) == Unpack(e).(valid := false)
  {
    ClearedWord(e.pa);
  }
}
