/**
 * The pinned sections: which addresses the TLB maps after `setup` and any number of
 * grants and revocations of the illegal segment, and that it maps them to themselves.
 */
module PinnedTlb {
  import opened BitFields
  import opened Bytes
  import opened Lockdown

  const KERNEL_DOMAIN := 1

  /** Code, heap, stack, interrupt stack, and the three megabytes of device memory. */
  const SECTIONS: seq<word> :=
    [0x0000_0000, 0x0010_0000, 0x07F0_0000, 0x08F0_0000, 0x2000_0000, 0x2010_0000, 0x2020_0000]

  /** `(0xa77acc0 >> 20) << 20` */
  const ILLEGAL: word := 0x0A70_0000

  const DEVICE := Attributes(true, 0, KERNEL_DOMAIN, MB1, 0x0, 1)
  const KERNEL := Attributes(true, 0, KERNEL_DOMAIN, MB1, 0x4, 1)

  function SectionAttributes(i: nat): Attributes {
    if i < 4 then KERNEL else DEVICE
  }

  type Entries = e: seq<Entry> | |e| == 8 witness seq(8, _ => Entry(0, 0, 0))

  /** The seven sections are pinned in their slots. */
  ghost predicate SectionsPinned(entries: Entries) {
    forall i :: 0 <= i < 7 ==> Unpack(entries[i]) == Pinned(SECTIONS[i], SECTIONS[i], SectionAttributes(i))
  }

  /** They are, and the illegal segment is in the last slot or that is free. */
  ghost predicate Mapped(entries: Entries, allowed: bool) {
    SectionsPinned(entries)
    && (if allowed then Unpack(entries[7]) == Pinned(ILLEGAL, ILLEGAL, DEVICE) else !Unpack(entries[7]).valid)
  }

  /** The three words that pin a section. */
  lemma SectionWords(va: word, attributes: Attributes)
    requires va % MEGABYTE == 0 && (attributes == KERNEL || attributes == DEVICE)
    ensures var e := WordsOf(va, va, attributes);
            e.va == va + 0x200 && e.pa == va + 0xC3 && e.attributes == if attributes == KERNEL then 0x84 else 0x80
  {
  }

  class Tlb {
    var index: nat
    var entries: Entries

    constructor (entries: Entries)
      ensures this.entries == entries && index == 0
    {
      this.entries, index := entries, 0;
    }

    /** `pin_mmu_sec`; a failed assertion is a panic. */
    method PinMmuSec(idx: nat, va: word, pa: word, attributes: Attributes) returns (ok: bool)
      modifies this
      ensures ok <==> Acceptable(idx, va, pa, attributes)
      ensures ok ==> index == idx && Unpack(entries[idx]) == Pinned(va, pa, attributes)
      ensures ok ==> entries[idx] == WordsOf(va, pa, attributes)
      ensures ok ==> forall i :: 0 <= i < 8 && i != idx ==> entries[i] == old(entries)[i]
      ensures !ok ==> entries == old(entries)
    {
      if !(idx < 8 && va % MEGABYTE == 0 && pa % MEGABYTE == 0 && attributes.domain < 16) {
        return false;
      }
      // lockdown_index_set
      index := idx;
      if attributes.global && attributes.asid != 0 {
        return false;
      }
      PackUnpacks(va, pa, attributes);
      PackedWords(va, pa, attributes);
      entries := entries[index := entries[index].(va := PackVa(va, attributes))];
      entries := entries[index := entries[index].(attributes := PackAttributes(attributes.domain, attributes.memory))];
      entries := entries[index := entries[index].(pa := PackPa(pa, attributes))];
      return true;
    }

    /** One identity mapping; no assertion of `pin_mmu_sec` fires. */
    method PinSection(i: nat, attributes: Attributes)
      requires i < 7 && (attributes == KERNEL || attributes == DEVICE)
      modifies this
      ensures Unpack(entries[i]) == Pinned(SECTIONS[i], SECTIONS[i], attributes)
      ensures entries[i] == Entry(SECTIONS[i] + 0x200, SECTIONS[i] + 0xC3, if attributes == KERNEL then 0x84 else 0x80)
      ensures forall j :: 0 <= j < 8 && j != i ==> entries[j] == old(entries)[j]
    {
      SectionsAligned(i);
      SectionWords(SECTIONS[i], attributes);
      var ok := PinMmuSec(i, SECTIONS[i], SECTIONS[i], attributes);
      assert ok;
    }

    /** The pins of `setup`, which leave the last slot as it was. */
    method Setup()
      modifies this
      ensures SectionsPinned(entries) && entries[7] == old(entries)[7]
      ensures forall i :: 0 <= i < 7 ==>
                entries[i] == Entry(SECTIONS[i] + 0x200, SECTIONS[i] + 0xC3, if i < 4 then 0x84 else 0x80)
      ensures Mapped(entries, false) <==> !Unpack(old(entries)[7]).valid
    {
      PinSection(0, KERNEL);
      PinSection(1, KERNEL);
      PinSection(2, KERNEL);
      PinSection(3, KERNEL);
      PinSection(4, DEVICE);
      PinSection(5, DEVICE);
      PinSection(6, DEVICE);
    }

    method AllowSegmentIllegalAccess() returns (ok: bool)
      modifies this
      ensures ok && Unpack(entries[7]) == Pinned(ILLEGAL, ILLEGAL, DEVICE)
      ensures entries[7] == Entry(0x0A70_0200, 0x0A70_00C3, 0x80)
      ensures forall i :: 0 <= i < 7 ==> entries[i] == old(entries)[i]
      ensures SectionsPinned(old(entries)) ==> Mapped(entries, true)
    {
      ok := PinMmuSec(7, ILLEGAL, ILLEGAL, DEVICE);
    }

    method DisallowSegmentIllegalAccess()
      modifies this
      ensures Unpack(entries[7]) == Unpack(old(entries)[7]).(valid := false)
      ensures var pa := old(entries)[7].pa; entries[7] == old(entries)[7].(pa := pa - pa % 2)
      ensures forall i :: 0 <= i < 7 ==> entries[i] == old(entries)[i]
      ensures SectionsPinned(old(entries)) ==> Mapped(entries, false)
    {
      index := 7;
      var pa := entries[index].pa;
      ClearsValid(entries[index]);
      entries := entries[index := entries[index].(pa := Put(pa, 1, 2, 0))];
    }

    /** Grants and revocations in any order leave the last one in force. */
    method Toggle(grants: seq<bool>, ghost allowed: bool) returns (ok: bool)
      requires Mapped(entries, allowed)
      modifies this
      ensures ok && Mapped(entries, if grants == [] then allowed else grants[|grants| - 1])
    {
      ok := true;
      for i := 0 to |grants|
        invariant ok && Mapped(entries, if i == 0 then allowed else grants[i - 1])
      {
        if grants[i] {
          ok := AllowSegmentIllegalAccess();
        } else {
          DisallowSegmentIllegalAccess();
        }
      }
    }
  }

  // ------------------------------------------------------------- the map

  function Megabyte(a: word): word {
    a - a % MEGABYTE
  }

  /** The megabytes that are mapped. */
  predicate Accessible(a: word, allowed: bool) {
    Megabyte(a) in SECTIONS || (allowed && Megabyte(a) == ILLEGAL)
  }

  lemma MegabyteIs(a: word, section: word)
    requires section % MEGABYTE == 0
    ensures Megabyte(a) == section <==> section <= a < section + MEGABYTE
  {
  }

  /** The ranges of addresses that that makes. */
  lemma AccessibleRanges(a: word, allowed: bool)
    ensures Accessible(a, allowed) <==>
            a < 0x20_0000 || 0x07F0_0000 <= a < 0x0800_0000 || 0x08F0_0000 <= a < 0x0900_0000
            || 0x2000_0000 <= a < 0x2030_0000 || (allowed && 0x0A70_0000 <= a < 0x0A80_0000)
  {
    MegabyteIs(a, 0);
    MegabyteIs(a, 0x0010_0000);
    MegabyteIs(a, 0x07F0_0000);
    MegabyteIs(a, 0x08F0_0000);
    MegabyteIs(a, 0x2000_0000);
    MegabyteIs(a, 0x2010_0000);
    MegabyteIs(a, 0x2020_0000);
    MegabyteIs(a, 0x0A70_0000);
  }

  /** The TLB translates `a` to `b`, through some slot. */
  ghost predicate Maps(entries: Entries, asid: nat, a: word, b: word) {
    exists i :: 0 <= i < 8 && Hits(Unpack(entries[i]), asid, a) && Translate(Unpack(entries[i]), a) == b
  }

  lemma SectionsAligned(i: nat)
    requires i < 7
    ensures Megabyte(SECTIONS[i]) == SECTIONS[i]
  {
  }

  ghost predicate Section(m: Mapping, section: word) {
    m.valid && m.global && m.va == section && m.pa == section && PageSize(m.size) == MEGABYTE
    && Megabyte(section) == section
  }

  lemma SectionHits(m: Mapping, section: word, asid: nat, a: word)
    requires Section(m, section)
    ensures Hits(m, asid, a) <==> Megabyte(a) == section
  {
  }

  lemma SectionIsIdentity(m: Mapping, section: word, a: word)
    requires Section(m, section) && Megabyte(a) == section
    ensures Translate(m, a) == a
  {
  }

  /** Which slot hits is decided by the megabyte, whatever the address space. */
  lemma SlotHits(entries: Entries, allowed: bool, asid: nat, a: word, i: nat)
    requires Mapped(entries, allowed) && i < 8
    ensures Hits(Unpack(entries[i]), asid, a)
            <==> if i < 7 then Megabyte(a) == SECTIONS[i] else allowed && Megabyte(a) == ILLEGAL
    ensures Hits(Unpack(entries[i]), asid, a) ==> Translate(Unpack(entries[i]), a) == a
  {
    if i < 7 {
      SectionsAligned(i);
      SectionHits(Unpack(entries[i]), SECTIONS[i], asid, a);
      if Megabyte(a) == SECTIONS[i] {
        SectionIsIdentity(Unpack(entries[i]), SECTIONS[i], a);
      }
    } else if allowed {
      SectionHits(Unpack(entries[i]), ILLEGAL, asid, a);
      if Megabyte(a) == ILLEGAL {
        SectionIsIdentity(Unpack(entries[i]), ILLEGAL, a);
      }
    }
  }

  lemma SectionsDistinct(i: nat, j: nat)
    requires i < 7 && j < 7
    ensures SECTIONS[i] == SECTIONS[j] ==> i == j
    ensures SECTIONS[i] != ILLEGAL
  {
  }

  /** No address hits two slots. */
  lemma HitsAtMostOnce(entries: Entries, allowed: bool, asid: nat, a: word, i: nat, j: nat)
    requires Mapped(entries, allowed) && i < 8 && j < 8
    requires Hits(Unpack(entries[i]), asid, a) && Hits(Unpack(entries[j]), asid, a)
    ensures i == j
  {
    SlotHits(entries, allowed, asid, a, i);
    SlotHits(entries, allowed, asid, a, j);
    SectionsDistinct(if i < 7 then i else 0, if j < 7 then j else 0);
  }

  /** The bit-packed entries are the identity on exactly the accessible megabytes. */
  lemma MapsIdentically(entries: Entries, allowed: bool, asid: nat, a: word, b: word)
    requires Mapped(entries, allowed)
    ensures Maps(entries, asid, a, b) <==> b == a && Accessible(a, allowed)
  {
    forall i | 0 <= i < 8
      ensures Hits(Unpack(entries[i]), asid, a)
              <==> if i < 7 then Megabyte(a) == SECTIONS[i] else allowed && Megabyte(a) == ILLEGAL
      ensures Hits(Unpack(entries[i]), asid, a) ==> Translate(Unpack(entries[i]), a) == a
    {
      SlotHits(entries, allowed, asid, a, i);
    }
    if b == a && Accessible(a, allowed) {
      if i :| 0 <= i < 7 && Megabyte(a) == SECTIONS[i] {
        assert Hits(Unpack(entries[i]), asid, a);
      } else {
        assert Hits(Unpack(entries[7]), asid, a);
      }
    }
  }
}
