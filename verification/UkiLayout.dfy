/**
 Placement of added sections in a unified kernel image: every section goes to the next 2 MiB boundary.
 Addresses are Python integers; the bit masks are modelled bit by bit.
 */
module UkiLayout {
  const SHIFT: nat := 21
  const ALIGNMENT: nat := 0x20_0000
  const MASK: nat := 0x1F_FFFF
  const ADDRESS_MAX: nat := 0xFFFF_FFFF_FFFF_FFFF

  // ---------------------------------------------------------------- masks

  /** `x & ~mask` for a non-negative `x`. */
  function AndNot(x: nat, mask: nat): nat {
    if x == 0 then 0
    else 2 * AndNot(x / 2, mask / 2) + if x % 2 == 1 && mask % 2 == 0 then 1 else 0
  }

  function Power2(n: nat): (p: nat)
    ensures p > 0
  {
    if n == 0 then 1 else 2 * Power2(n - 1)
  }

  lemma {:induction false} AndNotZero(x: nat)
    ensures AndNot(x, 0) == x
  {
    if x != 0 {
      AndNotZero(x / 2);
    }
  }

  lemma HalfOfRest(x: nat, p: nat)
    requires p > 0
    ensures x % (2 * p) == 2 * (x / 2 % p) + x % 2
  {
    var q, r := x / 2 / p, x / 2 % p;
    assert x / 2 == p * q + r;
    assert x == 2 * p * q + (2 * r + x % 2);
    RestIsUnique(x, 2 * p, q, 2 * r + x % 2);
  }

  lemma MultipleIsBig(d: int, k: int)
    requires d > 0 && k != 0
    ensures d * k >= d || d * k <= -d
  {}

  lemma RestIsUnique(x: int, d: int, q: int, r: int)
    requires d > 0 && 0 <= r < d && x == d * q + r
    ensures x / d == q && x % d == r
  {
    var k := x / d - q;
    assert d * k == r - x % d;
    if k != 0 {
      MultipleIsBig(d, k);
    }
  }

  /** Clearing the low `n` bits subtracts the remainder. */
  lemma {:induction false} AndNotClears(x: nat, n: nat)
    ensures AndNot(x, Power2(n) - 1) == x - x % Power2(n)
  {
    if n == 0 {
      AndNotZero(x);
    } else if x != 0 {
      AndNotClears(x / 2, n - 1);
      HalfOfRest(x, Power2(n - 1));
      assert (Power2(n) - 1) / 2 == Power2(n - 1) - 1 && (Power2(n) - 1) % 2 == 1;
    }
  }

  lemma AlignmentIsPower()
    ensures Power2(SHIFT) == ALIGNMENT && ALIGNMENT - 1 == MASK
  {
    assert Power2(5) == 32 && Power2(10) == 1024;
    assert Power2(15) == 32768 && Power2(20) == 1048576;
  }

  /** `x & ~alignment_mask` rounds down to a boundary. */
  lemma MaskRoundsDown(x: nat)
    ensures AndNot(x, MASK) == x - x % ALIGNMENT
  {
    AlignmentIsPower();
    AndNotClears(x, SHIFT);
  }

  // ---------------------------------------------------------------- rounding

  predicate Aligned(a: nat) {
    a % ALIGNMENT == 0
  }

  /** `a` is the least aligned address at or above `f`. */
  ghost predicate IsNext(f: nat, a: nat) {
    Aligned(a) && f <= a && forall b: nat | Aligned(b) && f <= b :: a <= b
  }

  /** `round_to_next`, or nothing when it aborts. */
  function RoundToNext(f: nat): (r: (bool, nat)) {
    if f > AndNot(ADDRESS_MAX, MASK) then (false, 0) else (true, AndNot(f + MASK, MASK))
  }

  lemma LeastMultiple(f: nat, a: nat)
    requires Aligned(a) && f <= a < f + ALIGNMENT
    ensures IsNext(f, a)
  {
    forall b: nat | Aligned(b) && f <= b ensures a <= b {
      assert a == ALIGNMENT * (a / ALIGNMENT) && b == ALIGNMENT * (b / ALIGNMENT);
    }
  }

  /** It aborts exactly above the last 64-bit boundary, and otherwise is the least boundary, still in 64 bits. */
  lemma RoundToNextIsLeast(f: nat)
    ensures RoundToNext(f).0 <==> f <= 0x1_0000_0000_0000_0000 - ALIGNMENT
    ensures RoundToNext(f).0 ==> && IsNext(f, RoundToNext(f).1)
                                 && RoundToNext(f).1 < f + ALIGNMENT
                                 && RoundToNext(f).1 <= 0x1_0000_0000_0000_0000 - ALIGNMENT
  {
    hide AndNot;
    LastBoundary();
    MaskRoundsDown(f + MASK);
    RoundedUp(f);
  }

  lemma LastBoundary()
    ensures AndNot(ADDRESS_MAX, MASK) == 0x1_0000_0000_0000_0000 - ALIGNMENT
  {
    MaskRoundsDown(ADDRESS_MAX);
    RestIsUnique(ADDRESS_MAX, ALIGNMENT, 0x800_0000_0000 - 1, MASK);
  }

  lemma RoundedUp(f: nat)
    ensures var a := f + MASK - (f + MASK) % ALIGNMENT;
            IsNext(f, a) && a < f + ALIGNMENT
            && (f <= 0x1_0000_0000_0000_0000 - ALIGNMENT ==> a <= 0x1_0000_0000_0000_0000 - ALIGNMENT)
  {
    var a := f + MASK - (f + MASK) % ALIGNMENT;
    assert a == ALIGNMENT * ((f + MASK) / ALIGNMENT);
    RestIsUnique(a, ALIGNMENT, (f + MASK) / ALIGNMENT, 0);
    LeastMultiple(f, a);
    if f <= 0x1_0000_0000_0000_0000 - ALIGNMENT {
      RestIsUnique(0x1_0000_0000_0000_0000 - ALIGNMENT, ALIGNMENT, 0x800_0000_0000 - 1, 0);
    }
  }

  // ---------------------------------------------------------------- adding sections

  datatype Section = Section(start: nat, size: nat)

  class SectionAdder {
    var address: nat
    var sections: seq<Section>

    constructor (base: nat)
      ensures address == base && sections == []
    {
      address := base;
      sections := [];
    }

    /** `add_section`; not `ok` means the program has been left with an error. */
    method AddSection(size: nat) returns (ok: bool)
      modifies this
      ensures ok == RoundToNext(old(address)).0
      ensures ok ==> && sections == old(sections) + [Section(RoundToNext(old(address)).1, size)]
                     && address == RoundToNext(old(address)).1 + size
      ensures !ok ==> sections == old(sections) && address == old(address)
    {
      var next := RoundToNext(address);
      if !next.0 {
        return false;
      }
      sections := sections + [Section(next.1, size)];
      address := next.1 + size;
      ok := true;
    }

    /** The configuration, the custom sections, the kernel and the ramdisk, in this order. */
    method AddAll(base: nat, config: nat, custom: seq<nat>, kernel: nat, ramdisk: nat) returns (ok: bool)
      requires address == base && sections == []
      modifies this
      ensures ok ==> Laid(base, [config] + custom + [kernel, ramdisk], sections, address)
      ensures !ok ==> exists n :: 0 <= n < |custom| + 3 && Laid(base, ([config] + custom + [kernel, ramdisk])[..n], sections, address)
                                  && address > 0x1_0000_0000_0000_0000 - ALIGNMENT
    {
      var sizes := [config] + custom + [kernel, ramdisk];
      for i := 0 to |sizes|
        invariant Laid(base, sizes[..i], sections, address)
      {
        RoundToNextIsLeast(address);
        ghost var before := sections;
        ok := AddSection(sizes[i]);
        if !ok {
          return;
        }
        assert sizes[..i + 1][..i] == sizes[..i] && sections[..i] == before;
      }
      assert sizes[..|sizes|] == sizes;
      ok := true;
    }
  }

  /** A 64-bit boundary at or above `before`, less than one alignment unit away; there is only one. */
  predicate Fits(before: nat, start: nat) {
    Aligned(start) && before <= start < before + ALIGNMENT && start <= 0x1_0000_0000_0000_0000 - ALIGNMENT
  }

  /** Sections of these sizes, each at the next boundary after the end of the one before. */
  ghost predicate Laid(base: nat, sizes: seq<nat>, sections: seq<Section>, end: nat) {
    && |sections| == |sizes|
    && if sizes == [] then end == base
       else
         var n := |sizes| - 1;
         && sections[n].size == sizes[n] && end == sections[n].start + sizes[n]
         && exists before: nat :: Laid(base, sizes[..n], sections[..n], before) && Fits(before, sections[n].start)
  }

  ghost function EndBefore(base: nat, sections: seq<Section>, i: nat): nat
    requires i <= |sections|
  {
    if i == 0 then base else sections[i - 1].start + sections[i - 1].size
  }

  ghost predicate Placed(base: nat, sections: seq<Section>, i: nat)
    requires i < |sections|
  {
    Fits(EndBefore(base, sections, i), sections[i].start)
  }

  lemma {:induction false} AllPlaced(base: nat, sizes: seq<nat>, sections: seq<Section>, end: nat)
    requires Laid(base, sizes, sections, end)
    ensures |sections| == |sizes| && end == EndBefore(base, sections, |sections|)
    ensures forall i | 0 <= i < |sections| :: sections[i].size == sizes[i] && Placed(base, sections, i)
  {
    if sizes != [] {
      var n := |sizes| - 1;
      var before: nat :| Laid(base, sizes[..n], sections[..n], before) && Fits(before, sections[n].start);
      AllPlaced(base, sizes[..n], sections[..n], before);
      forall i | 0 <= i < n ensures sections[i].size == sizes[i] && Placed(base, sections, i) {
        assert sections[..n][i] == sections[i] && Placed(base, sections[..n], i);
      }
    }
  }

  lemma {:induction false} EndsGrow(base: nat, sections: seq<Section>, i: nat, j: nat)
    requires i <= j <= |sections| && forall k | 0 <= k < |sections| :: Placed(base, sections, k)
    ensures EndBefore(base, sections, i) <= EndBefore(base, sections, j)
    decreases j
  {
    if i < j {
      EndsGrow(base, sections, i, j - 1);
      assert Placed(base, sections, j - 1);
    }
  }

  lemma InOrder(base: nat, sections: seq<Section>, i: nat, j: nat)
    requires i < j < |sections| && forall k | 0 <= k < |sections| :: Placed(base, sections, k)
    ensures sections[i].start + sections[i].size <= sections[j].start
  {
    EndsGrow(base, sections, i + 1, j);
    assert Placed(base, sections, j);
  }

  lemma AboveBase(base: nat, sections: seq<Section>, i: nat)
    requires i < |sections| && forall k | 0 <= k < |sections| :: Placed(base, sections, k)
    ensures base <= sections[i].start
  {
    EndsGrow(base, sections, 0, i);
    assert Placed(base, sections, i);
  }

  /**
   Sections have the given sizes, aligned 64-bit starts at or above the base, follow one another without
   overlap, and leave less than one alignment unit unused before each.
   */
  lemma Layout(base: nat, sizes: seq<nat>, sections: seq<Section>, end: nat)
    requires Laid(base, sizes, sections, end)
    ensures |sections| == |sizes|
    ensures forall i | 0 <= i < |sections| ::
              sections[i].size == sizes[i] && Placed(base, sections, i) && base <= sections[i].start
    ensures forall i, j | 0 <= i < j < |sections| :: sections[i].start + sections[i].size <= sections[j].start
  {
    AllPlaced(base, sizes, sections, end);
    forall i | 0 <= i < |sections| ensures base <= sections[i].start {
      AboveBase(base, sections, i);
    }
    forall i, j | 0 <= i < j < |sections| ensures sections[i].start + sections[i].size <= sections[j].start {
      InOrder(base, sections, i, j);
    }
  }

  // ---------------------------------------------------------------- the sections already there

  function Base(existing: seq<Section>): nat {
    if existing == [] then 0
    else
      var last := existing[|existing| - 1];
      var rest := Base(existing[..|existing| - 1]);
      var bigger := if last.size < last.start then last.start else last.size;
      if rest < bigger then bigger else rest
  }

  /** The base is at or above every start and every size, but not necessarily every end. */
  lemma {:induction false} BaseBounds(existing: seq<Section>)
    ensures forall s | s in existing :: s.start <= Base(existing) && s.size <= Base(existing)
  {
    if existing != [] {
      BaseBounds(existing[..|existing| - 1]);
      forall s | s in existing ensures s.start <= Base(existing) && s.size <= Base(existing) {
        var i :| 0 <= i < |existing| && existing[i] == s;
        if i < |existing| - 1 {
          assert existing[..|existing| - 1][i] == s;
        }
      }
    }
  }

  /** And it is one of them, or 0 without any section: the largest start or size. */
  lemma {:induction false} BaseIsAttained(existing: seq<Section>)
    ensures existing == [] ==> Base(existing) == 0
    ensures existing != [] ==> exists s :: s in existing && (s.start == Base(existing) || s.size == Base(existing))
  {
    if existing != [] {
      var n := |existing| - 1;
      BaseIsAttained(existing[..n]);
      BaseBounds(existing);
      assert existing[n] in existing;
      if n > 0 && Base(existing) == Base(existing[..n]) {
        var s :| s in existing[..n] && (s.start == Base(existing[..n]) || s.size == Base(existing[..n]));
        assert s in existing;
      }
    }
  }

  predicate Overlap(a: Section, b: Section) {
    a.start < b.start + b.size && b.start < a.start + a.size
  }

  /**
   The added sections stay clear of those already there exactly if no present section reaches past the
   start of an added non-empty one.
   */
  lemma ClearOfExistingIff(existing: seq<Section>, sizes: seq<nat>, sections: seq<Section>, end: nat)
    requires Laid(Base(existing), sizes, sections, end)
    ensures (forall s, a | s in existing && a in sections && s.size > 0 && a.size > 0 :: !Overlap(s, a))
            <==> forall s, a | s in existing && a in sections && s.size > 0 && a.size > 0 :: s.start + s.size <= a.start
  {
    forall s, a | s in existing && a in sections
      ensures s.start <= a.start
    {
      AddedIsHigher(existing, sizes, sections, end, s, a);
    }
  }

  lemma AddedIsHigher(existing: seq<Section>, sizes: seq<nat>, sections: seq<Section>, end: nat, s: Section, a: Section)
    requires Laid(Base(existing), sizes, sections, end) && s in existing && a in sections
    ensures s.start <= a.start
  {
    Layout(Base(existing), sizes, sections, end);
    BaseBounds(existing);
    var i :| 0 <= i < |sections| && sections[i] == a;
  }

  /** There is only one place where a section fits. */
  lemma FitsIsRounded(before: nat, start: nat)
    requires Fits(before, start)
    ensures RoundToNext(before) == (true, start)
  {
    hide AndNot, RoundToNext, Aligned;
    LeastMultiple(before, start);
    RoundToNextIsLeast(before);
  }

  lemma FirstStart(base: nat, sizes: seq<nat>, sections: seq<Section>, end: nat)
    requires Laid(base, sizes, sections, end) && sizes != []
    ensures sections != [] && sections[0].size == sizes[0]
    ensures RoundToNext(base) == (true, sections[0].start)
    ensures forall a | a in sections :: sections[0].start <= a.start
  {
    Layout(base, sizes, sections, end);
    hide RoundToNext, Laid, Fits;
    assert Placed(base, sections, 0);
    FitsIsRounded(base, sections[0].start);
    forall a | a in sections ensures sections[0].start <= a.start {
      var i :| 0 <= i < |sections| && sections[i] == a;
    }
  }

  /** So with a non-empty configuration they do exactly if every present section ends at or below the rounded base. */
  lemma ClearIffBaseIsHighEnough(existing: seq<Section>, sizes: seq<nat>, sections: seq<Section>, end: nat)
    requires Laid(Base(existing), sizes, sections, end) && sizes != [] && sizes[0] > 0
    ensures (forall s, a | s in existing && a in sections && s.size > 0 && a.size > 0 :: !Overlap(s, a))
            <==> forall s | s in existing && s.size > 0 :: s.start + s.size <= RoundToNext(Base(existing)).1
  {
    hide RoundToNext, Base, Laid;
    ClearOfExistingIff(existing, sizes, sections, end);
    FirstStart(Base(existing), sizes, sections, end);
    assert sections[0] in sections;
  }

  /** A present section at a boundary, not larger than its start, is overlapped by the configuration. */
  lemma LargeSectionIsOverlapped(start: nat, size: nat, config: nat, sections: seq<Section>, end: nat)
    requires ALIGNMENT <= start && Aligned(start) && 0 < size <= start && 0 < config
    requires Laid(Base([Section(start, size)]), [config], sections, end)
    ensures sections == [Section(start, config)]
    ensures Overlap(Section(start, size), sections[0])
  {
    assert [Section(start, size)][..0] == [];
    assert Base([Section(start, size)]) == start;
    assert [config][..0] == [] && sections[..0] == [];
    Layout(start, [config], sections, end);
    LeastMultiple(start, sections[0].start);
  }
}
