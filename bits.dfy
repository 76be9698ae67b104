/** Bit-field helpers of the platform utilities (no_os_find_first_set_bit,
    no_os_field_prep, no_os_field_get) for masks that fit in one byte, which is every
    mask whose value this model leaves open. Their definitions live in a utility header
    that is not part of this model; they are written here as the usual shift-and-mask
    macros and proved to round-trip. */
module Bits {

  /** Position of the lowest set bit of a non-zero mask. */
  function LowestSetBit(mask: bv8): (s: bv8)
    requires mask != 0
    ensures s < 8
    ensures (mask >> s) & 1 == 1
    ensures mask & ((1 << s) - 1) == 0
  {
    if mask & 0x01 != 0 then 0
    else if mask & 0x02 != 0 then 1
    else if mask & 0x04 != 0 then 2
    else if mask & 0x08 != 0 then 3
    else if mask & 0x10 != 0 then 4
    else if mask & 0x20 != 0 then 5
    else if mask & 0x40 != 0 then 6
    else 7
  }

  /** no_os_field_prep: `val` shifted into the field `mask`; bits of `val` beyond the
      field's width are dropped. */
  function FieldPrep(mask: bv8, val: bv8): (r: bv8)
    requires mask != 0
    ensures r & !mask == 0
  {
    (val << LowestSetBit(mask)) & mask
  }

  /** The values a field can hold: its mask shifted down to bit 0. */
  function Span(mask: bv8): bv8
    requires mask != 0
  {
    mask >> LowestSetBit(mask)
  }

  /** no_os_field_get: the field `mask` of `word`, shifted down to bit 0. */
  function FieldGet(mask: bv8, word: bv8): (r: bv8)
    requires mask != 0
    ensures r & !Span(mask) == 0
  {
    (word & mask) >> LowestSetBit(mask)
  }

  /** Getting a field back after preparing it yields the value, cut to the field's width. */
  lemma GetPrep(mask: bv8, val: bv8)
    requires mask != 0
    ensures FieldGet(mask, FieldPrep(mask, val)) == val & Span(mask)
  {
    ShiftMaskRoundTrip(mask, val, LowestSetBit(mask));
  }

  lemma ShiftMaskRoundTrip(mask: bv8, val: bv8, s: bv8)
    requires s < 8 && mask & ((1 << s) - 1) == 0
    ensures ((val << s) & mask) >> s == val & (mask >> s)
  {
  }

  /** Preparing a field read from a word rebuilds exactly that word's bits inside the field. */
  lemma PrepGet(mask: bv8, word: bv8)
    requires mask != 0
    ensures FieldPrep(mask, FieldGet(mask, word)) == word & mask
  {
    var s := LowestSetBit(mask);
    ShiftDownUp(word & mask, s);
  }

  lemma ShiftDownUp(x: bv8, s: bv8)
    requires s < 8 && x & ((1 << s) - 1) == 0
    ensures (x >> s) << s == x
  {
  }

  /** Preparing zero gives zero. */
  lemma PrepZero(mask: bv8)
    requires mask != 0
    ensures FieldPrep(mask, 0) == 0
  {
  }

  /** A field prepared inside one mask reads as zero through a disjoint mask. */
  lemma DisjointFieldIsZero(m: bv8, other: bv8, x: bv8)
    requires m != 0 && other != 0 && m & other == 0
    ensures FieldGet(m, FieldPrep(other, x)) == 0
  {
    var y := FieldPrep(other, x);
    assert y & m == 0 by {
      PrepOutside(m, other, x);
    }
  }

  /** A field prepared from a non-zero value that fits the field is non-zero. */
  lemma PrepNonZero(mask: bv8, val: bv8)
    requires mask != 0 && val != 0
    requires val & !Span(mask) == 0
    ensures FieldPrep(mask, val) != 0
  {
    GetPrep(mask, val);
  }

  /** Reading a field ignores bits set outside it. */
  lemma GetIgnoresOutside(m: bv8, a: bv8, w: bv8)
    requires m != 0 && a & m == 0
    ensures FieldGet(m, a | w) == FieldGet(m, w)
  {
    assert (a | w) & m == w & m;
  }

  /** Reading a field ignores bits set outside it, whichever side they are added on. */
  lemma GetIgnoresOutsideRight(m: bv8, w: bv8, a: bv8)
    requires m != 0 && a & m == 0
    ensures FieldGet(m, w | a) == FieldGet(m, w)
  {
    assert (w | a) & m == w & m;
  }

  /** A field prepared inside one mask has no bits inside a disjoint mask. */
  lemma PrepOutside(m: bv8, other: bv8, x: bv8)
    requires other != 0 && m & other == 0
    ensures FieldPrep(other, x) & m == 0
  {
    var y := FieldPrep(other, x);
    assert y & !other == 0;
  }

  /** The first field of a word built from two disjoint prepared fields reads back as the
      value it was prepared from, cut to the field's width. */
  lemma GetFirstOfTwo(m: bv8, other: bv8, x: bv8, y: bv8)
    requires m != 0 && other != 0 && m & other == 0
    ensures FieldGet(m, FieldPrep(m, x) | FieldPrep(other, y)) == x & Span(m)
  {
    var w, a := FieldPrep(m, x), FieldPrep(other, y);
    assert FieldGet(m, w | a) == FieldGet(m, w) by {
      PrepOutside(m, other, y);
      GetIgnoresOutsideRight(m, w, a);
    }
    assert FieldGet(m, w) == x & Span(m) by {
      GetPrep(m, x);
    }
  }

  /** The second field of such a word reads back likewise. */
  lemma GetSecondOfTwo(m: bv8, other: bv8, x: bv8, y: bv8)
    requires m != 0 && other != 0 && m & other == 0
    ensures FieldGet(other, FieldPrep(m, x) | FieldPrep(other, y)) == y & Span(other)
  {
    PrepOutside(other, m, x);
    GetIgnoresOutside(other, FieldPrep(m, x), FieldPrep(other, y));
    GetPrep(other, y);
  }

  /** A field prepared from 0 reads back as 0 from such a word. */
  lemma GetSecondOfTwoZero(m: bv8, other: bv8, x: bv8)
    requires m != 0 && other != 0 && m & other == 0
    ensures FieldGet(other, FieldPrep(m, x) | FieldPrep(other, 0)) == 0
  {
    GetSecondOfTwo(m, other, x, 0);
  }

  /** A field prepared from 1 reads back as 1 from such a word. */
  lemma GetSecondOfTwoOne(m: bv8, other: bv8, x: bv8)
    requires m != 0 && other != 0 && m & other == 0
    ensures FieldGet(other, FieldPrep(m, x) | FieldPrep(other, 1)) == 1
  {
    GetSecondOfTwo(m, other, x, 1);
    OneFits(other);
  }

  /** The value 1 fits every non-empty field. */
  lemma OneFits(m: bv8)
    requires m != 0
    ensures 1 & Span(m) == 1
  {
    var s := LowestSetBit(m);
    assert (m >> s) & 1 == 1;
  }
}
