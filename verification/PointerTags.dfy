/**
 External pointer type tags: eight type bits, of which exactly four are set, and a mark bit.
 A pointer is stored with its tag bits set, and read by clearing the bits of the expected tag.
 */
module PointerTags {

  const MARK_BIT: bv64 := 1 << 62
  const TAG_MASK: bv64 := 0x40ff_0000_0000_0000
  const TYPE_BITS: bv64 := 0x00ff_0000_0000_0000

  // kAllExternalPointerTypeTags.
  const TAGS_0: seq<bv8> := [0x0f, 0x17, 0x1b, 0x1d, 0x1e, 0x27, 0x2b, 0x2d, 0x2e, 0x33, 0x35, 0x36, 0x39, 0x3a]
  const TAGS_1: seq<bv8> := [0x3c, 0x47, 0x4b, 0x4d, 0x4e, 0x53, 0x55, 0x56, 0x59, 0x5a, 0x5c, 0x63, 0x65, 0x66]
  const TAGS_2: seq<bv8> := [0x69, 0x6a, 0x6c, 0x71, 0x72, 0x74, 0x78, 0x87, 0x8b, 0x8d, 0x8e, 0x93, 0x95, 0x96]
  const TAGS_3: seq<bv8> := [0x99, 0x9a, 0x9c, 0xa3, 0xa5, 0xa6, 0xa9, 0xaa, 0xac, 0xb1, 0xb2, 0xb4, 0xb8, 0xc3]
  const TAGS_4: seq<bv8> := [0xc5, 0xc6, 0xc9, 0xca, 0xcc, 0xd1, 0xd2, 0xd4, 0xd8, 0xe1, 0xe2, 0xe4, 0xe8, 0xf0]
  const TYPE_TAGS: seq<bv8> := TAGS_0 + TAGS_1 + TAGS_2 + TAGS_3 + TAGS_4

  function MakeTag(mark: bool, t: bv8): bv64 {
    ((t as bv64) << 48) | (if mark then MARK_BIT else 0)
  }

  const FREE_ENTRY_TAG := MakeTag(false, 0xff)
  const EVACUATION_ENTRY_TAG := MakeTag(true, 0xe7)
  const ANY_TAG := MakeTag(true, 0xff)

  // ReadExternalPointerField: the entry without the bits of the tag.
  function Untag(entry: bv64, tag: bv64): bv64 {
    entry & !tag
  }

  /* Bits. */

  // The number of ones, for any width.
  function Count(s: seq<bool>): nat {
    if s == [] then 0 else Count(s[..|s| - 1]) + if s[|s| - 1] then 1 else 0
  }

  lemma {:induction false} CountLess(a: seq<bool>, b: seq<bool>)
    requires |a| == |b| && forall i :: 0 <= i < |a| && a[i] ==> b[i]
    ensures Count(a) <= Count(b)
    ensures Count(a) == Count(b) ==> a == b
  {
    if a != [] {
      var n := |a| - 1;
      CountLess(a[..n], b[..n]);
      assert a == a[..n] + [a[n]] && b == b[..n] + [b[n]];
    }
  }

  /** Of two different bit strings with equally many ones, each has a one where the other has none. */
  lemma EqualCounts(a: seq<bool>, b: seq<bool>)
    requires |a| == |b| && Count(a) == Count(b) && a != b
    ensures exists i :: 0 <= i < |a| && a[i] && !b[i]
  {
    if forall i :: 0 <= i < |a| && a[i] ==> b[i] {
      CountLess(a, b);
    }
  }

  function Bits(t: bv8): seq<bool> {
    [t & 1 != 0, t & 2 != 0, t & 4 != 0, t & 8 != 0, t & 16 != 0, t & 32 != 0, t & 64 != 0, t & 128 != 0]
  }

  function Popcount(t: bv8): nat {
    Count(Bits(t))
  }

  lemma SameBits(a: bv8, b: bv8)
    requires Bits(a) == Bits(b)
    ensures a == b
  {
  }

  lemma BitLeft(a: bv8, b: bv8, i: nat)
    requires i < 8 && Bits(a)[i] && !Bits(b)[i]
    ensures a & !b != 0
  {
  }

  /** Of two different tags with equally many bits, each has a bit that the other lacks. */
  lemma EqualPopcount(a: bv8, b: bv8)
    requires Popcount(a) == Popcount(b) && a != b
    ensures a & !b != 0
  {
    if Bits(a) == Bits(b) {
      SameBits(a, b);
    }
    EqualCounts(Bits(a), Bits(b));
    var i :| 0 <= i < 8 && Bits(a)[i] && !Bits(b)[i];
    BitLeft(a, b, i);
  }

  /* Stored pointers. */

  /** The pointer comes back with the tag it was stored with, whether or not the entry is marked. */
  lemma UntagStored(p: bv64, t: bv8, mark: bool)
    requires p & TAG_MASK == 0
    ensures Untag(p | MakeTag(mark, t), MakeTag(true, t)) == p
    ensures Untag(p | MakeTag(mark, t), ANY_TAG) == p
  {
  }

  // Type bits of the stored tag that the expected tag lacks are still set after untagging.
  lemma BitsRemain(p: bv64, a: bv8, b: bv8, mark: bool)
    requires p & TAG_MASK == 0 && a & !b != 0
    ensures Untag(p | MakeTag(mark, a), MakeTag(true, b)) & TYPE_BITS != 0
  {
  }

  /** With any other tag of the table, a type bit is still set: the result is no canonical pointer. */
  lemma UntagOther(p: bv64, a: bv8, b: bv8, mark: bool)
    requires p & TAG_MASK == 0 && a in TYPE_TAGS && b in TYPE_TAGS && a != b
    ensures Untag(p | MakeTag(mark, a), MakeTag(true, b)) & TYPE_BITS != 0
  {
    InTable(a);
    InTable(b);
    EqualPopcount(a, b);
    BitsRemain(p, a, b, mark);
  }

  /** Neither a free nor an evacuation entry reads as a pointer, under any tag of the table. */
  lemma UntagSpecial(p: bv64, b: bv8)
    requires p & TAG_MASK == 0 && b in TYPE_TAGS
    ensures Untag(p | FREE_ENTRY_TAG, MakeTag(true, b)) & TYPE_BITS != 0
    ensures Untag(p | EVACUATION_ENTRY_TAG, MakeTag(true, b)) & TYPE_BITS != 0
  {
    InTable(b);
    FourBits(b);
    BitsRemain(p, 0xff, b, false);
    BitsRemain(p, 0xe7, b, true);
  }

  /* The table. */

  // The sum of the bits, as a machine computes it.
  function BitSum(t: bv8): bv8 {
    (t & 1) + ((t >> 1) & 1) + ((t >> 2) & 1) + ((t >> 3) & 1) + ((t >> 4) & 1) + ((t >> 5) & 1) + ((t >> 6) & 1) + ((t >> 7) & 1)
  }

  function One(b: bool): nat {
    if b then 1 else 0
  }

  lemma CountLast(s: seq<bool>, b: bool)
    ensures Count(s + [b]) == Count(s) + One(b)
  {
  }

  lemma {:induction false} CountConcat(s: seq<bool>, t: seq<bool>)
    ensures Count(s + t) == Count(s) + Count(t)
  {
    if t == [] {
      assert s + t == s;
    } else {
      var n := |t| - 1;
      CountConcat(s, t[..n]);
      CountLast(s + t[..n], t[n]);
      assert s + t[..n] + [t[n]] == s + t;
    }
  }

  lemma CountTwo(a: bool, b: bool)
    ensures Count([a, b]) == One(a) + One(b)
  {
    CountLast([], a);
    assert [] + [a] == [a];
    CountLast([a], b);
    assert [a] + [b] == [a, b];
  }

  lemma CountFour(a: bool, b: bool, c: bool, d: bool)
    ensures Count([a, b, c, d]) == One(a) + One(b) + One(c) + One(d)
  {
    CountTwo(a, b);
    CountTwo(c, d);
    CountConcat([a, b], [c, d]);
    assert [a, b] + [c, d] == [a, b, c, d];
  }

  lemma CountEight(a: bool, b: bool, c: bool, d: bool, e: bool, f: bool, g: bool, h: bool)
    ensures Count([a, b, c, d, e, f, g, h]) == One(a) + One(b) + One(c) + One(d) + One(e) + One(f) + One(g) + One(h)
  {
    assert [a, b, c, d, e, f, g, h] == [a, b, c, d] + [e, f, g, h];
    CountConcat([a, b, c, d], [e, f, g, h]);
    CountFour(a, b, c, d);
    CountFour(e, f, g, h);
  }

  lemma PopcountIsSum(t: bv8)
    ensures BitSum(t) == 4 <==> Popcount(t) == 4
  {
    CountEight(t & 1 != 0, t & 2 != 0, t & 4 != 0, t & 8 != 0, t & 16 != 0, t & 32 != 0, t & 64 != 0, t & 128 != 0);
  }

  lemma FourBits(t: bv8)
    requires Popcount(t) == 4
    ensures 0xff & !t != 0 && 0xe7 & !t != 0
  {
    PopcountIsSum(t);
  }

  // The table is sorted, so each part of it is a range.
  lemma Part0(t: bv8)
    ensures t in TAGS_0 <==> BitSum(t) == 4 && 0x0f <= t <= 0x3a
  {
  }

  lemma Part1(t: bv8)
    ensures t in TAGS_1 <==> BitSum(t) == 4 && 0x3c <= t <= 0x66
  {
  }

  lemma Part2(t: bv8)
    ensures t in TAGS_2 <==> BitSum(t) == 4 && 0x69 <= t <= 0x96
  {
  }

  lemma Part3(t: bv8)
    ensures t in TAGS_3 <==> BitSum(t) == 4 && 0x99 <= t <= 0xc3
  {
  }

  lemma Part4(t: bv8)
    ensures t in TAGS_4 <==> BitSum(t) == 4 && 0xc5 <= t <= 0xf0
  {
  }

  lemma SumInTable(t: bv8)
    ensures t in TYPE_TAGS <==> BitSum(t) == 4
  {
    Part0(t);
    Part1(t);
    Part2(t);
    Part3(t);
    Part4(t);
  }

  /** The table lists all type tags with four bits set, and no others. */
  lemma InTable(t: bv8)
    ensures t in TYPE_TAGS <==> Popcount(t) == 4
  {
    SumInTable(t);
    PopcountIsSum(t);
  }

  // kFirstSharedTag and kLastSharedTag are the tags with index 0 and 2.
  predicate IsSharedExternalPointerType(tag: bv64) {
    MakeTag(true, TAGS_0[0]) <= tag <= MakeTag(true, TAGS_0[2])
  }

  /** The range check picks out the first three tags of the table, and no other. */
  lemma SharedTags(t: bv8)
    requires t in TYPE_TAGS
    ensures IsSharedExternalPointerType(MakeTag(true, t)) <==> t in TAGS_0[..3]
  {
    SumInTable(t);
    assert TAGS_0[..3] == [0x0f, 0x17, 0x1b];
  }
}
