/**
 Small integers as tagged words, in both widths.
 */
module Smi {
  import opened Words

  // Tag bit plus shift: 1 for 31-bit values, 32 for 32-bit values.
  function Scale(c: Config): nat {
    if c.smi31 then 2 else TWO32
  }

  // kUintptrAllBitsSet << (kSmiValueSize - 1), as a signed word.
  function MinValue(c: Config): int
    requires Supported(c)
  {
    ToSigned((WordSize(c) - 1) * (if c.smi31 then 0x4000_0000 else 0x8000_0000) % WordSize(c), WordSize(c))
  }

  function MaxValue(c: Config): int
    requires Supported(c)
  {
    -(MinValue(c) + 1)
  }

  function IsValidSmi(c: Config, value: int): bool
    requires Supported(c)
  {
    if c.smi31
    then UnsignedInRange(value, MinValue(c), MaxValue(c), WordSize(c))
    else value == ToSigned(value % TWO32, TWO32)
  }

  // static_cast<Address>(value) << shift.
  function IntToSmi(c: Config, value: int): (a: nat)
    requires Supported(c)
    ensures IsWord(c, a)
  {
    value % WordSize(c) * Scale(c) % WordSize(c)
  }

  // `>>` of a negative value is division that rounds down.
  function SmiToInt(c: Config, a: nat): int
    requires Supported(c) && IsWord(c, a)
  {
    if c.smi31
    then ToSigned(a % TWO32, TWO32) / 2
    else ToSigned(ToSigned(a, TWO64) / TWO32 % TWO32, TWO32)
  }

  predicate HasHeapObjectTag(a: nat) {
    a % 4 == 1
  }

  lemma Limits(c: Config)
    requires Supported(c)
    ensures MinValue(c) == if c.smi31 then -0x4000_0000 else -0x8000_0000
    ensures MaxValue(c) == if c.smi31 then 0x3fff_ffff else 0x7fff_ffff
  {
  }

  /** `IsValidSmi` is the range check, for every signed machine word. */
  lemma ValidIsRange(c: Config, value: int)
    requires Supported(c) && IsSignedWord(c, value)
    ensures IsValidSmi(c, value) <==> MinValue(c) <= value <= MaxValue(c)
  {
    Limits(c);
    if c.smi31 {
      UnsignedRangeTrick(value, MinValue(c), MaxValue(c), WordSize(c));
    }
  }

  // The encoded word, without modulo.
  lemma Encoded(c: Config, value: int)
    requires Supported(c) && IsInt32(value)
    ensures IntToSmi(c, value) == value * Scale(c) + if value >= 0 then 0 else WordSize(c)
  {
    var w := WordSize(c);
    if value >= 0 {
      ModUnique(value, 0, value, w);
      ModUnique(value * Scale(c), 0, value * Scale(c), w);
    } else {
      ModUnique(value, -1, value + w, w);
      assert (value + w) * Scale(c) == (Scale(c) - 1) * w + (value * Scale(c) + w);
      ModUnique((value + w) * Scale(c), Scale(c) - 1, value * Scale(c) + w, w);
    }
  }

  // What any 32-bit store keeps of an encoded 31-bit integer.
  lemma Low32(c: Config, value: int)
    requires Supported(c) && c.smi31 && IsInt32(value)
    ensures IntToSmi(c, value) % TWO32 == 2 * value + if value >= 0 then 0 else TWO32
  {
    Encoded(c, value);
    if value >= 0 || c.pointerSize == 4 {
      ModUnique(IntToSmi(c, value), 0, IntToSmi(c, value), TWO32);
    } else {
      ModUnique(IntToSmi(c, value), TWO32 - 1, 2 * value + TWO32, TWO32);
    }
  }

  /** Decoding an encoded integer gives it back exactly when it is a valid Smi. */
  lemma RoundTrip(c: Config, value: int)
    requires Supported(c) && IsInt32(value)
    ensures SmiToInt(c, IntToSmi(c, value)) == value <==> IsValidSmi(c, value)
  {
    ValidIsRange(c, value);
    Limits(c);
    Encoded(c, value);
    if c.smi31 {
      Low32(c, value);
    } else {
      assert ToSigned(IntToSmi(c, value), TWO64) == value * TWO32;
      assert value * TWO32 / TWO32 == value;
    }
  }

  /** As a signed word, the encoding is the value shifted left by one bit, or by 32 bits. */
  lemma ShiftedValue(c: Config, value: int)
    requires Supported(c) && IsInt32(value) && IsValidSmi(c, value)
    ensures ToSigned(IntToSmi(c, value), WordSize(c)) == value * if c.smi31 then 2 else 0x1_0000_0000
  {
    ValidIsRange(c, value);
    Limits(c);
    Encoded(c, value);
  }

  /** No encoded integer looks like a heap object. */
  lemma NeverHeapObject(c: Config, value: int)
    requires Supported(c) && IsInt32(value)
    ensures IntToSmi(c, value) % 2 == 0 && !HasHeapObjectTag(IntToSmi(c, value))
  {
    Encoded(c, value);
    var half := if c.smi31 then value + (if value >= 0 then 0 else WordSize(c) / 2)
                else 0x8000_0000 * value + (if value >= 0 then 0 else WordSize(c) / 2);
    assert IntToSmi(c, value) == 2 * half;
  }

  // The low 32 bits of an address in a cage are its offset in the cage.
  lemma CageOffset(base: nat, x: nat)
    requires base % TWO32 == 0 && x < TWO32
    ensures (base + x) % TWO32 == x && (base + x) % 2 == x % 2
  {
  }

  lemma BelowTop(base: nat, x: nat)
    requires base % TWO32 == 0 && x < TWO32 && base < TWO64
    ensures base + x < TWO64
  {
  }

  lemma Decode31(x: nat, value: int)
    requires x == 2 * value + (if value >= 0 then 0 else TWO32) && -0x4000_0000 <= value < 0x4000_0000
    ensures x < TWO32 && ToSigned(x, TWO32) / 2 == value && x % 2 == 0
  {
  }

  /** The encoding survives a 32-bit field, and decompression against any cage base. */
  lemma SurvivesCompression(c: Config, value: int, base: nat)
    requires Supported(c) && c.smi31 && c.pointerSize == 8 && IsInt32(value) && IsValidSmi(c, value)
    requires base % TWO32 == 0 && base < TWO64
    ensures IsWord(c, base + IntToSmi(c, value) % TWO32)
    ensures SmiToInt(c, base + IntToSmi(c, value) % TWO32) == value
    ensures (base + IntToSmi(c, value) % TWO32) % 2 == 0
  {
    ValidIsRange(c, value);
    Limits(c);
    Low32(c, value);
    var x := IntToSmi(c, value) % TWO32;
    Decode31(x, value);
    CageOffset(base, x);
    BelowTop(base, x);
  }

  /** Different valid Smis have different encodings, also as 32-bit fields. */
  lemma Injective(c: Config, v1: int, v2: int)
    requires Supported(c) && IsInt32(v1) && IsInt32(v2) && IsValidSmi(c, v1) && IsValidSmi(c, v2)
    requires IntToSmi(c, v1) == IntToSmi(c, v2)
    ensures v1 == v2
  {
    RoundTrip(c, v1);
    RoundTrip(c, v2);
  }
}
