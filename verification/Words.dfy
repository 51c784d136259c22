/**
 Machine words: unsigned values of a fixed width, and what casts and shifts do to them.
 */
module Words {
  const TWO16: nat := 0x1_0000
  const TWO32: nat := 0x1_0000_0000
  const TWO64: nat := 0x1_0000_0000_0000_0000

  // Pointer size, size of a tagged field, and width of small integers.
  datatype Config = Config(pointerSize: nat, taggedSize: nat, smi31: bool)

  // The build configurations: 32-bit; 64-bit; and 64-bit with pointer compression.
  predicate Supported(c: Config) {
    || (c.pointerSize == 4 && c.taggedSize == 4 && c.smi31)
    || (c.pointerSize == 8 && c.taggedSize == 8)
    || (c.pointerSize == 8 && c.taggedSize == 4 && c.smi31)
  }

  predicate Compressed(c: Config) {
    c.taggedSize != c.pointerSize
  }

  // One more than the largest uintptr_t.
  function WordSize(c: Config): nat {
    if c.pointerSize == 4 then TWO32 else TWO64
  }

  predicate IsWord(c: Config, x: int) {
    0 <= x < WordSize(c)
  }

  predicate IsSignedWord(c: Config, x: int) {
    0 - WordSize(c) / 2 <= x < WordSize(c) / 2
  }

  predicate IsInt32(x: int) {
    -0x8000_0000 <= x < 0x8000_0000
  }

  // static_cast from an unsigned type with `size` values to the signed type of that width.
  function ToSigned(x: nat, size: nat): int
    requires x < size
  {
    if x < size / 2 then x else x - size
  }

  // The unsigned comparison `x - lo <= hi - lo`.
  predicate UnsignedInRange(x: int, lo: int, hi: int, size: nat)
    requires size > 0
  {
    (x % size - lo % size) % size <= (hi % size - lo % size) % size
  }

  lemma ModUnique(a: int, q: int, r: int, size: nat)
    requires size > 0 && a == q * size + r && 0 <= r < size
    ensures a % size == r
  {
    var d := q - a / size;
    assert a == (a / size) * size + a % size;
    assert d * size == q * size - (a / size) * size;
    SmallMultiple(d, size);
  }

  lemma SmallMultiple(d: int, size: nat)
    requires 0 - size < d * size < size
    ensures d == 0
  {
  }

  // Subtracting residues and subtracting first give the same word.
  lemma ModMinus(x: int, y: int, size: nat)
    requires size > 0
    ensures (x % size - y % size) % size == (x - y) % size
  {
    var k := x / size - y / size;
    assert x == (x / size) * size + x % size && y == (y / size) * size + y % size;
    assert x - y == k * size + (x % size - y % size);
    var d := x % size - y % size;
    ModUnique(d, d / size, d % size, size);
    assert x - y == (k + d / size) * size + d % size;
    ModUnique(x - y, k + d / size, d % size, size);
  }

  /** For all values that one signed word can hold, the unsigned comparison is the signed range check. */
  lemma UnsignedRangeTrick(x: int, lo: int, hi: int, size: nat)
    requires size > 0 && lo <= hi && 0 - size < x - lo < size && 0 - size < x - hi < size && hi - lo < size
    ensures UnsignedInRange(x, lo, hi, size) <==> lo <= x <= hi
  {
    ModMinus(x, lo, size);
    ModMinus(hi, lo, size);
    ModUnique(hi - lo, 0, hi - lo, size);
    if x >= lo {
      ModUnique(x - lo, 0, x - lo, size);
    } else {
      ModUnique(x - lo, -1, x - lo + size, size);
    }
  }
}
