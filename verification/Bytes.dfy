/**
 Byte memory, with little-endian words.
 */
module Bytes {
  import opened Words

  type byte = x: nat | x < 256

  function Pow256(n: nat): nat
    ensures Pow256(n) > 0
  {
    if n == 0 then 1 else 256 * Pow256(n - 1)
  }

  lemma Sizes()
    ensures Pow256(2) == TWO16 && Pow256(4) == TWO32 && Pow256(8) == TWO64
  {
  }

  function At(m: seq<byte>, a: nat): byte {
    if a < |m| then m[a] else 0
  }

  // A little-endian number.
  function Number(s: seq<byte>): nat {
    if s == [] then 0 else s[0] + 256 * Number(s[1..])
  }

  function Slice(m: seq<byte>, a: nat, n: nat): seq<byte> {
    seq<byte>(n, i requires 0 <= i < n => At(m, a + i))
  }

  // The word of `n` bytes at address `a`.
  function Load(m: seq<byte>, a: nat, n: nat): nat {
    Number(Slice(m, a, n))
  }

  lemma LoadNext(m: seq<byte>, a: nat, n: nat)
    requires n > 0
    ensures Load(m, a, n) == At(m, a) + 256 * Load(m, a + 1, n - 1)
  {
    assert Slice(m, a, n)[1..] == Slice(m, a + 1, n - 1);
  }

  function Store(m: seq<byte>, a: nat, n: nat, v: nat): (r: seq<byte>)
    requires a + n <= |m|
    ensures |r| == |m|
    decreases n
  {
    if n == 0 then m else Store(m[a := v % 256], a + 1, n - 1, v / 256)
  }

  lemma {:induction false} LoadBound(m: seq<byte>, a: nat, n: nat)
    ensures Load(m, a, n) < Pow256(n)
    decreases n
  {
    if n > 0 {
      LoadNext(m, a, n);
      LoadBound(m, a + 1, n - 1);
    }
  }

  // Bytes outside the word do not change.
  lemma {:induction false} StoreFrame(m: seq<byte>, a: nat, n: nat, v: nat, i: nat)
    requires a + n <= |m| && !(a <= i < a + n)
    ensures At(Store(m, a, n, v), i) == At(m, i)
    decreases n
  {
    if n > 0 {
      StoreFrame(m[a := v % 256], a + 1, n - 1, v / 256, i);
    }
  }

  lemma LoadSame(m: seq<byte>, m': seq<byte>, a: nat, n: nat)
    requires forall i :: a <= i < a + n ==> At(m', i) == At(m, i)
    ensures Load(m', a, n) == Load(m, a, n)
  {
    assert Slice(m', a, n) == Slice(m, a, n);
  }

  /** A word that was stored is read back, modulo its width. */
  lemma {:induction false} LoadStored(m: seq<byte>, a: nat, n: nat, v: nat)
    requires a + n <= |m| && v < Pow256(n)
    ensures Load(Store(m, a, n, v), a, n) == v
    decreases n
  {
    if n > 0 {
      var m1 := m[a := v % 256];
      LoadStored(m1, a + 1, n - 1, v / 256);
      StoreFrame(m1, a + 1, n - 1, v / 256, a);
      LoadNext(Store(m, a, n, v), a, n);
    }
  }

  // `m'` is `m` with the word at `a` changed to `v`, and nothing else.
  ghost predicate Stored(m: seq<byte>, m': seq<byte>, a: nat, n: nat, v: nat) {
    && |m'| == |m| && Load(m', a, n) == v
    && (forall i: nat {:trigger At(m', i)} :: !(a <= i < a + n) ==> At(m', i) == At(m, i))
  }

  lemma StoreIsStored(m: seq<byte>, a: nat, n: nat, v: nat)
    requires a + n <= |m| && v < Pow256(n)
    ensures Stored(m, Store(m, a, n, v), a, n, v)
  {
    LoadStored(m, a, n, v);
    forall i: nat | !(a <= i < a + n) ensures At(Store(m, a, n, v), i) == At(m, i) {
      StoreFrame(m, a, n, v, i);
    }
  }

  /** A word elsewhere is not changed. */
  lemma LoadElsewhere(m: seq<byte>, m': seq<byte>, a: nat, n: nat, v: nat, b: nat, k: nat)
    requires Stored(m, m', a, n, v) && (b + k <= a || a + n <= b)
    ensures Load(m', b, k) == Load(m, b, k)
  {
    LoadSame(m, m', b, k);
  }

  /** The lowest byte of a word is at the lowest address. */
  lemma {:induction false} ByteOfWord(m: seq<byte>, a: nat, n: nat, j: nat)
    requires j < n
    ensures Load(m, a, n) / Pow256(j) % 256 == At(m, a + j)
    decreases j
  {
    LoadNext(m, a, n);
    if j > 0 {
      ByteOfWord(m, a + 1, n - 1, j - 1);
      ShiftByte(Load(m, a, n), At(m, a), Load(m, a + 1, n - 1), Pow256(j - 1));
    }
  }

  lemma ShiftByte(x: nat, low: nat, rest: nat, p: nat)
    requires x == low + 256 * rest && low < 256 && p > 0
    ensures x / (256 * p) == rest / p
  {
    var q, r := rest / p, rest % p;
    Multiply(q, p);
    assert rest == q * p + r;
    assert x == q * (256 * p) + (256 * r + low);
    Quotient(x, q, 256 * r + low, 256 * p);
  }

  lemma Multiply(q: nat, p: nat)
    ensures q * (256 * p) == 256 * (q * p)
  {
  }

  lemma Quotient(x: nat, q: nat, r: nat, d: nat)
    requires d > 0 && x == q * d + r && r < d
    ensures x / d == q
  {
    var k := q - x / d;
    assert k * d == q * d - (x / d) * d;
    SmallMultiple(k, d);
  }

  // The low bytes of a word are the word of that many bytes at the same address.
  lemma {:induction false} LoadSplit(m: seq<byte>, a: nat, n: nat, k: nat)
    ensures Load(m, a, n + k) == Load(m, a, n) + Pow256(n) * Load(m, a + n, k)
    decreases n
  {
    if n > 0 {
      LoadSplit(m, a + 1, n - 1, k);
      LoadNext(m, a, n + k);
      LoadNext(m, a, n);
      Distribute(Load(m, a + 1, n - 1), Pow256(n - 1), Load(m, a + n, k));
    }
  }

  lemma Distribute(x: nat, p: nat, y: nat)
    ensures 256 * (x + p * y) == 256 * x + (256 * p) * y
  {
  }

  lemma LoadLow(m: seq<byte>, a: nat)
    ensures Load(m, a, 8) % TWO32 == Load(m, a, 4)
  {
    LoadSplit(m, a, 4, 4);
    LoadBound(m, a, 4);
    Sizes();
    ModUnique(Load(m, a, 8), Load(m, a + 4, 4), Load(m, a, 4), TWO32);
  }
}
