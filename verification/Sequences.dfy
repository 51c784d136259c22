/**
 Sequences taken apart element by element.
 */
module Sequences {

  // What `f` makes of each element, one after the other.
  function FlatMap<A, B>(f: A -> seq<B>, s: seq<A>): seq<B> {
    if s == [] then [] else f(s[0]) + FlatMap(f, s[1..])
  }

  // The number of elements that `p` holds of.
  function Count<A>(p: A -> bool, s: seq<A>): nat {
    if s == [] then 0 else Count(p, s[1..]) + if p(s[0]) then 1 else 0
  }

  lemma Associative<T>(x: seq<T>, y: seq<T>, z: seq<T>)
    ensures (x + y) + z == x + (y + z)
  {
  }

  lemma FirstOfTwo<T>(a: seq<T>, b: seq<T>)
    requires a != []
    ensures (a + b)[0] == a[0] && (a + b)[1..] == a[1..] + b
  {
  }

  lemma {:induction false} FlatMapConcat<A, B>(f: A -> seq<B>, a: seq<A>, b: seq<A>)
    ensures FlatMap(f, a + b) == FlatMap(f, a) + FlatMap(f, b)
  {
    if a == [] {
      assert a + b == b;
    } else {
      FirstOfTwo(a, b);
      FlatMapConcat(f, a[1..], b);
      Associative(f(a[0]), FlatMap(f, a[1..]), FlatMap(f, b));
    }
  }

  lemma FlatMapOne<A, B>(f: A -> seq<B>, x: A)
    ensures FlatMap(f, [x]) == f(x)
  {
    assert [x][1..] == [] && f(x) + [] == f(x);
  }

  lemma {:induction false} CountConcat<A>(p: A -> bool, a: seq<A>, b: seq<A>)
    ensures Count(p, a + b) == Count(p, a) + Count(p, b)
  {
    if a == [] {
      assert a + b == b;
    } else {
      FirstOfTwo(a, b);
      CountConcat(p, a[1..], b);
    }
  }
}
