/**
 `ReturnValue`: a callback's result, kept as one tagged word.  "Not set" is the hole, which the
 setters also use for an empty handle, and which reads back as undefined.
 */
module ReturnValues {
  import opened Words
  import opened Smi
  import Cells

  type Option<+T> = Cells.Option<T>

  // A C++ double. Zero among the finite values is plus zero.
  datatype Float = Finite(r: real) | MinusZero | Infinite(negative: bool) | NaN

  function Whole(i: int): Float { Finite(i as real) }

  // Values as a script sees them.
  datatype Value = Undefined | Null | Boolean(b: bool) | EmptyString | Number(x: Float) | Object(id: nat) | Hole | Nothing

  // The isolate's roots, in the order of the root table from index 4.
  datatype Roots = Roots(undefined: nat, hole: nat, null_: nat, true_: nat, false_: nat, emptyString: nat)

  function RootWords(r: Roots): seq<nat> {
    [r.undefined, r.hole, r.null_, r.true_, r.false_, r.emptyString]
  }

  // The heap, as far as a result can refer to it, and the result's word.
  datatype State = State(roots: Roots, objects: map<nat, nat>, boxes: map<nat, Float>, value: nat)

  ghost predicate Valid(s: State) {
    && (forall i, j :: 0 <= i < j < 6 ==> RootWords(s.roots)[i] != RootWords(s.roots)[j])
    && (forall i :: 0 <= i < 6 ==> HasHeapObjectTag(RootWords(s.roots)[i]))
    && (forall a :: a in s.boxes ==> HasHeapObjectTag(a) && a !in RootWords(s.roots) && a !in s.objects)
    && (forall a :: a in s.objects ==> HasHeapObjectTag(a) && a !in RootWords(s.roots))
  }

  // What a word stands for.
  function Meaning(c: Config, s: State, w: nat): Value
    requires Supported(c)
  {
    if w % 2 == 0 then (if IsWord(c, w) then Number(Whole(SmiToInt(c, w))) else Nothing)
    else if w == s.roots.undefined then Undefined
    else if w == s.roots.hole then Hole
    else if w == s.roots.null_ then Null
    else if w == s.roots.true_ then Boolean(true)
    else if w == s.roots.false_ then Boolean(false)
    else if w == s.roots.emptyString then EmptyString
    else if w in s.boxes then Number(s.boxes[w])
    else if w in s.objects then Object(s.objects[w])
    else Nothing
  }

  /* The setters. */

  // An address for a new heap number.
  ghost predicate Fresh(s: State, a: nat) {
    HasHeapObjectTag(a) && a !in RootWords(s.roots) && a !in s.boxes && a !in s.objects
  }

  // The value is a small integer; minus zero is not.
  predicate IsSmiDouble(c: Config, x: Float)
    requires Supported(c)
  {
    x.Finite? && Whole(x.r.Floor) == x && IsInt32(x.r.Floor) && IsValidSmi(c, x.r.Floor)
  }

  // `Number::New`, into the result: a small integer if the value is one, else a heap number at `a`.
  function WithNumber(c: Config, s: State, x: Float, a: nat): State
    requires Supported(c)
  {
    if IsSmiDouble(c, x) then s.(value := IntToSmi(c, x.r.Floor)) else s.(boxes := s.boxes[a := x], value := a)
  }

  function WithInt32(c: Config, s: State, i: int, a: nat): State
    requires Supported(c)
  {
    if IsValidSmi(c, i) then s.(value := IntToSmi(c, i)) else WithNumber(c, s, Whole(i), a)
  }

  function WithUint32(c: Config, s: State, u: nat, a: nat): State
    requires Supported(c)
  {
    if u / 0x8000_0000 % 2 == 0 then WithInt32(c, s, u, a) else WithNumber(c, s, Whole(u), a)
  }

  function WithHandle(s: State, h: Option<nat>): State {
    s.(value := if h.None? then s.roots.hole else h.value)
  }

  // `Get`.
  function Read(s: State): nat {
    if s.value == s.roots.hole then s.roots.undefined else s.value
  }

  datatype Setter =
    | Handle(h: Option<nat>)
    | Double(x: Float)
    | Int32(i: int)
    | Uint32(u: nat)
    | Bool(b: bool)
    | SetNull
    | SetUndefined
    | SetEmptyString

  predicate Allowed(x: Setter) {
    match x
    case Int32(i) => IsInt32(i)
    case Uint32(u) => u < TWO32
    case _ => true
  }

  function With(c: Config, s: State, x: Setter, a: nat): State
    requires Supported(c)
  {
    match x
    case Handle(h) => WithHandle(s, h)
    case Double(x) => WithNumber(c, s, x, a)
    case Int32(i) => WithInt32(c, s, i, a)
    case Uint32(u) => WithUint32(c, s, u, a)
    case Bool(b) => s.(value := if b then s.roots.true_ else s.roots.false_)
    case SetNull => s.(value := s.roots.null_)
    case SetUndefined => s.(value := s.roots.undefined)
    case SetEmptyString => s.(value := s.roots.emptyString)
  }

  // What the setter was given.
  function Given(c: Config, s: State, x: Setter): Value
    requires Supported(c)
  {
    match x
    case Handle(h) => if h.None? || h.value == s.roots.hole then Undefined else Meaning(c, s, h.value)
    case Double(x) => Number(x)
    case Int32(i) => Number(Whole(i))
    case Uint32(u) => Number(Whole(u))
    case Bool(b) => Boolean(b)
    case SetNull => Null
    case SetUndefined => Undefined
    case SetEmptyString => EmptyString
  }

  /** An encoded integer is neither the hole nor any other root, and means itself. */
  lemma SmiMeaning(c: Config, s: State, i: int)
    requires Supported(c) && Valid(s) && IsInt32(i) && IsValidSmi(c, i)
    ensures IntToSmi(c, i) != s.roots.hole && Meaning(c, s, IntToSmi(c, i)) == Number(Whole(i))
  {
    RoundTrip(c, i);
    NeverHeapObject(c, i);
    assert HasHeapObjectTag(RootWords(s.roots)[1]);
  }

  lemma RootMeaning(c: Config, s: State)
    requires Supported(c) && Valid(s)
    ensures Meaning(c, s, s.roots.undefined) == Undefined && Meaning(c, s, s.roots.null_) == Null
    ensures Meaning(c, s, s.roots.true_) == Boolean(true) && Meaning(c, s, s.roots.false_) == Boolean(false)
    ensures Meaning(c, s, s.roots.emptyString) == EmptyString
    ensures s.roots.hole !in [s.roots.undefined, s.roots.null_, s.roots.true_, s.roots.false_, s.roots.emptyString]
  {
    var w := RootWords(s.roots);
    assert w[0] != w[1] && w[0] != w[2] && w[0] != w[3] && w[0] != w[4] && w[0] != w[5];
    assert w[1] != w[2] && w[1] != w[3] && w[1] != w[4] && w[1] != w[5];
    assert w[2] != w[3] && w[2] != w[4] && w[2] != w[5] && w[3] != w[4] && w[3] != w[5] && w[4] != w[5];
    assert HasHeapObjectTag(w[0]) && HasHeapObjectTag(w[2]) && HasHeapObjectTag(w[3]) && HasHeapObjectTag(w[4]) && HasHeapObjectTag(w[5]);
  }

  lemma BoxMeaning(c: Config, s: State, x: Float, a: nat)
    requires Supported(c) && Valid(s) && Fresh(s, a)
    ensures var s' := s.(boxes := s.boxes[a := x], value := a);
      Valid(s') && a != s.roots.hole && Meaning(c, s', a) == Number(x)
  {
  }

  lemma NumberSet(c: Config, s: State, x: Float, a: nat)
    requires Supported(c) && Valid(s) && Fresh(s, a)
    ensures var s' := WithNumber(c, s, x, a); Valid(s') && Meaning(c, s', Read(s')) == Number(x)
  {
    if IsSmiDouble(c, x) {
      var i := x.r.Floor;
      SmiMeaning(c, s, i);
      assert Valid(s.(value := IntToSmi(c, i)));
      SmiMeaning(c, s.(value := IntToSmi(c, i)), i);
    } else {
      BoxMeaning(c, s, x, a);
    }
  }

  lemma HandleSet(c: Config, s: State, h: Option<nat>)
    requires Supported(c) && Valid(s)
    ensures var s' := WithHandle(s, h); Valid(s') && Meaning(c, s', Read(s')) == Given(c, s, Handle(h))
  {
    RootMeaning(c, s);
    RootMeaning(c, WithHandle(s, h));
  }

  /** Whatever was set before, `Get` returns what the last setter was given, exactly. */
  lemma GetAfterSet(c: Config, s: State, x: Setter, a: nat)
    requires Supported(c) && Valid(s) && Fresh(s, a) && Allowed(x)
    ensures var s' := With(c, s, x, a); Valid(s') && Meaning(c, s', Read(s')) == Given(c, s, x)
  {
    var s' := With(c, s, x, a);
    match x
    case Double(d) => NumberSet(c, s, d, a);
    case Int32(i) => IntegerSet(c, s, i, a);
    case Uint32(u) =>
      if u / 0x8000_0000 % 2 == 0 {
        IntegerSet(c, s, u, a);
      } else {
        NumberSet(c, s, Whole(u), a);
      }
    case Handle(h) => HandleSet(c, s, h);
    case _ => RootMeaning(c, s');
  }

  lemma IntegerSet(c: Config, s: State, i: int, a: nat)
    requires Supported(c) && Valid(s) && Fresh(s, a) && IsInt32(i)
    ensures var s' := WithInt32(c, s, i, a); Valid(s') && Meaning(c, s', Read(s')) == Number(Whole(i))
  {
    if IsValidSmi(c, i) {
      SmiMeaning(c, s, i);
      SmiMeaning(c, s.(value := IntToSmi(c, i)), i);
    } else {
      NumberSet(c, s, Whole(i), a);
    }
  }

  // The number that a setter stores, if it stores one.
  function Stored(x: Setter): Option<Float> {
    match x
    case Double(d) => Cells.Some(d)
    case Int32(i) => Cells.Some(Whole(i))
    case Uint32(u) => Cells.Some(Whole(u))
    case _ => Cells.None
  }

  // The number is a small integer.
  ghost predicate Small(c: Config, d: Float)
    requires Supported(c)
  {
    exists i :: IsInt32(i) && IsValidSmi(c, i) && d == Whole(i)
  }

  lemma SmallIff(c: Config, d: Float)
    requires Supported(c)
    ensures Small(c, d) <==> IsSmiDouble(c, d)
  {
    if i :| IsInt32(i) && IsValidSmi(c, i) && d == Whole(i) {
      assert d.r.Floor == i;
    }
  }

  /** A number is stored without allocation exactly if it is a small integer; else as a heap number with that value. */
  lemma SmiWhenSmall(c: Config, s: State, x: Setter, a: nat)
    requires Supported(c) && Valid(s) && Fresh(s, a) && Allowed(x) && Stored(x).Some?
    ensures var s', d := With(c, s, x, a), Stored(x).value;
      && (Small(c, d) ==> s'.boxes == s.boxes && s'.value % 2 == 0)
      && (!Small(c, d) ==> s'.boxes == s.boxes[a := d] && s'.value == a)
  {
    var d := Stored(x).value;
    SmallIff(c, d);
    if d.Finite? && IsInt32(d.r.Floor) {
      NeverHeapObject(c, d.r.Floor);
    }
    match x
    case Int32(i) => WholeFloor(i); ValidIsRange(c, i);
    case Uint32(u) => WholeFloor(u); BigIsNotSmall(c, u);
    case _ =>
  }

  lemma WholeFloor(i: int)
    ensures Whole(i).r.Floor == i
  {
  }

  lemma BigIsNotSmall(c: Config, u: nat)
    requires Supported(c) && u < TWO32
    ensures u / 0x8000_0000 % 2 == 0 <==> IsInt32(u)
  {
  }

  // A sequence of setters, each with the address of the heap number it may allocate.
  function SetAll(c: Config, s: State, xs: seq<(Setter, nat)>): State
    requires Supported(c)
  {
    if xs == [] then s else With(c, SetAll(c, s, xs[..|xs| - 1]), xs[|xs| - 1].0, xs[|xs| - 1].1)
  }

  ghost predicate CanSetAll(c: Config, s: State, xs: seq<(Setter, nat)>)
    requires Supported(c)
  {
    xs == [] ||
    (CanSetAll(c, s, xs[..|xs| - 1]) && Allowed(xs[|xs| - 1].0) && Fresh(SetAll(c, s, xs[..|xs| - 1]), xs[|xs| - 1].1))
  }

  lemma {:induction false} SetAllValid(c: Config, s: State, xs: seq<(Setter, nat)>)
    requires Supported(c) && Valid(s) && CanSetAll(c, s, xs)
    ensures Valid(SetAll(c, s, xs))
  {
    if xs != [] {
      SetAllValid(c, s, xs[..|xs| - 1]);
      GetAfterSet(c, SetAll(c, s, xs[..|xs| - 1]), xs[|xs| - 1].0, xs[|xs| - 1].1);
    }
  }

  /** After any sequence of setters, `Get` returns what the last one was given. */
  lemma LastSetWins(c: Config, s: State, xs: seq<(Setter, nat)>)
    requires Supported(c) && Valid(s) && CanSetAll(c, s, xs) && xs != []
    ensures var s' := SetAll(c, s, xs);
      Meaning(c, s', Read(s')) == Given(c, SetAll(c, s, xs[..|xs| - 1]), xs[|xs| - 1].0)
  {
    SetAllValid(c, s, xs[..|xs| - 1]);
    GetAfterSet(c, SetAll(c, s, xs[..|xs| - 1]), xs[|xs| - 1].0, xs[|xs| - 1].1);
  }

  /* `PropertyCallbackInfo::ShouldThrowOnError`. */

  const THROW_ON_ERROR := 0
  const DONT_THROW := 1
  const INFER_SHOULD_THROW_MODE := 2

  function ShouldThrowOnError(c: Config, arg: nat, inferred: bool): bool
    requires Supported(c)
  {
    if arg != IntToSmi(c, INFER_SHOULD_THROW_MODE) then arg != IntToSmi(c, DONT_THROW) else inferred
  }

  /** The comparisons of encoded modes decide as comparisons of the modes would. */
  lemma ThrowMode(c: Config, mode: int, inferred: bool)
    requires Supported(c) && 0 <= mode <= 2
    ensures ShouldThrowOnError(c, IntToSmi(c, mode), inferred) <==> mode == THROW_ON_ERROR || (mode == INFER_SHOULD_THROW_MODE && inferred)
  {
  }

  /* The code. */

  lemma {:induction false} FreshAddress(s: set<nat>, from: nat)
    requires from % 4 == 1
    ensures exists a: nat :: a % 4 == 1 && a >= from && a !in s
    decreases s
  {
    if from in s {
      FreshAddress(s - {from}, from + 4);
      var a: nat :| a % 4 == 1 && a >= from + 4 && a !in s - {from};
      assert a !in s;
    } else {
      assert from !in s;
    }
  }

  class ReturnValue {
    const c: Config
    const roots: Roots
    const objects: map<nat, nat>
    var boxes: map<nat, Float>
    var value: nat

    ghost function S(): State
      reads this
    {
      State(roots, objects, boxes, value)
    }

    // A result that has not been set.
    constructor (c: Config, roots: Roots, objects: map<nat, nat>, boxes: map<nat, Float>)
      requires Supported(c) && Valid(State(roots, objects, boxes, roots.hole))
      ensures this.c == c && S() == State(roots, objects, boxes, roots.hole)
      ensures Meaning(c, S(), Read(S())) == Undefined
    {
      this.c, this.roots, this.objects, this.boxes, value := c, roots, objects, boxes, roots.hole;
      new;
      RootMeaning(c, S());
    }

    method SetHandle(h: Option<nat>)
      requires Supported(c) && Valid(S())
      modifies this
      ensures Valid(S()) && S() == WithHandle(old(S()), h)
      ensures Meaning(c, S(), Read(S())) == Given(c, old(S()), Handle(h))
    {
      HandleSet(c, S(), h);
      if h.None? {
        value := roots.hole;
      } else {
        value := h.value;
      }
    }

    // `Number::New`, then `Set(Local)`.
    method SetNumber(x: Float) returns (ghost a: nat)
      requires Supported(c) && Valid(S())
      modifies this
      ensures Fresh(old(S()), a) && S() == WithNumber(c, old(S()), x, a)
      ensures Valid(S()) && Meaning(c, S(), Read(S())) == Number(x)
    {
      ghost var used := set w | w in RootWords(roots);
      FreshAddress(used + boxes.Keys + objects.Keys, 1);
      var address: nat :| address % 4 == 1 && address >= 1 && address !in RootWords(roots) && address !in boxes && address !in objects;
      a := address;
      NumberSet(c, S(), x, a);
      if IsSmiDouble(c, x) {
        value := IntToSmi(c, x.r.Floor);
      } else {
        boxes := boxes[address := x];
        value := address;
      }
    }

    method SetInt32(i: int) returns (ghost a: nat)
      requires Supported(c) && Valid(S()) && IsInt32(i)
      modifies this
      ensures Fresh(old(S()), a) && S() == WithInt32(c, old(S()), i, a)
      ensures Valid(S()) && Meaning(c, S(), Read(S())) == Number(Whole(i))
    {
      if IsValidSmi(c, i) {
        ghost var used := set x | x in RootWords(roots);
        FreshAddress(used + boxes.Keys + objects.Keys, 1);
        a :| a % 4 == 1 && a >= 1 && a !in used + boxes.Keys + objects.Keys;
        IntegerSet(c, S(), i, a);
        value := IntToSmi(c, i);
        return;
      }
      a := SetNumber(Whole(i));
    }

    method SetUint32(u: nat) returns (ghost a: nat)
      requires Supported(c) && Valid(S()) && u < TWO32
      modifies this
      ensures Fresh(old(S()), a) && S() == WithUint32(c, old(S()), u, a)
      ensures Valid(S()) && Meaning(c, S(), Read(S())) == Number(Whole(u))
    {
      var fitsIntoInt32 := u / 0x8000_0000 % 2 == 0;
      if fitsIntoInt32 {
        a := SetInt32(u);
        return;
      }
      a := SetNumber(Whole(u));
    }

    method Get() returns (w: nat)
      requires Supported(c)
      ensures w == Read(S())
      ensures Valid(S()) ==> w != roots.hole
    {
      if value == roots.hole {
        w := roots.undefined;
        assert Valid(S()) ==> RootWords(roots)[0] != RootWords(roots)[1];
        return;
      }
      w := value;
    }
  }
}
