/**
 Descriptors of fast API calls: type identifiers, overload resolution, and the builder.
 */
module FastApi {

  /* Type information. */

  // The enumerations are bytes: a type, a sequence type, and a set of flag bits.
  datatype CTypeInfo = CTypeInfo(type_: bv8, sequenceType: bv8, flags: bv8)

  const SCALAR: bv8 := 0
  const CALLBACK_OPTIONS_TYPE: bv8 := 255

  function GetId(t: CTypeInfo): bv32 {
    ((t.type_ as bv32) << 16) | ((t.sequenceType as bv32) << 8) | (t.flags as bv32)
  }

  // Casting to a byte-sized enumeration drops the higher bits.
  function FromId(id: bv32): CTypeInfo {
    CTypeInfo(((id >> 16) & 255) as bv8, ((id >> 8) & 255) as bv8, (id & 255) as bv8)
  }

  /** Every type information survives the identifier round trip. */
  lemma IdRoundTrip(t: CTypeInfo)
    ensures FromId(GetId(t)) == t
  {
  }

  /** An identifier survives exactly if it uses only its low 24 bits. */
  lemma InfoRoundTrip(id: bv32)
    ensures GetId(FromId(id)) == id <==> id < 0x100_0000
  {
  }

  /** In the identifier the flags are the lowest byte, then comes the sequence type, then the type, and nothing above it. */
  lemma IdBytes(t: CTypeInfo)
    ensures GetId(t) >> 16 == t.type_ as bv32
    ensures (GetId(t) >> 8) & 0xff == t.sequenceType as bv32
    ensures GetId(t) & 0xff == t.flags as bv32
  {
  }

  /* Functions and overloads. */

  datatype CFunction = CFunction(ret: CTypeInfo, args: seq<CTypeInfo>)

  // The options argument, if present, is the last one.
  predicate HasOptions(f: CFunction) {
    |f.args| > 0 && f.args[|f.args| - 1].type_ == CALLBACK_OPTIONS_TYPE
  }

  function ArgumentCount(f: CFunction): (n: nat)
    ensures n <= |f.args|
  {
    if HasOptions(f) then |f.args| - 1 else |f.args|
  }

  /** All arguments are counted but an options argument in the last position. */
  lemma CountAppended(ret: CTypeInfo, args: seq<CTypeInfo>, last: CTypeInfo)
    ensures ArgumentCount(CFunction(ret, [])) == 0
    ensures ArgumentCount(CFunction(ret, args + [last])) == |args| + if last.type_ == CALLBACK_OPTIONS_TYPE then 0 else 1
  {
  }

  datatype OverloadResolution = Impossible | AtRuntime | AtCompileTime

  predicate Differ(f: CFunction, g: CFunction, i: nat)
    requires i < ArgumentCount(f) && i < ArgumentCount(g)
  {
    f.args[i].sequenceType != g.args[i].sequenceType
  }

  predicate EitherScalar(f: CFunction, g: CFunction, i: nat)
    requires i < ArgumentCount(f) && i < ArgumentCount(g)
  {
    f.args[i].sequenceType == SCALAR || g.args[i].sequenceType == SCALAR
  }

  // At most one of the first `n` positions differs in sequence type, and neither side is scalar there.
  ghost predicate Distinguishable(f: CFunction, g: CFunction, n: nat)
    requires n <= ArgumentCount(f) && n <= ArgumentCount(g)
  {
    && (forall i, j :: 0 <= i < j < n ==> !(Differ(f, g, i) && Differ(f, g, j)))
    && (forall i :: 0 <= i < n && Differ(f, g, i) ==> !EitherScalar(f, g, i))
  }

  // Which resolution is possible.
  ghost function Resolution(f: CFunction, g: CFunction): OverloadResolution {
    if ArgumentCount(f) != ArgumentCount(g) then AtCompileTime
    else if Distinguishable(f, g, ArgumentCount(f)) then AtRuntime
    else Impossible
  }

  /** The search is exact, for argument lists of any length. */
  method GetOverloadResolution(f: CFunction, g: CFunction) returns (r: OverloadResolution)
    ensures r == Resolution(f, g)
  {
    if ArgumentCount(f) != ArgumentCount(g) {
      return AtCompileTime;
    }
    var diffIndex := -1;
    for i := 0 to ArgumentCount(f)
      invariant -1 <= diffIndex < i
      invariant Distinguishable(f, g, i)
      invariant forall j :: 0 <= j < i ==> (Differ(f, g, j) <==> j == diffIndex)
    {
      if f.args[i].sequenceType != g.args[i].sequenceType {
        assert Differ(f, g, i);
        if diffIndex >= 0 {
          assert Differ(f, g, diffIndex);
          return Impossible;
        }
        diffIndex := i;
        if f.args[i].sequenceType == SCALAR || g.args[i].sequenceType == SCALAR {
          assert EitherScalar(f, g, i);
          return Impossible;
        }
      }
    }
    return AtRuntime;
  }

  lemma {:induction false} ResolutionSymmetric(f: CFunction, g: CFunction)
    ensures Resolution(f, g) == Resolution(g, f)
  {
    if ArgumentCount(f) == ArgumentCount(g) {
      var n := ArgumentCount(f);
      assert forall i :: 0 <= i < n ==> Differ(f, g, i) == Differ(g, f, i) && EitherScalar(f, g, i) == EitherScalar(g, f, i);
    }
  }

  function WithOptions(f: CFunction, o: CTypeInfo): CFunction {
    f.(args := f.args + [o])
  }

  lemma OptionsIgnoredLeft(f: CFunction, g: CFunction, o: CTypeInfo)
    requires o.type_ == CALLBACK_OPTIONS_TYPE && ArgumentCount(f) == |f.args|
    ensures Resolution(WithOptions(f, o), g) == Resolution(f, g)
  {
    var f' := WithOptions(f, o);
    CountAppended(f.ret, f.args, o);
    if ArgumentCount(f) == ArgumentCount(g) {
      var n := ArgumentCount(f);
      assert forall i :: 0 <= i < n ==> f'.args[i] == f.args[i];
      assert forall i :: 0 <= i < n ==> Differ(f', g, i) == Differ(f, g, i) && EitherScalar(f', g, i) == EitherScalar(f, g, i);
    }
  }

  /** Whether the functions take options does not matter: without them the answer is the same. */
  lemma OptionsIgnored(f: CFunction, g: CFunction, o: CTypeInfo, p: CTypeInfo)
    requires o.type_ == CALLBACK_OPTIONS_TYPE && ArgumentCount(f) == |f.args|
    requires p.type_ == CALLBACK_OPTIONS_TYPE && ArgumentCount(g) == |g.args|
    ensures Resolution(WithOptions(f, o), g) == Resolution(f, g) == Resolution(f, WithOptions(g, p))
    ensures Resolution(WithOptions(f, o), WithOptions(g, p)) == Resolution(f, g)
  {
    OptionsIgnoredLeft(f, g, o);
    OptionsIgnoredLeft(g, f, p);
    OptionsIgnoredLeft(g, WithOptions(f, o), p);
    ResolutionSymmetric(f, g);
    ResolutionSymmetric(f, WithOptions(g, p));
    ResolutionSymmetric(WithOptions(f, o), g);
    ResolutionSymmetric(WithOptions(f, o), WithOptions(g, p));
  }

  /* The builder. */

  // A type with the flags given so far. The base type brings no flags of its own.
  datatype TypeBuilder = TypeBuilder(type_: bv8, sequenceType: bv8, flags: seq<bv8>)

  function MergeFlags(flags: seq<bv8>): bv8 {
    if flags == [] then 0 else flags[0] | MergeFlags(flags[1..])
  }

  function BuildType(b: TypeBuilder): CTypeInfo {
    CTypeInfo(b.type_, b.sequenceType, MergeFlags([0] + b.flags))
  }

  datatype Builder = Builder(ret: TypeBuilder, args: seq<TypeBuilder>)

  datatype Call = Ret(flags: seq<bv8>) | Arg(n: nat, flags: seq<bv8>)

  // `Arg` merges with the flags already there; `Ret` replaces them. An index beyond the arguments matches none.
  function Apply(b: Builder, call: Call): (r: Builder)
    ensures |r.args| == |b.args|
  {
    match call
    case Ret(flags) => b.(ret := b.ret.(flags := flags))
    case Arg(n, flags) =>
      if n < |b.args|
      then b.(args := b.args[n := b.args[n].(flags := [BuildType(b.args[n]).flags] + flags)])
      else b
  }

  function ApplyAll(b: Builder, calls: seq<Call>): (r: Builder)
    ensures |r.args| == |b.args|
    decreases |calls|
  {
    if calls == [] then b else ApplyAll(Apply(b, calls[0]), calls[1..])
  }

  function Build(b: Builder): CFunction {
    CFunction(BuildType(b.ret), seq(|b.args|, i requires 0 <= i < |b.args| => BuildType(b.args[i])))
  }

  /* Flags, bit by bit. */

  predicate Bit(x: bv8, t: nat)
    requires t < 8
  {
    (x >> t) & 1 == 1
  }

  // Some of the flags has bit `t`.
  ghost predicate Among(flags: seq<bv8>, t: nat)
    requires t < 8
  {
    exists j :: 0 <= j < |flags| && Bit(flags[j], t)
  }

  lemma OrBit(x: bv8, y: bv8, t: nat)
    requires t < 8
    ensures Bit(x | y, t) <==> Bit(x, t) || Bit(y, t)
  {
  }

  lemma {:induction false} MergeExact(flags: seq<bv8>, t: nat)
    requires t < 8
    ensures Bit(MergeFlags(flags), t) <==> Among(flags, t)
  {
    if flags != [] {
      var rest := flags[1..];
      MergeExact(rest, t);
      OrBit(flags[0], MergeFlags(rest), t);
      assert Among(rest, t) ==> Among(flags, t) by {
        if j :| 0 <= j < |rest| && Bit(rest[j], t) {
          assert Bit(flags[j + 1], t);
        }
      }
      assert Among(flags, t) && !Bit(flags[0], t) ==> Among(rest, t) by {
        if j :| 0 <= j < |flags| && Bit(flags[j], t) {
          assert j > 0 ==> rest[j - 1] == flags[j];
        }
      }
    }
  }

  lemma BuiltType(b: TypeBuilder, t: nat)
    requires t < 8
    ensures BuildType(b).type_ == b.type_ && BuildType(b).sequenceType == b.sequenceType
    ensures Bit(BuildType(b).flags, t) <==> Among(b.flags, t)
  {
    MergeExact(b.flags, t);
    OrBit(0, MergeFlags(b.flags), t);
    assert ([0] + b.flags)[1..] == b.flags;
  }

  // Some call passes bit `t` to `Arg<i>`.
  ghost predicate Passed(calls: seq<Call>, i: nat, t: nat)
    requires t < 8
  {
    exists c :: c in calls && c.Arg? && c.n == i && Among(c.flags, t)
  }

  // The last `Ret` passes bit `t`; if there is none, the flags `before` have it.
  ghost predicate LastRet(calls: seq<Call>, before: seq<bv8>, t: nat)
    requires t < 8
    decreases |calls|
  {
    if calls == [] then Among(before, t)
    else if calls[|calls| - 1].Ret? then Among(calls[|calls| - 1].flags, t)
    else LastRet(calls[..|calls| - 1], before, t)
  }

  // What one call does to argument `i`.
  lemma ApplyFlags(b: Builder, call: Call, i: nat, t: nat)
    requires i < |b.args| && t < 8
    ensures var x, x' := b.args[i], Apply(b, call).args[i];
      && x'.type_ == x.type_ && x'.sequenceType == x.sequenceType
      && (Among(x'.flags, t) <==> Among(x.flags, t) || (call.Arg? && call.n == i && Among(call.flags, t)))
  {
    if call.Arg? && call.n == i {
      BuiltType(b.args[i], t);
      FirstAmong(BuildType(b.args[i]).flags, call.flags, t);
    }
  }

  lemma FirstAmong(f: bv8, flags: seq<bv8>, t: nat)
    requires t < 8
    ensures Among([f] + flags, t) <==> Bit(f, t) || Among(flags, t)
  {
    var all := [f] + flags;
    if Bit(f, t) {
      assert Bit(all[0], t);
    }
    if j :| 0 <= j < |flags| && Bit(flags[j], t) {
      assert all[j + 1] == flags[j];
    }
  }

  lemma {:induction false} ArgFlagsAll(b: Builder, calls: seq<Call>, i: nat, t: nat)
    requires i < |b.args| && t < 8
    ensures var x, x' := b.args[i], ApplyAll(b, calls).args[i];
      && x'.type_ == x.type_ && x'.sequenceType == x.sequenceType
      && (Among(x'.flags, t) <==> Among(x.flags, t) || Passed(calls, i, t))
    decreases |calls|
  {
    if calls != [] {
      ApplyFlags(b, calls[0], i, t);
      ArgFlagsAll(Apply(b, calls[0]), calls[1..], i, t);
      PassedFirst(calls, i, t);
    }
  }

  lemma PassedFirst(calls: seq<Call>, i: nat, t: nat)
    requires calls != [] && t < 8
    ensures Passed(calls, i, t) <==> (calls[0].Arg? && calls[0].n == i && Among(calls[0].flags, t)) || Passed(calls[1..], i, t)
  {
    assert calls == [calls[0]] + calls[1..];
  }

  lemma ApplySplit(b: Builder, calls: seq<Call>)
    requires calls != []
    ensures ApplyAll(b, calls) == Apply(ApplyAll(b, calls[..|calls| - 1]), calls[|calls| - 1])
    decreases |calls|
  {
    if |calls| > 1 {
      ApplySplit(Apply(b, calls[0]), calls[1..]);
      assert calls[1..][..|calls| - 2] == calls[..|calls| - 1][1..];
    }
  }

  lemma {:induction false} RetFlagsAll(b: Builder, calls: seq<Call>, t: nat)
    requires t < 8
    ensures var r, r' := b.ret, ApplyAll(b, calls).ret;
      && r'.type_ == r.type_ && r'.sequenceType == r.sequenceType
      && (Among(r'.flags, t) <==> LastRet(calls, r.flags, t))
    decreases |calls|
  {
    if calls != [] {
      ApplySplit(b, calls);
      RetFlagsAll(b, calls[..|calls| - 1], t);
    }
  }

  // What the builder made of a type: the type given, and flag `t` exactly if it should be set.
  ghost predicate Describes(x: CTypeInfo, b: TypeBuilder, t: nat, flag: bool)
    requires t < 8
  {
    x.type_ == b.type_ && x.sequenceType == b.sequenceType && (Bit(x.flags, t) <==> flag)
  }

  /**
   After any sequence of builder calls, argument i carries its own type and exactly the flags it had and those passed for
   it, the result carries its own type and exactly the flags of the last `Ret`, and the arity is unchanged.
   */
  lemma BuilderExact(b: Builder, calls: seq<Call>, t: nat)
    requires t < 8
    ensures var f := Build(ApplyAll(b, calls));
      && |f.args| == |b.args|
      && (forall i :: 0 <= i < |f.args| ==> Describes(f.args[i], b.args[i], t, Among(b.args[i].flags, t) || Passed(calls, i, t)))
      && Describes(f.ret, b.ret, t, LastRet(calls, b.ret.flags, t))
  {
    var b', f := ApplyAll(b, calls), Build(ApplyAll(b, calls));
    forall i | 0 <= i < |f.args| ensures Describes(f.args[i], b.args[i], t, Among(b.args[i].flags, t) || Passed(calls, i, t)) {
      ArgFlagsAll(b, calls, i, t);
      BuiltType(b'.args[i], t);
    }
    RetFlagsAll(b, calls, t);
    BuiltType(b'.ret, t);
  }

  /* Calls in another order. */

  lemma SameFlags(x: bv8, y: bv8)
    requires forall t :: 0 <= t < 8 ==> (Bit(x, t) <==> Bit(y, t))
    ensures x == y
  {
    assert Bit(x, 0) == Bit(y, 0) && Bit(x, 1) == Bit(y, 1) && Bit(x, 2) == Bit(y, 2) && Bit(x, 3) == Bit(y, 3);
    assert Bit(x, 4) == Bit(y, 4) && Bit(x, 5) == Bit(y, 5) && Bit(x, 6) == Bit(y, 6) && Bit(x, 7) == Bit(y, 7);
  }

  lemma CommuteArg(b: Builder, x: Call, y: Call, i: nat)
    requires i < |b.args|
    ensures BuildType(Apply(Apply(b, x), y).args[i]) == BuildType(Apply(Apply(b, y), x).args[i])
  {
    var u, v := Apply(Apply(b, x), y).args[i], Apply(Apply(b, y), x).args[i];
    forall t | 0 <= t < 8 ensures Bit(BuildType(u).flags, t) <==> Bit(BuildType(v).flags, t) {
      ApplyFlags(b, x, i, t);
      ApplyFlags(Apply(b, x), y, i, t);
      ApplyFlags(b, y, i, t);
      ApplyFlags(Apply(b, y), x, i, t);
      BuiltType(u, t);
      BuiltType(v, t);
    }
    SameFlags(BuildType(u).flags, BuildType(v).flags);
  }

  lemma CommuteRet(b: Builder, x: Call, y: Call)
    requires !(x.Ret? && y.Ret?)
    ensures BuildType(Apply(Apply(b, x), y).ret) == BuildType(Apply(Apply(b, y), x).ret)
  {
  }

  /** Calls for different things commute, and so do two calls for the same argument. */
  lemma CallsCommute(b: Builder, x: Call, y: Call)
    requires !(x.Ret? && y.Ret?)
    ensures Build(Apply(Apply(b, x), y)) == Build(Apply(Apply(b, y), x))
  {
    var f, g := Build(Apply(Apply(b, x), y)), Build(Apply(Apply(b, y), x));
    forall i | 0 <= i < |b.args| ensures f.args[i] == g.args[i] {
      CommuteArg(b, x, y, i);
    }
    CommuteRet(b, x, y);
  }
}
