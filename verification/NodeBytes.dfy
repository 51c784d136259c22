/**
 Global-handle nodes as raw bytes: one word for the object, two bytes of class id, an index byte and a
 byte of state and flags.  Updates through raw pointers behave as updates of separate record fields.
 */
module NodeBytes {

  // The lowest two bits of the flags byte are the state.
  const STATE_MASK: bv8 := 0x3

  function ClassIdOffset(ps: nat): nat { ps }
  function FlagsOffset(ps: nat): nat { ps + 3 }
  function NodeSize(ps: nat): nat { ps + 4 }

  /* One byte. */

  function WithFlag(b: bv8, value: bool, shift: nat): bv8
    requires shift < 8
  {
    var mask: bv8 := 1 << shift;
    (b & !mask) | ((if value then 1 else 0) << shift)
  }

  function Flag(b: bv8, shift: nat): bool
    requires shift < 8
  {
    b & (1 << shift) != 0
  }

  function WithState(b: bv8, value: bv8): bv8 {
    (b & !STATE_MASK) | value
  }

  function State(b: bv8): bv8 {
    b & STATE_MASK
  }

  lemma FlagUpdate(b: bv8, value: bool, shift: nat, other: nat)
    requires shift < 8 && other < 8
    ensures Flag(WithFlag(b, value, shift), other) == if other == shift then value else Flag(b, other)
  {
    Cases(shift);
    Cases(other);
  }

  lemma FlagKeepsState(b: bv8, value: bool, shift: nat)
    requires 2 <= shift < 8
    ensures State(WithFlag(b, value, shift)) == State(b)
  {
  }

  lemma StateKeepsFlag(b: bv8, value: bv8, i: nat)
    requires value <= 3 && 2 <= i < 8
    ensures Flag(WithState(b, value), i) == Flag(b, i) && State(WithState(b, value)) == value
  {
  }

  lemma Cases(i: nat)
    requires i < 8
    ensures i == 0 || i == 1 || i == 2 || i == 3 || i == 4 || i == 5 || i == 6 || i == 7
  {
  }

  // The update stores the state and disturbs no flag of any byte.
  ghost predicate CleanState(value: bv8) {
    forall b: bv8 {:trigger WithState(b, value)} ::
      State(WithState(b, value)) == value && forall i :: 2 <= i < 8 ==> Flag(WithState(b, value), i) == Flag(b, i)
  }

  /** `UpdateNodeState` is clean exactly for the values that fit in the state bits. */
  lemma StateExact(value: bv8)
    ensures CleanState(value) <==> value <= 3
  {
    if value <= 3 {
      forall b: bv8 ensures State(WithState(b, value)) == value && forall i :: 2 <= i < 8 ==> Flag(WithState(b, value), i) == Flag(b, i) {
        StateKeepsFlag(b, value, 2);
        forall i | 2 <= i < 8 ensures Flag(WithState(b, value), i) == Flag(b, i) {
          StateKeepsFlag(b, value, i);
        }
      }
    } else {
      assert State(WithState(0, value)) != value;
    }
  }

  /* Node memory. */

  datatype Node = Node(obj: seq<bv8>, classId: bv16, index: bv8, flags: seq<bool>, state: bv8)

  function ReadId(lo: bv8, hi: bv8): bv16 {
    ((hi as bv16) << 8) | (lo as bv16)
  }

  function Flags(b: bv8): (r: seq<bool>)
    ensures |r| == 6
  {
    [Flag(b, 2), Flag(b, 3), Flag(b, 4), Flag(b, 5), Flag(b, 6), Flag(b, 7)]
  }

  lemma FlagsWithFlag(b: bv8, value: bool, shift: nat)
    requires 2 <= shift < 8
    ensures Flags(WithFlag(b, value, shift)) == Flags(b)[shift - 2 := value]
  {
    var f := Flags(WithFlag(b, value, shift));
    forall i | 0 <= i < 6 ensures f[i] == Flags(b)[shift - 2 := value][i] {
      FlagAt(WithFlag(b, value, shift), i);
      FlagAt(b, i);
      FlagUpdate(b, value, shift, i + 2);
    }
  }

  lemma FlagAt(b: bv8, i: nat)
    requires i < 6
    ensures Flags(b)[i] == Flag(b, i + 2)
  {
  }

  lemma FlagsWithState(b: bv8, value: bv8)
    requires value <= 3
    ensures Flags(WithState(b, value)) == Flags(b) && State(WithState(b, value)) == value
  {
  }

  function View(ps: nat, mem: seq<bv8>, a: nat): Node
    requires a + NodeSize(ps) <= |mem|
  {
    Node(mem[a..a + ps], ReadId(mem[a + ClassIdOffset(ps)], mem[a + ClassIdOffset(ps) + 1]), mem[a + ps + 2],
         Flags(mem[a + FlagsOffset(ps)]), State(mem[a + FlagsOffset(ps)]))
  }

  datatype Update =
    | SetFlag(a: nat, shift: nat, value: bool)
    | SetState(a: nat, state: bv8)
    | SetClassId(a: nat, id: bv16)

  predicate Allowed(ps: nat, size: nat, u: Update) {
    && u.a + NodeSize(ps) <= size
    && (u.SetFlag? ==> 2 <= u.shift < 8)
    && (u.SetState? ==> u.state <= 3)
  }

  // The update on bytes.
  function Apply(ps: nat, mem: seq<bv8>, u: Update): (r: seq<bv8>)
    requires Allowed(ps, |mem|, u)
    ensures |r| == |mem|
  {
    var f := u.a + FlagsOffset(ps);
    match u
    case SetFlag(_, shift, value) => mem[f := WithFlag(mem[f], value, shift)]
    case SetState(_, state) => mem[f := WithState(mem[f], state)]
    case SetClassId(a, id) =>
      mem[a + ClassIdOffset(ps) := (id & 0xff) as bv8][a + ClassIdOffset(ps) + 1 := (id >> 8) as bv8]
  }

  // The update on a record.
  function Updated(n: Node, u: Update): Node
    requires |n.flags| == 6 && (u.SetFlag? ==> 2 <= u.shift < 8)
  {
    match u
    case SetFlag(_, shift, value) => n.(flags := n.flags[shift - 2 := value])
    case SetState(_, state) => n.(state := state)
    case SetClassId(_, id) => n.(classId := id)
  }

  predicate Apart(ps: nat, a: nat, b: nat) {
    a + NodeSize(ps) <= b || b + NodeSize(ps) <= a
  }

  lemma IdRoundTrip(id: bv16)
    ensures ReadId((id & 0xff) as bv8, (id >> 8) as bv8) == id
  {
  }

  lemma UpdateHere(ps: nat, mem: seq<bv8>, u: Update)
    requires Allowed(ps, |mem|, u)
    ensures View(ps, Apply(ps, mem, u), u.a) == Updated(View(ps, mem, u.a), u)
  {
    var mem' := Apply(ps, mem, u);
    assert mem'[u.a..u.a + ps] == mem[u.a..u.a + ps];
    var b := mem[u.a + FlagsOffset(ps)];
    match u
    case SetFlag(_, shift, value) =>
      FlagKeepsState(b, value, shift);
      FlagsWithFlag(b, value, shift);
    case SetState(_, state) => FlagsWithState(b, state);
    case SetClassId(_, id) => IdRoundTrip(id);
  }

  lemma UpdateElsewhere(ps: nat, mem: seq<bv8>, u: Update, a: nat)
    requires Allowed(ps, |mem|, u) && a + NodeSize(ps) <= |mem| && Apart(ps, u.a, a)
    ensures View(ps, Apply(ps, mem, u), a) == View(ps, mem, a)
  {
  }

  /* Sequences of updates. */

  predicate CanApply(ps: nat, size: nat, us: seq<Update>) {
    forall u :: u in us ==> Allowed(ps, size, u)
  }

  function ApplyAll(ps: nat, mem: seq<bv8>, us: seq<Update>): seq<bv8>
    requires CanApply(ps, |mem|, us)
    decreases |us|
  {
    if us == [] then mem else ApplyAll(ps, Apply(ps, mem, us[0]), us[1..])
  }

  // The updates that name node `a`, on its record alone.
  function UpdatedAll(n: Node, a: nat, us: seq<Update>): Node
    requires |n.flags| == 6 && forall u :: u in us && u.SetFlag? ==> 2 <= u.shift < 8
    decreases |us|
  {
    if us == [] then n
    else UpdatedAll(if us[0].a == a then Updated(n, us[0]) else n, a, us[1..])
  }

  /**
   After any sequence of updates to any nodes, the bytes of a node are the record that its own updates
   make of it: no update disturbs another field, or another node.
   */
  lemma {:induction false} UpdatesRefine(ps: nat, mem: seq<bv8>, us: seq<Update>, a: nat)
    requires CanApply(ps, |mem|, us) && a + NodeSize(ps) <= |mem| && (forall u :: u in us && u.a != a ==> Apart(ps, u.a, a))
    ensures |ApplyAll(ps, mem, us)| == |mem|
    ensures View(ps, ApplyAll(ps, mem, us), a) == UpdatedAll(View(ps, mem, a), a, us)
    decreases |us|
  {
    if us != [] {
      var u := us[0];
      assert u in us;
      if u.a == a {
        UpdateHere(ps, mem, u);
      } else {
        UpdateElsewhere(ps, mem, u, a);
      }
      UpdatesRefine(ps, Apply(ps, mem, u), us[1..], a);
    }
  }

  /* The code, on raw memory. */

  class Nodes {
    const ps: nat
    const mem: array<bv8>

    constructor (ps: nat, mem: array<bv8>)
      ensures this.ps == ps && this.mem == mem
    {
      this.ps, this.mem := ps, mem;
    }

    method UpdateNodeFlag(obj: nat, value: bool, shift: nat)
      requires Allowed(ps, mem.Length, SetFlag(obj, shift, value))
      modifies mem
      ensures mem[..] == Apply(ps, old(mem[..]), SetFlag(obj, shift, value))
      ensures View(ps, mem[..], obj) == Updated(View(ps, old(mem[..]), obj), SetFlag(obj, shift, value))
    {
      UpdateHere(ps, mem[..], SetFlag(obj, shift, value));
      var addr := obj + FlagsOffset(ps);
      var mask: bv8 := 1 << shift;
      var bit: bv8 := if value then 1 else 0;
      mem[addr] := (mem[addr] & !mask) | (bit << shift);
    }

    method GetNodeFlag(obj: nat, shift: nat) returns (r: bv8)
      requires obj + NodeSize(ps) <= mem.Length && 2 <= shift < 8
      ensures r != 0 <==> View(ps, mem[..], obj).flags[shift - 2]
    {
      Cases(shift);
      r := mem[obj + FlagsOffset(ps)] & (1 << shift);
    }

    method UpdateNodeState(obj: nat, value: bv8)
      requires Allowed(ps, mem.Length, SetState(obj, value))
      modifies mem
      ensures mem[..] == Apply(ps, old(mem[..]), SetState(obj, value))
      ensures View(ps, mem[..], obj) == Updated(View(ps, old(mem[..]), obj), SetState(obj, value))
    {
      UpdateHere(ps, mem[..], SetState(obj, value));
      var addr := obj + FlagsOffset(ps);
      mem[addr] := (mem[addr] & !STATE_MASK) | value;
    }

    method GetNodeState(obj: nat) returns (r: bv8)
      requires obj + NodeSize(ps) <= mem.Length
      ensures r == View(ps, mem[..], obj).state
    {
      r := mem[obj + FlagsOffset(ps)] & STATE_MASK;
    }

    method SetWrapperClassId(obj: nat, id: bv16)
      requires Allowed(ps, mem.Length, SetClassId(obj, id))
      modifies mem
      ensures mem[..] == Apply(ps, old(mem[..]), SetClassId(obj, id))
      ensures View(ps, mem[..], obj) == Updated(View(ps, old(mem[..]), obj), SetClassId(obj, id))
    {
      UpdateHere(ps, mem[..], SetClassId(obj, id));
      var addr := obj + ClassIdOffset(ps);
      mem[addr] := (id & 0xff) as bv8;
      mem[addr + 1] := (id >> 8) as bv8;
    }

    method WrapperClassId(obj: nat) returns (id: bv16)
      requires obj + NodeSize(ps) <= mem.Length
      ensures id == View(ps, mem[..], obj).classId
    {
      var addr := obj + ClassIdOffset(ps);
      id := ((mem[addr + 1] as bv16) << 8) | (mem[addr] as bv16);
    }
  }
}
