/**
 The raw layout of an isolate: embedder slots, the long-task counter and the root table, read and
 written at fixed offsets from the isolate's address.
 */
module IsolateLayout {
  import opened Words
  import opened Bytes

  const NUM_SLOTS: nat := 4

  // Offsets, in the order of the fields. `c.pointerSize` is also the size of size_t.
  function StackGuardOffset(c: Config): nat { c.pointerSize }
  function BooleanFlagsOffset(c: Config): nat { StackGuardOffset(c) + 7 * c.pointerSize }
  function BuiltinTier0EntryTableOffset(c: Config): nat { BooleanFlagsOffset(c) + 8 }
  function BuiltinTier0TableOffset(c: Config): nat { BuiltinTier0EntryTableOffset(c) + 7 * c.pointerSize }
  function NewAllocationInfoOffset(c: Config): nat { BuiltinTier0TableOffset(c) + 7 * c.pointerSize }
  function OldAllocationInfoOffset(c: Config): nat { NewAllocationInfoOffset(c) + 3 * c.pointerSize }
  function FastCCallCallerFpOffset(c: Config): nat { OldAllocationInfoOffset(c) + 3 * c.pointerSize }
  function FastCCallCallerPcOffset(c: Config): nat { FastCCallCallerFpOffset(c) + c.pointerSize }
  function FastApiCallTargetOffset(c: Config): nat { FastCCallCallerPcOffset(c) + c.pointerSize }
  function CounterOffset(c: Config): nat { FastApiCallTargetOffset(c) + c.pointerSize }
  function ThreadLocalTopOffset(c: Config): nat { CounterOffset(c) + c.pointerSize }
  function HandleScopeDataOffset(c: Config): nat { ThreadLocalTopOffset(c) + 25 * c.pointerSize }
  function EmbedderDataOffset(c: Config): nat { HandleScopeDataOffset(c) + (2 * c.pointerSize + 2 * 4) }
  function ExternalPointerTableOffset(c: Config): nat { EmbedderDataOffset(c) + NUM_SLOTS * c.pointerSize }

  function ApiCallbackThunkArgumentOffset(c: Config): nat {
    if Compressed(c) then ExternalPointerTableOffset(c) + 4 * c.pointerSize + c.pointerSize else ExternalPointerTableOffset(c)
  }

  function RootsOffset(c: Config): nat { ApiCallbackThunkArgumentOffset(c) + c.pointerSize }

  // `n * kApiSystemPointerSize`, for the two pointer sizes there are.
  function Pointers(c: Config, n: nat): nat {
    if c.pointerSize == 4 then 4 * n else 8 * n
  }

  function SlotAddress(c: Config, iso: nat, slot: nat): nat {
    iso + EmbedderDataOffset(c) + Pointers(c, slot)
  }

  function RootAddress(c: Config, iso: nat, index: nat): nat {
    iso + RootsOffset(c) + Pointers(c, index)
  }

  /* The fields of the isolate itself, in their order. */

  const COUNTER_FIELD := 10
  const HANDLE_SCOPE_FIELD := 12
  const EMBEDDER_FIELD := 13

  // Sizes of the fields: the cage base, the stack guard, six flags and two bytes of padding, the two tables of built-ins, the two
  // allocation areas, three words for calls into C, the counter, thread-local data, handle-scope data, the embedder's slots, with
  // compression the two external pointer tables, and the argument of the callback thunk. The roots follow.
  function FieldSizes(c: Config): (s: seq<nat>)
    ensures |s| == if Compressed(c) then 17 else 15
  {
    var p := c.pointerSize;
    [p, 7 * p, 6 + 2, 7 * p, 7 * p, 3 * p, 3 * p, p, p, p, p, 25 * p, 2 * p + 2 * 4, NUM_SLOTS * p]
    + (if Compressed(c) then [4 * p, p] else []) + [p]
  }

  // Where the field with index `i` starts: after all fields before it.
  function Start(c: Config, i: nat): nat
    requires i <= |FieldSizes(c)|
  {
    if i == 0 then 0 else Start(c, i - 1) + FieldSizes(c)[i - 1]
  }

  lemma StartsFirst(c: Config)
    ensures Start(c, 1) == StackGuardOffset(c) && Start(c, 2) == BooleanFlagsOffset(c)
    ensures Start(c, 3) == BuiltinTier0EntryTableOffset(c) && Start(c, 4) == BuiltinTier0TableOffset(c)
    ensures Start(c, 5) == NewAllocationInfoOffset(c) && Start(c, 6) == OldAllocationInfoOffset(c)
  {
  }

  lemma StartsNext(c: Config)
    ensures Start(c, 7) == FastCCallCallerFpOffset(c) && Start(c, 8) == FastCCallCallerPcOffset(c)
    ensures Start(c, 9) == FastApiCallTargetOffset(c) && Start(c, COUNTER_FIELD) == CounterOffset(c)
    ensures Start(c, 11) == ThreadLocalTopOffset(c)
  {
    StartsFirst(c);
  }

  /** The offsets that the API uses are where the isolate has its fields, in every configuration. */
  lemma OffsetsMatch(c: Config)
    requires Supported(c)
    ensures Start(c, COUNTER_FIELD) == CounterOffset(c) && Start(c, HANDLE_SCOPE_FIELD) == HandleScopeDataOffset(c)
    ensures Start(c, EMBEDDER_FIELD) == EmbedderDataOffset(c) && Start(c, |FieldSizes(c)|) == RootsOffset(c)
  {
    StartsNext(c);
    assert Start(c, 12) == HandleScopeDataOffset(c);
    assert Start(c, 13) == EmbedderDataOffset(c);
    assert Start(c, 14) == ExternalPointerTableOffset(c);
    if Compressed(c) {
      assert Start(c, 15) == ExternalPointerTableOffset(c) + 4 * c.pointerSize;
      assert Start(c, 16) == ApiCallbackThunkArgumentOffset(c);
    }
  }

  lemma {:induction false} FieldsApart(c: Config, i: nat, j: nat)
    requires i < j <= |FieldSizes(c)|
    ensures Start(c, i) + FieldSizes(c)[i] <= Start(c, j)
    decreases j - i
  {
    if i + 1 < j {
      FieldsApart(c, i, j - 1);
    }
  }

  /** Slots and roots follow one another, word by word, from the start of their fields. */
  lemma WordByWord(c: Config, iso: nat, i: nat)
    requires Supported(c)
    ensures SlotAddress(c, iso, 0) == iso + Start(c, EMBEDDER_FIELD) && RootAddress(c, iso, 0) == iso + Start(c, |FieldSizes(c)|)
    ensures SlotAddress(c, iso, i + 1) == SlotAddress(c, iso, i) + c.pointerSize
    ensures RootAddress(c, iso, i + 1) == RootAddress(c, iso, i) + c.pointerSize
  {
    OffsetsMatch(c);
  }

  /* The fields as a record. */

  datatype Isolate = Isolate(slots: seq<nat>, counter: nat, roots: seq<nat>)

  predicate Fits(c: Config, size: nat, iso: nat, roots: nat) {
    Supported(c) && RootAddress(c, iso, roots) <= size
  }

  function LoadWord(c: Config, mem: seq<byte>, a: nat): nat {
    Load(mem, a, c.pointerSize)
  }

  function View(c: Config, mem: seq<byte>, iso: nat, roots: nat): (r: Isolate)
    ensures |r.slots| == NUM_SLOTS && |r.roots| == roots
  {
    Isolate(seq(NUM_SLOTS, i requires 0 <= i < NUM_SLOTS => LoadWord(c, mem, SlotAddress(c, iso, i))),
            LoadWord(c, mem, iso + CounterOffset(c)),
            seq(roots, i requires 0 <= i < roots => LoadWord(c, mem, RootAddress(c, iso, i))))
  }

  datatype Op = SetEmbedderData(slot: nat, data: nat) | IncrementCounter

  predicate Allowed(c: Config, op: Op) {
    op.SetEmbedderData? ==> op.slot < NUM_SLOTS && op.data < WordSize(c)
  }

  // `++` on a size_t.
  function Next(c: Config, n: nat): (r: nat)
    ensures r < WordSize(c)
  {
    if n + 1 >= WordSize(c) then 0 else n + 1
  }

  // The operation on bytes: it stores one word, at a fixed offset, and nothing else.
  ghost predicate Applied(c: Config, mem: seq<byte>, mem': seq<byte>, iso: nat, op: Op) {
    match op
    case SetEmbedderData(slot, data) => Stored(mem, mem', SlotAddress(c, iso, slot), c.pointerSize, data)
    case IncrementCounter =>
      Stored(mem, mem', iso + CounterOffset(c), c.pointerSize, Next(c, LoadWord(c, mem, iso + CounterOffset(c))))
  }

  // The operation on the record.
  function Updated(c: Config, r: Isolate, op: Op): Isolate
    requires |r.slots| == NUM_SLOTS && Allowed(c, op)
  {
    match op
    case SetEmbedderData(slot, data) => r.(slots := r.slots[slot := data])
    case IncrementCounter => r.(counter := Next(c, r.counter))
  }

  lemma InBounds(c: Config, iso: nat, slot: nat)
    requires Supported(c) && slot < NUM_SLOTS
    ensures iso + CounterOffset(c) + c.pointerSize <= SlotAddress(c, iso, 0)
    ensures SlotAddress(c, iso, 0) <= SlotAddress(c, iso, slot)
    ensures SlotAddress(c, iso, slot) + c.pointerSize <= RootAddress(c, iso, 0)
  {
  }

  lemma SlotsApart(c: Config, iso: nat, i: nat, j: nat)
    requires Supported(c) && i != j
    ensures SlotAddress(c, iso, i) + c.pointerSize <= SlotAddress(c, iso, j) || SlotAddress(c, iso, j) + c.pointerSize <= SlotAddress(c, iso, i)
  {
  }

  lemma WordBytes(c: Config)
    requires Supported(c)
    ensures Pow256(c.pointerSize) == WordSize(c)
  {
  }

  lemma CounterFits(c: Config, size: nat, iso: nat, roots: nat)
    requires Fits(c, size, iso, roots)
    ensures iso + CounterOffset(c) + c.pointerSize <= size
  {
  }

  // The three parts of the record, before and after a store of the word at `a`.

  lemma RootsFollow(c: Config, iso: nat, i: nat)
    ensures RootAddress(c, iso, 0) <= RootAddress(c, iso, i)
  {
  }

  lemma RootsKept(c: Config, mem: seq<byte>, mem': seq<byte>, iso: nat, roots: nat, a: nat, v: nat)
    requires Stored(mem, mem', a, c.pointerSize, v) && a + c.pointerSize <= RootAddress(c, iso, 0)
    ensures View(c, mem', iso, roots).roots == View(c, mem, iso, roots).roots
  {
    forall i | 0 <= i < roots ensures LoadWord(c, mem', RootAddress(c, iso, i)) == LoadWord(c, mem, RootAddress(c, iso, i)) {
      RootsFollow(c, iso, i);
      LoadElsewhere(mem, mem', a, c.pointerSize, v, RootAddress(c, iso, i), c.pointerSize);
    }
  }

  lemma SlotsKept(c: Config, mem: seq<byte>, mem': seq<byte>, iso: nat, roots: nat, v: nat)
    requires Supported(c) && Stored(mem, mem', iso + CounterOffset(c), c.pointerSize, v)
    ensures View(c, mem', iso, roots).slots == View(c, mem, iso, roots).slots
  {
    forall i | 0 <= i < NUM_SLOTS ensures LoadWord(c, mem', SlotAddress(c, iso, i)) == LoadWord(c, mem, SlotAddress(c, iso, i)) {
      InBounds(c, iso, i);
      LoadElsewhere(mem, mem', iso + CounterOffset(c), c.pointerSize, v, SlotAddress(c, iso, i), c.pointerSize);
    }
  }

  lemma SlotSet(c: Config, mem: seq<byte>, mem': seq<byte>, iso: nat, roots: nat, slot: nat, data: nat)
    requires Supported(c) && slot < NUM_SLOTS && Stored(mem, mem', SlotAddress(c, iso, slot), c.pointerSize, data)
    ensures View(c, mem', iso, roots).slots == View(c, mem, iso, roots).slots[slot := data]
  {
    forall i | 0 <= i < NUM_SLOTS && i != slot ensures LoadWord(c, mem', SlotAddress(c, iso, i)) == LoadWord(c, mem, SlotAddress(c, iso, i)) {
      SlotsApart(c, iso, i, slot);
      LoadElsewhere(mem, mem', SlotAddress(c, iso, slot), c.pointerSize, data, SlotAddress(c, iso, i), c.pointerSize);
    }
  }

  lemma SetRefines(c: Config, mem: seq<byte>, mem': seq<byte>, iso: nat, roots: nat, slot: nat, data: nat)
    requires Supported(c) && slot < NUM_SLOTS && Stored(mem, mem', SlotAddress(c, iso, slot), c.pointerSize, data)
    ensures View(c, mem', iso, roots) == View(c, mem, iso, roots).(slots := View(c, mem, iso, roots).slots[slot := data])
  {
    InBounds(c, iso, slot);
    SlotSet(c, mem, mem', iso, roots, slot, data);
    LoadElsewhere(mem, mem', SlotAddress(c, iso, slot), c.pointerSize, data, iso + CounterOffset(c), c.pointerSize);
    RootsKept(c, mem, mem', iso, roots, SlotAddress(c, iso, slot), data);
  }

  lemma CounterRefines(c: Config, mem: seq<byte>, mem': seq<byte>, iso: nat, roots: nat, v: nat)
    requires Supported(c) && Stored(mem, mem', iso + CounterOffset(c), c.pointerSize, v)
    ensures View(c, mem', iso, roots) == View(c, mem, iso, roots).(counter := v)
  {
    InBounds(c, iso, 0);
    SlotsKept(c, mem, mem', iso, roots, v);
    RootsKept(c, mem, mem', iso, roots, iso + CounterOffset(c), v);
  }

  lemma IncrementRefines(c: Config, mem: seq<byte>, mem': seq<byte>, iso: nat, roots: nat)
    requires Supported(c) && Stored(mem, mem', iso + CounterOffset(c), c.pointerSize, Next(c, LoadWord(c, mem, iso + CounterOffset(c))))
    ensures View(c, mem', iso, roots) == Updated(c, View(c, mem, iso, roots), IncrementCounter)
  {
    CounterRefines(c, mem, mem', iso, roots, Next(c, LoadWord(c, mem, iso + CounterOffset(c))));
  }

  lemma OpRefines(c: Config, mem: seq<byte>, mem': seq<byte>, iso: nat, roots: nat, op: Op)
    requires Supported(c) && Allowed(c, op) && Applied(c, mem, mem', iso, op)
    ensures View(c, mem', iso, roots) == Updated(c, View(c, mem, iso, roots), op)
  {
    match op
    case SetEmbedderData(slot, data) => SetRefines(c, mem, mem', iso, roots, slot, data);
    case IncrementCounter => IncrementRefines(c, mem, mem', iso, roots);
  }

  lemma SlotsInField(c: Config, slot: nat)
    requires Supported(c) && slot < NUM_SLOTS
    ensures EmbedderDataOffset(c) <= SlotAddress(c, 0, slot)
    ensures SlotAddress(c, 0, slot) + c.pointerSize <= EmbedderDataOffset(c) + FieldSizes(c)[EMBEDDER_FIELD]
  {
  }

  /** An operation changes no byte of any field of the isolate but its own, handle-scope data included, and no root. */
  lemma OtherFieldsKept(c: Config, mem: seq<byte>, mem': seq<byte>, iso: nat, op: Op, i: nat, a: nat)
    requires Supported(c) && Allowed(c, op) && Applied(c, mem, mem', iso, op)
    requires i <= |FieldSizes(c)| && iso + Start(c, i) <= a && (i < |FieldSizes(c)| ==> a < iso + Start(c, i) + FieldSizes(c)[i])
    requires i != if op.SetEmbedderData? then EMBEDDER_FIELD else COUNTER_FIELD
    ensures At(mem', a) == At(mem, a)
  {
    OffsetsMatch(c);
    var own := if op.SetEmbedderData? then EMBEDDER_FIELD else COUNTER_FIELD;
    if i < own {
      FieldsApart(c, i, own);
    } else {
      FieldsApart(c, own, i);
    }
    if op.SetEmbedderData? {
      SlotsInField(c, op.slot);
    }
  }

  // Memory before, between and after the operations.
  ghost predicate Trace(c: Config, mems: seq<seq<byte>>, iso: nat, ops: seq<Op>) {
    && |mems| == |ops| + 1
    && (forall i :: 0 <= i < |ops| ==> Allowed(c, ops[i]) && Applied(c, mems[i], mems[i + 1], iso, ops[i]))
  }

  function UpdatedAll(c: Config, r: Isolate, ops: seq<Op>): Isolate
    requires |r.slots| == NUM_SLOTS && forall op :: op in ops ==> Allowed(c, op)
    decreases |ops|
  {
    if ops == [] then r else UpdatedAll(c, Updated(c, r, ops[0]), ops[1..])
  }

  /** Any sequence of slot writes and counter increments behaves as on a record: no field disturbs another. */
  lemma {:induction false} LayoutRefines(c: Config, mems: seq<seq<byte>>, iso: nat, roots: nat, ops: seq<Op>)
    requires Supported(c) && Trace(c, mems, iso, ops)
    ensures forall op :: op in ops ==> Allowed(c, op)
    ensures View(c, mems[|ops|], iso, roots) == UpdatedAll(c, View(c, mems[0], iso, roots), ops)
    decreases |ops|
  {
    if ops != [] {
      OpRefines(c, mems[0], mems[1], iso, roots, ops[0]);
      LayoutRefines(c, mems[1..], iso, roots, ops[1..]);
    }
  }

  function Increments(ops: seq<Op>): nat {
    if ops == [] then 0 else Increments(ops[1..]) + if ops[0].IncrementCounter? then 1 else 0
  }

  lemma NextCounts(c: Config, n: nat, k: nat)
    requires Supported(c) && n < WordSize(c)
    ensures (Next(c, n) + k) % WordSize(c) == (n + 1 + k) % WordSize(c)
  {
    if n + 1 == WordSize(c) {
      ModUnique(k, k / WordSize(c), k % WordSize(c), WordSize(c));
      ModUnique(n + 1 + k, 1 + k / WordSize(c), k % WordSize(c), WordSize(c));
    }
  }

  /** After any sequence of operations the counter has gone up by the number of increments, modulo the word. */
  lemma {:induction false} CounterCounts(c: Config, r: Isolate, ops: seq<Op>)
    requires Supported(c) && |r.slots| == NUM_SLOTS && r.counter < WordSize(c) && (forall op :: op in ops ==> Allowed(c, op))
    ensures UpdatedAll(c, r, ops).counter == (r.counter + Increments(ops)) % WordSize(c)
    decreases |ops|
  {
    if ops != [] {
      assert ops[0] in ops;
      CounterCounts(c, Updated(c, r, ops[0]), ops[1..]);
      NextCounts(c, r.counter, Increments(ops[1..]));
    }
  }

  /* The code, on raw memory. */

  // A word store, byte by byte.
  method StoreWord(mem: array<byte>, a: nat, n: nat, v: nat)
    requires a + n <= mem.Length && v < Pow256(n)
    modifies mem
    ensures Stored(old(mem[..]), mem[..], a, n, v)
  {
    ghost var was := mem[..];
    StoreIsStored(was, a, n, v);
    var x := v;
    for i := 0 to n
      invariant Store(mem[..], a + i, n - i, x) == Store(was, a, n, v)
    {
      ghost var m := mem[..];
      mem[a + i] := x % 256;
      assert mem[..] == m[a + i := x % 256];
      x := x / 256;
    }
  }

  method ReadWord(mem: array<byte>, a: nat, n: nat) returns (v: nat)
    requires a + n <= mem.Length
    ensures v == Load(mem[..], a, n)
  {
    v := 0;
    var i := n;
    while i > 0
      invariant 0 <= i <= n && v == Load(mem[..], a + i, n - i)
    {
      i := i - 1;
      LoadNext(mem[..], a + i, n - i);
      v := mem[a + i] + 256 * v;
    }
  }

  method IncrementWord(c: Config, mem: array<byte>, a: nat)
    requires Supported(c) && a + c.pointerSize <= mem.Length
    modifies mem
    ensures Stored(old(mem[..]), mem[..], a, c.pointerSize, Next(c, LoadWord(c, old(mem[..]), a)))
  {
    WordBytes(c);
    var n := ReadWord(mem, a, c.pointerSize);
    StoreWord(mem, a, c.pointerSize, Next(c, n));
  }

  class IsolateMemory {
    const c: Config
    const mem: array<byte>
    const iso: nat
    ghost const roots: nat

    ghost predicate Valid()
      reads this
    {
      Fits(c, mem.Length, iso, roots)
    }

    ghost function Fields(): (r: Isolate)
      reads this, mem
      ensures |r.slots| == NUM_SLOTS
    {
      View(c, mem[..], iso, roots)
    }

    constructor (c: Config, mem: array<byte>, iso: nat, ghost roots: nat)
      requires Fits(c, mem.Length, iso, roots)
      ensures Valid() && this.c == c && this.mem == mem && this.iso == iso && this.roots == roots
    {
      this.c, this.mem, this.iso, this.roots := c, mem, iso, roots;
    }

    method SetData(slot: nat, data: nat)
      requires Valid() && slot < NUM_SLOTS && data < WordSize(c)
      modifies mem
      ensures Applied(c, old(mem[..]), mem[..], iso, SetEmbedderData(slot, data))
      ensures Fields() == Updated(c, old(Fields()), SetEmbedderData(slot, data))
    {
      InBounds(c, iso, slot);
      RootsFollow(c, iso, roots);
      WordBytes(c);
      ghost var was := mem[..];
      StoreWord(mem, SlotAddress(c, iso, slot), c.pointerSize, data);
      SetRefines(c, was, mem[..], iso, roots, slot, data);
    }

    method GetData(slot: nat) returns (data: nat)
      requires Valid() && slot < NUM_SLOTS
      ensures data == Fields().slots[slot]
    {
      InBounds(c, iso, slot);
      RootsFollow(c, iso, roots);
      data := ReadWord(mem, SlotAddress(c, iso, slot), c.pointerSize);
    }

    method IncrementLongTasksStatsCounter()
      requires Valid()
      modifies mem
      ensures Applied(c, old(mem[..]), mem[..], iso, IncrementCounter)
      ensures Fields() == Updated(c, old(Fields()), IncrementCounter)
    {
      CounterFits(c, mem.Length, iso, roots);
      ghost var was := mem[..];
      IncrementWord(c, mem, iso + CounterOffset(c));
      OpRefines(c, was, mem[..], iso, roots, IncrementCounter);
    }

    method GetRoot(index: nat) returns (v: nat)
      requires Valid() && index < roots
      ensures v == Fields().roots[index]
    {
      v := ReadWord(mem, RootAddress(c, iso, index), c.pointerSize);
    }
  }
}
