/**
 Every call an embedder makes, and every collection, is a run of the state machine in `Runs`: what is
 proved about all runs there holds of the code in `Engine`, `Collector`, `Clearing` and `Callbacks`.
 */
module Driver {
  import opened Cells
  import opened Handles
  import opened ValueMaps
  import opened Collection
  import opened Runs
  import opened Memory
  import opened Engine
  import Accounts
  import Callbacks
  import Clearing
  import Collector
  import PlainMaps

  // Calls on handles.
  datatype HandleCall =
    | Create(value: Option<Address>)
    | CreateByMove(src: Addr)
    | Move(h: Addr, src: Addr)
    | Clear(h: Addr)
    | AssignLocal(h: Addr, value: Option<Address>)
    | AssignHandle(h: Addr, src: Addr)
    | CopyFrom(h: Addr, src: Addr)
    | MakeWeak(h: Addr)
    | ClearWeakness(h: Addr)
    | Delete(h: Addr)

  // What the API demands: handles that exist, objects that are live, and no `SetWeak` on an empty handle.
  ghost predicate HandleAllowed(w: World, call: HandleCall) {
    match call
    case Create(value) => value.Some? ==> value.value in w.objects
    case CreateByMove(src) => src in w.handles
    case Move(h, src) => h in w.handles && src in w.handles
    case Clear(h) => h in w.handles
    case AssignLocal(h, value) => h in w.handles && (value.Some? ==> value.value in w.objects)
    case AssignHandle(h, src) => h in w.handles && src in w.handles
    case CopyFrom(h, src) => h in w.handles && src in w.handles
    case MakeWeak(h) => InHandle(h) in w.at
    case ClearWeakness(h) => InHandle(h) in w.at
    case Delete(h) => h in w.handles
  }

  // The operation that the call asks for, whatever the allocator chooses.
  predicate HandleAsked(call: HandleCall, op: HandleOp) {
    match call
    case Create(value) => op.Construct? && op.value == value
    case CreateByMove(src) => op.MoveNew? && op.src == src
    case Move(h, src) => op == MoveInto(h, src)
    case Clear(h) => op == ResetOnly(h)
    case AssignLocal(h, value) => op.Assign? && op.h == h && op.value == value
    case AssignHandle(h, src) => op.Copy? && op.h == h && op.src == src
    case CopyFrom(h, src) => op.Copy? && op.h == h && op.src == src
    case MakeWeak(h) => op == MakePhantom(h)
    case ClearWeakness(h) => op == MakeStrong(h)
    case Delete(h) => op == Destruct(h)
  }

  method Construct(e: Engine, value: Option<Address>) returns (ghost op: HandleOp)
    requires e.Valid()
    modifies e
    ensures e.Valid() && op.Construct? && op.value == value && op.h !in old(e.w).handles
    ensures (value.Some? ==> Available(old(e.w), op.l)) && e.w == ResetTo(NewHandle(old(e.w), op.h), op.h, value, op.l)
  {
    var h := e.NewEmpty();
    ghost var l := e.ResetTo(h, value);
    op := HandleOp.Construct(h, value, l);
    assert InHandle(h) !in old(e.w).at;
  }

  // Nothing is allocated when the handle copied from is empty, so any available cell will do.
  lemma CopyOf(w: World, h: Addr, src: Addr, l: Loc) returns (op: HandleOp)
    requires Owned(w) && h in w.handles && src in w.handles
    requires Referent(Reset(w, h), src).Some? ==> Available(Reset(w, h), l)
    ensures op.Copy? && op.h == h && op.src == src && Available(Reset(w, h), op.l)
    ensures ResetFrom(w, h, src, op.l) == ResetFrom(w, h, src, l)
  {
    var x := l;
    if Referent(Reset(w, h), src).None? {
      FreshNat(Reset(w, h).cells.Keys, 1);
      x :| x >= 1 && x !in Reset(w, h).cells.Keys;
    }
    op := HandleOp.Copy(h, src, x);
  }

  // A call on a handle, and the operation it amounts to.
  method CallHandle(e: Engine, call: HandleCall) returns (ghost op: HandleOp)
    requires e.Valid() && HandleAllowed(e.w, call)
    modifies e
    ensures e.Valid() && HandleAsked(call, op) && HandleEnabled(old(e.w), op) && e.w == HandleStep(old(e.w), op)
  {
    match call
    case Create(value) => op := Construct(e, value);
    case CreateByMove(src) =>
      var h := e.MoveConstruct(src);
      op := MoveNew(h, src);
    case Move(h, src) =>
      e.MoveAssign(h, src);
      op := MoveInto(h, src);
    case Clear(h) =>
      e.Reset(h);
      op := ResetOnly(h);
    case AssignLocal(h, value) =>
      ghost var l := e.ResetTo(h, value);
      op := Assign(h, value, l);
    case AssignHandle(h, src) =>
      ghost var l := e.ResetFrom(h, src);
      op := CopyOf(old(e.w), h, src, l);
    case CopyFrom(h, src) =>
      ghost var l := e.Copy(h, src);
      op := CopyOf(old(e.w), h, src, l);
    case MakeWeak(h) =>
      assert h in e.slots && e.slots[h] != Null;
      e.SetPhantom(h);
      op := MakePhantom(h);
    case ClearWeakness(h) =>
      assert h in e.slots && e.slots[h] != Null;
      e.ClearWeak(h);
      op := MakeStrong(h);
    case Delete(h) =>
      e.Destroy(h);
      op := Destruct(h);
  }

  // Calls on maps that are one step each.
  datatype MapCall =
    | CreateMap(kind: Kind, weak: bool)
    | Put(m: MapId, k: Key, h: Addr)
    | PutWithReference(m: MapId, k: Key, h: Addr)
    | Take(m: MapId, k: Key)

  ghost predicate MapAllowed(e: Engine, call: MapCall)
    reads e
  {
    match call
    case CreateMap(_, _) => true
    case Put(m, _, h) => Settable(e.V(), m, h)
    case PutWithReference(m, _, h) => Settable(e.V(), m, h)
    case Take(m, _) => m in e.impls
  }

  predicate MapAsked(call: MapCall, op: MapOp) {
    match call
    case CreateMap(kind, weak) => op.NewMap? && op.kind == kind && op.weak == weak
    case Put(m, k, h) => op.Set? && op.m == m && op.k == k && op.h == h
    case PutWithReference(m, k, h) => op.Set? && op.m == m && op.k == k && op.h == h
    case Take(m, k) => op.Take? && op.m == m && op.k == k
  }

  method CallMap(e: Engine, call: MapCall) returns (ghost op: MapOp)
    requires e.Valid() && Kinds(e.w) && MapAllowed(e, call)
    modifies e
    ensures e.Valid() && MapAsked(call, op) && MapEnabled(old(e.w), op)
    ensures match op
            case NewMap(m, kind, weak) => e.w == old(e.w).(maps := old(e.w).maps[m := MapInfo(kind, weak, m)])
            case Set(m, k, h, d, r) => CanSet(old(e.w), m, h, d, r) && e.w == SetUnique(old(e.w), m, k, h, d, r)
            case Take(m, k, r) => e.w == Remove(old(e.w), m, k, r)
            case _ => false
  {
    match call
    case CreateMap(kind, weak) =>
      var m := e.NewMap(kind, weak);
      op := MapOp.NewMap(m, kind, weak);
    case Put(m, k, h) =>
      ghost var d := e.nextData;
      var r := e.SetUnique(m, k, h);
      op := MapOp.Set(m, k, h, d, r);
    case PutWithReference(m, k, h) =>
      ghost var d := e.nextData;
      var r, _ := e.SetWithReference(m, k, h);
      op := MapOp.Set(m, k, h, d, r);
    case Take(m, k) =>
      var r := e.Remove(m, k);
      op := MapOp.Take(m, k, r);
  }

  // What happens to an isolate in one step: the embedder's calls, new objects, and collections.
  datatype Single =
    | OfHandle(hcall: HandleCall)
    | OfMap(mcall: MapCall)
    | Allocate(a: Address, id: ObjectId)
    | Collect(dead: set<Address>, reloc: map<Address, Address>)

  ghost predicate SingleAllowed(e: Engine, call: Single)
    reads e
  {
    match call
    case OfHandle(hcall) => HandleAllowed(e.w, hcall)
    case OfMap(mcall) => MapAllowed(e, mcall)
    case Allocate(a, id) => a !in e.w.objects && id !in e.w.objects.Values
    case Collect(dead, reloc) => CanCollect(e.w, dead, reloc)
  }

  predicate Asked(call: Single, op: Op) {
    match call
    case OfHandle(hcall) => op.OnHandle? && HandleAsked(hcall, op.hop)
    case OfMap(mcall) => op.OnMap? && MapAsked(mcall, op.mop)
    case Allocate(a, id) => op == NewObject(a, id)
    case Collect(dead, reloc) => op == Gc(dead, reloc)
  }

  ghost predicate Stepped(w: World, op: Op, w': World) {
    Inv(w) && Enabled(w, op) && w' == Step(w, op)
  }

  method ExecuteHandle(e: Engine, call: HandleCall) returns (ghost op: Op)
    requires e.Valid() && Inv(e.w) && HandleAllowed(e.w, call)
    modifies e
    ensures e.Valid() && Asked(OfHandle(call), op) && Stepped(old(e.w), op, e.w)
  {
    ghost var hop := CallHandle(e, call);
    op := OnHandle(hop);
  }

  method ExecuteMap(e: Engine, call: MapCall) returns (ghost op: Op)
    requires e.Valid() && Inv(e.w) && MapAllowed(e, call)
    modifies e
    ensures e.Valid() && Asked(OfMap(call), op) && Stepped(old(e.w), op, e.w)
  {
    ghost var mop := CallMap(e, call);
    op := OnMap(mop);
  }

  // A new object is not seen in the memory modelled here.
  method ExecuteAllocation(e: Engine, a: Address, id: ObjectId) returns (ghost op: Op)
    requires e.Valid() && Inv(e.w) && a !in e.w.objects && id !in e.w.objects.Values
    modifies e
    ensures e.Valid() && Asked(Allocate(a, id), op) && Stepped(old(e.w), op, e.w)
  {
    op := NewObject(a, id);
    MirrorsObject(e.V(), e.w, a, id);
    e.w := e.w.(objects := e.w.objects[a := id]);
  }

  lemma MirrorsObject(v: Mem, w: World, a: Address, id: ObjectId)
    requires Mirrors(v, w)
    ensures Mirrors(v, w.(objects := w.objects[a := id]))
  {
    OwnedFrame(w, w.(objects := w.objects[a := id]));
  }

  lemma GcStepped(w: World, op: Op, w': World)
    requires Inv(w) && op.Gc? && CanCollect(w, op.dead, op.reloc) && w' == Collection.Collect(w, op.dead, op.reloc)
    ensures Stepped(w, op, w')
  {
    assert Step(w, op) == Collection.Collect(w, op.dead, op.reloc);
  }

  method ExecuteCollection(e: Engine, dead: set<Address>, reloc: map<Address, Address>) returns (ghost op: Op)
    requires e.Valid() && Inv(e.w) && CanCollect(e.w, dead, reloc)
    modifies e
    ensures e.Valid() && Asked(Collect(dead, reloc), op) && Stepped(old(e.w), op, e.w)
  {
    Collector.CollectGarbage(e, dead, reloc);
    op := Gc(dead, reloc);
    GcStepped(old(e.w), op, e.w);
  }

  method ExecuteSingle(e: Engine, call: Single) returns (ghost op: Op)
    requires e.Valid() && Inv(e.w) && SingleAllowed(e, call)
    modifies e
    ensures e.Valid() && Asked(call, op) && Stepped(old(e.w), op, e.w)
  {
    match call
    case OfHandle(hcall) => op := ExecuteHandle(e, hcall);
    case OfMap(mcall) => op := ExecuteMap(e, mcall);
    case Allocate(a, id) => op := ExecuteAllocation(e, a, id);
    case Collect(dead, reloc) => op := ExecuteCollection(e, dead, reloc);
  }

  // And in many: a map is cleared or destroyed, with an embedder that reacts; the second pass runs.
  datatype Call =
    | One(call: Single)
    | ClearMap(m: MapId, reactions: seq<Accounts.Reaction>)
    | DeleteMap(m: MapId, reactions: seq<Accounts.Reaction>)
    | RunCallbacks(acts: seq<Callbacks.Act>)

  ghost predicate Allowed(e: Engine, call: Call)
    reads e
  {
    match call
    case One(single) => SingleAllowed(e, single)
    case ClearMap(m, reactions) => Clearing.Home(e.w, m) && Accounts.Live(reactions, e.w.objects)
    case DeleteMap(m, reactions) => AtRest(e.w, m) && Accounts.Live(reactions, e.w.objects)
    case RunCallbacks(acts) => exists vs :: Callbacks.Follow(acts, vs) && vs[0] == e.w
  }

  // What the operations of a call are, and where they lead.
  ghost predicate Done(w: World, call: Call, ops: seq<Op>, w': World) {
    match call
    case One(single) => |ops| == 1 && Asked(single, ops[0])
    case ClearMap(m, reactions) => Direct(ops) && PlainMaps.Contents(w', m) == map[] && Answered(ops, m, reactions)
    case DeleteMap(m, reactions) => Direct(ops) && w'.maps == w.maps - {m} && Answered(ops, m, reactions)
    case RunCallbacks(_) => w'.books.second == multiset{}
  }

  // The calls on the map that the embedder's reactions ask for, as far as they were called for.
  ghost predicate Answered(ops: seq<Op>, m: MapId, reactions: seq<Accounts.Reaction>) {
    exists rest :: Accounts.Suffix(rest, reactions) && Edits(ops, m) == Accounts.Asked(reactions, rest)
  }

  /** Whatever happens is a run from the state before to the state after, of the operations asked for, and keeps the invariant. */
  method Execute(e: Engine, call: Call) returns (ghost ops: seq<Op>)
    requires e.Valid() && Inv(e.w) && Allowed(e, call)
    modifies e
    ensures e.Valid() && CanRun(old(e.w), ops) && Run(old(e.w), ops) == e.w && Inv(e.w) && Done(old(e.w), call, ops, e.w)
  {
    ghost var w := e.w;
    match call {
      case One(single) =>
        ghost var op := ExecuteSingle(e, single);
        ViaStep(w, op);
        ops := [op];
      case ClearMap(m, reactions) =>
        var rest, _, _ := Clearing.Clear(e, m, reactions);
        ops :| Direct(ops) && Via(w, ops, e.w) && Edits(ops, m) == Accounts.Asked(reactions, rest);
      case DeleteMap(m, reactions) =>
        var rest, _, _ := Clearing.DestroyMap(e, m, reactions);
        ops :| Direct(ops) && Via(w, ops, e.w) && Edits(ops, m) == Accounts.Asked(reactions, rest);
      case RunCallbacks(acts) =>
        ghost var vs :| Callbacks.Follow(acts, vs) && vs[0] == e.w;
        var n;
        n, ops := Callbacks.InvokeSecondPassPhantomCallbacks(e, acts, vs);
    }
    ViaIsRun(w, ops, e.w);
  }
}
