/**
 Whole runs: any sequence of handle operations, map operations, collections and second-pass
 callbacks, in any order, over any number of handles and maps.
 */
module Runs {
  import opened Cells
  import opened Handles
  import opened ValueMaps
  import opened Collection
  import opened Paths
  import opened Sequences

  datatype Op =
    | NewObject(a: Address, id: ObjectId)
    | OnHandle(hop: HandleOp)
    | OnMap(mop: MapOp)
    | Gc(dead: set<Address>, reloc: map<Address, Address>)
    | RunSecondPass(d: DataId)

  ghost predicate Enabled(w: World, op: Op) {
    match op
    case NewObject(a, id) => a !in w.objects && id !in w.objects.Values
    case OnHandle(hop) => HandleEnabled(w, hop)
    case OnMap(mop) => MapEnabled(w, mop)
    case Gc(dead, reloc) => CanCollect(w, dead, reloc)
    case RunSecondPass(d) => d in w.books.second
  }

  ghost function Step(w: World, op: Op): World
    requires Inv(w) && Enabled(w, op)
  {
    match op
    case NewObject(a, id) => w.(objects := w.objects[a := id])
    case OnHandle(hop) => HandleStep(w, hop)
    case OnMap(mop) => MapStep(w, mop)
    case Gc(dead, reloc) => Collect(w, dead, reloc)
    case RunSecondPass(d) => SecondPass(w, d)
  }

  /** Every operation keeps the invariant. */
  lemma InvStep(w: World, op: Op)
    requires Inv(w) && Enabled(w, op)
    ensures Inv(Step(w, op))
  {
    match op
    case NewObject(_, _) =>
      assert forall a, b :: a in w.objects && b in w.objects && w.objects[a] == w.objects[b] ==> Same(a, b);
      InvFrame(w, Step(w, op));
    case OnHandle(hop) => InvHandleStep(w, hop);
    case OnMap(mop) => InvMapStep(w, mop);
    case Gc(dead, reloc) => InvCollect(w, dead, reloc);
    case RunSecondPass(d) => InvSecondPass(w, d);
  }

  ghost predicate CanRun(w: World, ops: seq<Op>)
    requires Inv(w)
    decreases |ops|
  {
    ops == [] || (Enabled(w, ops[0]) && (InvStep(w, ops[0]); CanRun(Step(w, ops[0]), ops[1..])))
  }

  ghost function Run(w: World, ops: seq<Op>): World
    requires Inv(w) && CanRun(w, ops)
    decreases |ops|
  {
    if ops == [] then w else (InvStep(w, ops[0]); Run(Step(w, ops[0]), ops[1..]))
  }

  lemma {:induction false} RunKeepsInv(w: World, ops: seq<Op>)
    requires Inv(w) && CanRun(w, ops)
    ensures Inv(Run(w, ops))
    decreases |ops|
  {
    if ops != [] {
      InvStep(w, ops[0]);
      RunKeepsInv(Step(w, ops[0]), ops[1..]);
    }
  }

  /* Runs from one world to another. */

  ghost predicate Takes(w: World, op: Op, w': World) {
    Inv(w) && Enabled(w, op) && Step(w, op) == w' && Inv(w')
  }

  // The operations lead from `w` to `w'`.
  ghost predicate Via(w: World, ops: seq<Op>, w': World) {
    Inv(w) && exists ws :: Path(Takes, ws, ops) && ws[0] == w && ws[|ops|] == w'
  }

  lemma {:induction false} PathIsRun(ws: seq<World>, ops: seq<Op>)
    requires Path(Takes, ws, ops) && Inv(ws[0])
    ensures CanRun(ws[0], ops) && Run(ws[0], ops) == ws[|ops|] && Inv(ws[|ops|])
    decreases |ops|
  {
    if ops != [] {
      PathTail(Takes, ws, ops);
      PathIsRun(ws[1..], ops[1..]);
    }
  }

  /** What `Via` says is a run. */
  lemma ViaIsRun(w: World, ops: seq<Op>, w': World)
    requires Via(w, ops, w')
    ensures Inv(w) && CanRun(w, ops) && Run(w, ops) == w' && Inv(w')
  {
    var ws :| Path(Takes, ws, ops) && ws[0] == w && ws[|ops|] == w';
    PathIsRun(ws, ops);
  }

  // Handle and map operations only: no collection, and no second-pass callback.
  predicate Direct(ops: seq<Op>) {
    forall op :: op in ops ==> op.OnHandle? || op.OnMap?
  }

  // The calls of `Set` and `Remove` on one map.
  datatype Edit = Sets(k: Key) | Removes(k: Key)

  function EditsOf(op: Op, m: MapId): seq<Edit> {
    match op
    case OnMap(Set(m', k, _, _, _)) => if m' == m then [Sets(k)] else []
    case OnMap(Take(m', k, _)) => if m' == m then [Removes(k)] else []
    case _ => []
  }

  function Edits(ops: seq<Op>, m: MapId): seq<Edit> {
    FlatMap(op => EditsOf(op, m), ops)
  }

  lemma EditsConcat(a: seq<Op>, b: seq<Op>, m: MapId)
    ensures Edits(a + b, m) == Edits(a, m) + Edits(b, m)
  {
    FlatMapConcat(op => EditsOf(op, m), a, b);
  }

  lemma EditsOne(op: Op, m: MapId)
    ensures Edits([op], m) == EditsOf(op, m)
  {
    FlatMapOne(x => EditsOf(x, m), op);
  }

  // Such operations lead from `w` to `w'`, among them exactly these calls on map `m`, in this order.
  ghost predicate Leads(w: World, w': World, m: MapId, es: seq<Edit>) {
    exists ops :: Direct(ops) && Via(w, ops, w') && Edits(ops, m) == es
  }

  lemma ViaTrans(w: World, a: seq<Op>, w1: World, b: seq<Op>, w2: World)
    requires Via(w, a, w1) && Via(w1, b, w2)
    ensures Via(w, a + b, w2)
  {
    var u :| Path(Takes, u, a) && u[0] == w && u[|a|] == w1;
    var v :| Path(Takes, v, b) && v[0] == w1 && v[|b|] == w2;
    PathConcat(Takes, u, a, v, b);
  }

  lemma ViaStep(w: World, op: Op)
    requires Inv(w) && Enabled(w, op)
    ensures Via(w, [op], Step(w, op)) && Inv(Step(w, op))
  {
    InvStep(w, op);
    assert Takes(w, op, Step(w, op));
    assert Path(Takes, [w, Step(w, op)], [op]);
  }

  lemma ViaNone(w: World)
    requires Inv(w)
    ensures Via(w, [], w)
  {
    assert Path(Takes, [w], []);
  }

  lemma LeadsNone(w: World, m: MapId)
    requires Inv(w)
    ensures Leads(w, w, m, [])
  {
    ViaNone(w);
    assert Direct([]) && Edits([], m) == [];
  }

  lemma LeadsStep(w: World, op: Op, m: MapId)
    requires Inv(w) && Enabled(w, op) && (op.OnHandle? || op.OnMap?)
    ensures Leads(w, Step(w, op), m, EditsOf(op, m)) && Inv(Step(w, op))
  {
    ViaStep(w, op);
    EditsOne(op, m);
    assert Direct([op]);
  }

  lemma LeadsTrans(w: World, w1: World, w2: World, m: MapId, es1: seq<Edit>, es2: seq<Edit>)
    requires Leads(w, w1, m, es1) && Leads(w1, w2, m, es2)
    ensures Leads(w, w2, m, es1 + es2)
  {
    var a :| Direct(a) && Via(w, a, w1) && Edits(a, m) == es1;
    var b :| Direct(b) && Via(w1, b, w2) && Edits(b, m) == es2;
    ViaTrans(w, a, w1, b, w2);
    EditsConcat(a, b, m);
    assert Direct(a + b);
  }

  // Steps before and after that make no call on the map.
  lemma LeadsAround(w: World, w1: World, w2: World, w3: World, m: MapId, es: seq<Edit>)
    requires Leads(w, w1, m, []) && Leads(w1, w2, m, es) && Leads(w2, w3, m, [])
    ensures Leads(w, w3, m, es)
  {
    LeadsTrans(w, w1, w2, m, [], es);
    assert [] + es == es && es + [] == es;
    LeadsTrans(w, w2, w3, m, es, []);
  }

  lemma LeadsInv(w: World, w': World, m: MapId, es: seq<Edit>)
    requires Leads(w, w', m, es)
    ensures Inv(w) && Inv(w')
  {
    var ops :| Direct(ops) && Via(w, ops, w') && Edits(ops, m) == es;
    ViaIsRun(w, ops, w');
  }

  // An isolate before any handle or map exists.
  const Initial: World := World(map[], map[], {}, map[], Books(map[], multiset{}, {}, multiset{}, multiset{}), map[])

  lemma InitialInv()
    ensures Inv(Initial)
  {
  }

  ghost predicate Reachable(w: World) {
    InitialInv();
    exists ops :: CanRun(Initial, ops) && Run(Initial, ops) == w
  }

  /** The invariant holds in every state that any run reaches. */
  lemma ReachableInv(w: World)
    requires Reachable(w)
    ensures Inv(w)
  {
    InitialInv();
    var ops :| CanRun(Initial, ops) && Run(Initial, ops) == w;
    RunKeepsInv(Initial, ops);
  }
}
