/**
 The value maps as plain maps from keys to objects, whatever the collector moves.
 */
module PlainMaps {
  import opened Cells
  import opened Handles
  import opened ValueMaps
  import opened Collection
  import opened Runs
  import opened Frames

  type Plain = map<Key, ObjectId>

  ghost function Contents(w: World, m: MapId): Plain {
    map p | p in w.at && p.InImpl? && p.m == m && ObjectOf(w, p).Some? :: p.k := ObjectOf(w, p).value
  }

  function Lookup(c: Plain, k: Key): Option<ObjectId> {
    if k in c then Some(c[k]) else None
  }

  lemma ContentsAll(w: World, m: MapId)
    ensures forall k :: Lookup(Contents(w, m), k) == ObjectOf(w, InImpl(m, k))
  {
  }

  lemma PlainEqual(c: Plain, c': Plain)
    requires forall k :: Lookup(c, k) == Lookup(c', k)
    ensures c == c'
  {
    assert forall k :: k in c <==> Lookup(c, k).Some?;
    assert forall k :: k in c' <==> Lookup(c', k).Some?;
    assert forall k :: k in c ==> Lookup(c, k) == Some(c[k]);
  }

  // What an operation does to the plain map of `m`.
  ghost function Effect(w: World, op: Op, m: MapId): Plain
    requires Inv(w) && Enabled(w, op)
  {
    var c := Contents(w, m);
    match op
    case OnMap(Set(m', k, h, _, _)) => if m' == m then c[k := w.objects[Referent(w, h).value]] else c
    case OnMap(Take(m', k, _)) => if m' == m then c - {k} else c
    case OnMap(BeginClear(m', f)) => if m' == m then map[] else if f == m then Contents(w, m') else c
    case Gc(dead, _) => map k | k in c && !Dies(w, dead, At(w, InImpl(m, k))) :: c[k]
    case _ => c
  }

  /* The object in every place, after each kind of operation. */

  lemma ObjectsRemove(w: World, m: MapId, k: Key, r: Addr)
    requires Inv(w) && r !in w.handles
    ensures forall p :: ObjectOf(Remove(w, m, k, r), p) ==
                        if p == InHandle(r) then ObjectOf(w, InImpl(m, k)) else if p == InImpl(m, k) then None else ObjectOf(w, p)
  {
  }

  lemma ObjectsInsert(w: World, m: MapId, k: Key, h: Addr, d: DataId)
    requires Inv(w) && m in w.maps && InHandle(h) in w.at && InImpl(m, k) !in w.at
    ensures forall p :: ObjectOf(Insert(w, m, k, h, d), p) ==
                        if p == InImpl(m, k) then ObjectOf(w, InHandle(h)) else if p == InHandle(h) then None else ObjectOf(w, p)
  {
  }

  /** `SetUnique` puts the handle's object under the key, and gives back a handle to the old one. */
  lemma ObjectsSet(w: World, m: MapId, k: Key, h: Addr, d: DataId, r: Addr)
    requires Inv(w) && CanSet(w, m, h, d, r)
    ensures forall p :: ObjectOf(SetUnique(w, m, k, h, d, r), p) ==
                        if p == InImpl(m, k) then ObjectOf(w, InHandle(h))
                        else if p == InHandle(r) then ObjectOf(w, InImpl(m, k))
                        else if p == InHandle(h) then None
                        else ObjectOf(w, p)
  {
    var w1 := Remove(w, m, k, r);
    InvRemove(w, m, k, r);
    RemoveLeaves(w, m, k, r);
    ObjectsRemove(w, m, k, r);
    ObjectsInsert(w1, m, k, h, d);
    assert InHandle(r) !in w.at;
  }

  lemma ObjectsSwap(w: World, m: MapId, f: MapId)
    requires Inv(w) && m in w.maps && f !in w.maps
    ensures forall p :: ObjectOf(SwapOut(w, m, f), p) ==
                        if p.InImpl? && p.m == m then None
                        else if p.InImpl? && p.m == f then ObjectOf(w, InImpl(m, p.k))
                        else ObjectOf(w, p)
  {
  }

  /** Moving objects changes no place's object; only the dead weak places become null. */
  lemma ObjectsGc(w: World, dead: set<Address>, reloc: map<Address, Address>)
    requires Inv(w) && CanCollect(w, dead, reloc)
    ensures forall p :: ObjectOf(Collect(w, dead, reloc), p) == if Dies(w, dead, At(w, p)) then None else ObjectOf(w, p)
  {
  }

  lemma ObjectsHandle(w: World, op: HandleOp)
    requires Inv(w) && HandleEnabled(w, op)
    ensures forall p: Place :: p.InImpl? ==> ObjectOf(HandleStep(w, op), p) == ObjectOf(w, p)
  {
    KeptStep(w, op);
    forall p: Place | p.InImpl? ensures ObjectOf(HandleStep(w, op), p) == ObjectOf(w, p) {
      AgreeHandle(w, op, p);
    }
  }

  lemma EffectSetAt(w: World, m': MapId, k': Key, h: Addr, d: DataId, r: Addr, m: MapId, k: Key)
    requires Inv(w) && CanSet(w, m', h, d, r)
    ensures ObjectOf(SetUnique(w, m', k', h, d, r), InImpl(m, k)) == Lookup(Effect(w, OnMap(Set(m', k', h, d, r)), m), k)
  {
    ContentsAll(w, m);
    ObjectsSet(w, m', k', h, d, r);
  }

  lemma EffectSet(w: World, m': MapId, k': Key, h: Addr, d: DataId, r: Addr, m: MapId)
    requires Inv(w) && CanSet(w, m', h, d, r)
    ensures forall k :: ObjectOf(SetUnique(w, m', k', h, d, r), InImpl(m, k)) == Lookup(Effect(w, OnMap(Set(m', k', h, d, r)), m), k)
  {
    forall k ensures ObjectOf(SetUnique(w, m', k', h, d, r), InImpl(m, k)) == Lookup(Effect(w, OnMap(Set(m', k', h, d, r)), m), k) {
      EffectSetAt(w, m', k', h, d, r, m, k);
    }
  }

  lemma EffectTake(w: World, m': MapId, k': Key, r: Addr, m: MapId)
    requires Inv(w) && MapEnabled(w, Take(m', k', r))
    ensures forall k :: ObjectOf(Remove(w, m', k', r), InImpl(m, k)) == Lookup(Effect(w, OnMap(Take(m', k', r)), m), k)
  {
    ContentsAll(w, m);
    ObjectsRemove(w, m', k', r);
  }

  lemma EffectSwap(w: World, m': MapId, f: MapId, m: MapId)
    requires Inv(w) && MapEnabled(w, BeginClear(m', f))
    ensures forall k :: ObjectOf(SwapOut(w, m', f), InImpl(m, k)) == Lookup(Effect(w, OnMap(BeginClear(m', f)), m), k)
  {
    ContentsAll(w, m);
    ContentsAll(w, m');
    ObjectsSwap(w, m', f);
  }

  lemma EffectMap(w: World, op: MapOp, m: MapId)
    requires Inv(w) && MapEnabled(w, op)
    ensures forall k :: ObjectOf(MapStep(w, op), InImpl(m, k)) == Lookup(Effect(w, OnMap(op), m), k)
  {
    match op
    case NewMap(_, _, _) => ContentsAll(w, m);
    case Set(m', k, h, d, r) => EffectSet(w, m', k, h, d, r, m);
    case Take(m', k, r) => EffectTake(w, m', k, r, m);
    case BeginClear(m', f) => EffectSwap(w, m', f, m);
    case EndClear(_) => ContentsAll(w, m);
    case DropMap(_) => ContentsAll(w, m);
  }

  lemma EffectNewObject(w: World, a: Address, id: ObjectId)
    requires Inv(w) && a !in w.objects
    ensures forall p :: ObjectOf(w.(objects := w.objects[a := id]), p) == ObjectOf(w, p)
  {
  }

  lemma EffectAt(w: World, op: Op, m: MapId)
    requires Inv(w) && Enabled(w, op)
    ensures forall k :: ObjectOf(Step(w, op), InImpl(m, k)) == Lookup(Effect(w, op, m), k)
  {
    ContentsAll(w, m);
    match op
    case NewObject(a, id) => EffectNewObject(w, a, id);
    case OnHandle(hop) => ObjectsHandle(w, hop);
    case OnMap(mop) => EffectMap(w, mop, m);
    case Gc(dead, reloc) => ObjectsGc(w, dead, reloc);
    case RunSecondPass(_) =>
  }

  /**
   The map class refines a plain map: every operation, on any map or handle, and every collection
   changes the contents of each map exactly as the plain-map operation does.
   */
  lemma MapRefines(w: World, op: Op, m: MapId)
    requires Inv(w) && Enabled(w, op)
    ensures Contents(Step(w, op), m) == Effect(w, op, m)
  {
    EffectAt(w, op, m);
    ContentsAll(Step(w, op), m);
    PlainEqual(Contents(Step(w, op), m), Effect(w, op, m));
  }

  /* Weak maps and others. */

  function DeadObjects(w: World, dead: set<Address>): set<ObjectId> {
    set a | a in dead && a in w.objects :: w.objects[a]
  }

  lemma EntryDies(w: World, dead: set<Address>, m: MapId, k: Key)
    requires Inv(w) && InImpl(m, k) in w.at
    ensures m in w.maps && ObjectOf(w, InImpl(m, k)).Some?
    ensures Dies(w, dead, At(w, InImpl(m, k))) <==> w.maps[m].weak && ObjectOf(w, InImpl(m, k)).value in DeadObjects(w, dead)
  {
    var l := w.at[InImpl(m, k)];
    assert Fits(w, l, w.cells[l]);
    var a := w.cells[l].node.obj;
    if w.objects[a] in DeadObjects(w, dead) {
      var b :| b in dead && b in w.objects && w.objects[b] == w.objects[a];
      assert Same(a, b);
    }
  }

  lemma EntryOf(w: World, m: MapId, k: Key)
    requires Inv(w) && k in Contents(w, m)
    ensures InImpl(m, k) in w.at && ObjectOf(w, InImpl(m, k)) == Some(Contents(w, m)[k])
  {
    ContentsAll(w, m);
    assert Lookup(Contents(w, m), k) == ObjectOf(w, InImpl(m, k));
  }

  // What is left of a map when the objects in `gone` have died.
  function Left(c: Plain, weak: bool, gone: set<ObjectId>): Plain {
    map k | k in c && !(weak && c[k] in gone) :: c[k]
  }

  lemma LosesDead(w: World, op: Op, m: MapId, k: Key)
    requires Inv(w) && Enabled(w, op) && op.Gc? && m in w.maps && k in Contents(w, m)
    ensures k in Effect(w, op, m) <==> k in Left(Contents(w, m), w.maps[m].weak, DeadObjects(w, op.dead))
  {
    EntryOf(w, m, k);
    EntryDies(w, op.dead, m, k);
  }

  /** A collection takes from a weak map exactly the entries of dead objects, and from any other map nothing. */
  lemma WeakMapLosesDead(w: World, op: Op, m: MapId)
    requires Inv(w) && Enabled(w, op) && op.Gc? && m in w.maps
    ensures Contents(Step(w, op), m) == Left(Contents(w, m), w.maps[m].weak, DeadObjects(w, op.dead))
  {
    MapRefines(w, op, m);
    var c, c' := Effect(w, op, m), Left(Contents(w, m), w.maps[m].weak, DeadObjects(w, op.dead));
    forall k | k in Contents(w, m) ensures k in c <==> k in c' {
      LosesDead(w, op, m, k);
    }
    SameLeft(Contents(w, m), c, c');
  }

  lemma SameLeft(c: Plain, c1: Plain, c2: Plain)
    requires forall k :: k in c1 ==> k in c && c1[k] == c[k]
    requires forall k :: k in c2 ==> k in c && c2[k] == c[k]
    requires forall k :: k in c ==> (k in c1 <==> k in c2)
    ensures c1 == c2
  {
  }

  lemma MapKept(w: World, op: Op, m: MapId)
    requires Inv(w) && Enabled(w, op) && m in w.maps && w.maps[m].home == m && op != OnMap(DropMap(m))
    ensures m in Step(w, op).maps && Step(w, op).maps[m] == w.maps[m]
  {
    if op.OnHandle? {
      KeptStep(w, op.hop);
    }
  }

  /** A map stays of the kind, and as weak, as it was made, until it is destroyed. */
  lemma {:induction false} MapForLife(w: World, m: MapId, ops: seq<Op>)
    requires Inv(w) && CanRun(w, ops) && m in w.maps && w.maps[m].home == m && OnMap(DropMap(m)) !in ops
    ensures m in Run(w, ops).maps && Run(w, ops).maps[m] == w.maps[m]
    decreases |ops|
  {
    if ops != [] {
      assert ops[0] in ops;
      InvStep(w, ops[0]);
      MapKept(w, ops[0], m);
      MapForLife(Step(w, ops[0]), m, ops[1..]);
    }
  }

  /** What a map loses to any later collection is decided by whether it was made weak. */
  lemma MadeWeak(w: World, ops: seq<Op>, m: MapId, kind: Kind, weak: bool, w': World, op: Op)
    requires Inv(w) && ops != [] && ops[0] == OnMap(NewMap(m, kind, weak)) && OnMap(DropMap(m)) !in ops[1..]
    requires CanRun(w, ops) && w' == Run(w, ops) && Inv(w') && Enabled(w', op) && op.Gc?
    ensures m in w'.maps && w'.maps[m].kind == kind
    ensures Contents(Step(w', op), m) == Left(Contents(w', m), weak, DeadObjects(w', op.dead))
  {
    InvStep(w, ops[0]);
    MapForLife(Step(w, ops[0]), m, ops[1..]);
    WeakMapLosesDead(w', op, m);
  }

  /* `PersistentValueReference`: the raw cell address of an entry, kept by the embedder. */

  // The operations after which `GetReference` says the reference is invalid.
  predicate Invalidates(w: World, op: Op, m: MapId, k: Key) {
    match op
    case OnMap(mop) =>
      mop.m == m && ((mop.Set? && mop.k == k) || (mop.Take? && mop.k == k) || mop.BeginClear?)
    case Gc(dead, _) => Dies(w, dead, At(w, InImpl(m, k)))
    case _ => false
  }

  // What `NewLocal` on the reference gives.
  ghost function Deref(w: World, v: Loc): Option<ObjectId> {
    if v in w.cells && !w.cells[v].node.NearDeath? && w.cells[v].node.obj in w.objects
    then Some(w.objects[w.cells[v].node.obj]) else None
  }

  lemma ReferenceStep(w: World, op: Op, m: MapId, k: Key)
    requires Inv(w) && Enabled(w, op) && InImpl(m, k) in w.at && !Invalidates(w, op, m, k)
    ensures At(Step(w, op), InImpl(m, k)) == At(w, InImpl(m, k))
  {
    if !op.Gc? {
      assert m in w.maps;
      AgreeStep(w, op, InImpl(m, k));
    }
  }

  ghost predicate NeverInvalidated(w: World, ops: seq<Op>, m: MapId, k: Key)
    requires Inv(w) && CanRun(w, ops)
    decreases |ops|
  {
    ops == [] || (!Invalidates(w, ops[0], m, k) && (InvStep(w, ops[0]); NeverInvalidated(Step(w, ops[0]), ops[1..], m, k)))
  }

  lemma KeptObject(w: World, op: Op, m: MapId, k: Key)
    requires Inv(w) && Enabled(w, op) && InImpl(m, k) in w.at && !Invalidates(w, op, m, k)
    ensures ObjectOf(Step(w, op), InImpl(m, k)) == ObjectOf(w, InImpl(m, k))
  {
    ContentsAll(w, m);
    EffectAt(w, op, m);
  }

  /** A reference still reads the map's object after any run that does not invalidate it. */
  lemma {:induction false} ReferenceRun(w: World, ops: seq<Op>, m: MapId, k: Key)
    requires Inv(w) && CanRun(w, ops) && InImpl(m, k) in w.at && NeverInvalidated(w, ops, m, k)
    ensures At(Run(w, ops), InImpl(m, k)) == At(w, InImpl(m, k))
    ensures Deref(Run(w, ops), At(w, InImpl(m, k))) == Lookup(Contents(Run(w, ops), m), k) == Lookup(Contents(w, m), k)
    decreases |ops|
  {
    if ops == [] {
      ContentsAll(w, m);
    } else {
      InvStep(w, ops[0]);
      ReferenceStep(w, ops[0], m, k);
      KeptObject(w, ops[0], m, k);
      ContentsAll(w, m);
      ContentsAll(Step(w, ops[0]), m);
      ReferenceRun(Step(w, ops[0]), ops[1..], m, k);
    }
  }
}
