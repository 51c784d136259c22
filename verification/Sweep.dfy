/**
 The phases of a collection, on raw memory: resetting dead phantom handles and marking dead nodes,
 moving the survivors, and running the first-pass callbacks.  Each phase is described for any
 subset of the work done so far; the end of the last phase represents `Collection.Collect`.
 */
module Sweep {
  import opened Cells
  import opened Collection
  import opened Memory

  predicate PhantomDies(v: Mem, dead: set<Address>, l: Loc) {
    l in v.nodes && v.nodes[l].Phantom? && v.nodes[l].obj in dead
  }

  predicate WeakDies(v: Mem, dead: set<Address>, l: Loc) {
    l in v.nodes && v.nodes[l].Weak? && v.nodes[l].obj in dead
  }

  // `IterateWeakRootsForPhantomHandles` has visited the nodes in `done`.
  function MarkedNodes(v: Mem, dead: set<Address>, done: set<Loc>): map<Loc, Node> {
    map l | l in v.nodes && !(l in done && PhantomDies(v, dead, l)) ::
      if l in done && WeakDies(v, dead, l) then NearDeath(v.nodes[l].param) else v.nodes[l]
  }

  function MarkedSlots(v: Mem, dead: set<Address>, done: set<Loc>): map<Addr, Loc> {
    map h | h in v.slots :: if v.slots[h] in done && PhantomDies(v, dead, v.slots[h]) then Null else v.slots[h]
  }

  // A phantom node is in the handle it points back to, and in no other.
  ghost predicate BackPointers(v: Mem) {
    forall l, h {:trigger v.nodes[l], v.slots[h]} :: l in v.nodes && v.nodes[l].Phantom? && h in v.slots ==> (v.slots[h] == l <==> v.nodes[l].back == h)
  }

  lemma BackPointersIf(v: Mem, w: World)
    requires Mirrors(v, w) && Kinds(w)
    ensures BackPointers(v)
    ensures forall l :: l in v.nodes && v.nodes[l].Phantom? ==> v.nodes[l].back in v.slots
  {
    forall l | l in v.nodes && v.nodes[l].Phantom?
      ensures v.nodes[l].back in v.slots && v.slots[v.nodes[l].back] == l
    {
      assert Fits(w, l, w.cells[l]) && OwnerHolds(w, l);
      assert InHandle(v.nodes[l].back) in w.at;
    }
    forall l, h | l in v.nodes && v.nodes[l].Phantom? && h in v.slots
      ensures v.slots[h] == l <==> v.nodes[l].back == h
    {
      if v.slots[h] == l {
        assert InHandle(h) in w.at;
        assert Fits(w, l, w.cells[l]);
      }
    }
  }

  // One more node visited.
  lemma MarkPhantom(v: Mem, dead: set<Address>, done: set<Loc>, l: Loc)
    requires BackPointers(v) && PhantomDies(v, dead, l) && l !in done
    ensures MarkedNodes(v, dead, done + {l}) == MarkedNodes(v, dead, done) - {l}
    ensures v.nodes[l].back in v.slots ==> MarkedSlots(v, dead, done + {l}) == MarkedSlots(v, dead, done)[v.nodes[l].back := Null]
  {
  }

  lemma MarkWeak(v: Mem, dead: set<Address>, done: set<Loc>, l: Loc)
    requires WeakDies(v, dead, l) && l !in done
    ensures MarkedNodes(v, dead, done + {l}) == MarkedNodes(v, dead, done)[l := NearDeath(v.nodes[l].param)]
    ensures MarkedSlots(v, dead, done + {l}) == MarkedSlots(v, dead, done)
  {
  }

  lemma MarkOther(v: Mem, dead: set<Address>, done: set<Loc>, l: Loc)
    requires !WeakDies(v, dead, l) && !PhantomDies(v, dead, l)
    ensures MarkedNodes(v, dead, done + {l}) == MarkedNodes(v, dead, done)
    ensures MarkedSlots(v, dead, done + {l}) == MarkedSlots(v, dead, done)
  {
  }

  // Survivors move; a node near death has nothing left to move.
  function MovedNodes(nodes: map<Loc, Node>, reloc: map<Address, Address>): map<Loc, Node> {
    map l | l in nodes :: MovedNode(nodes[l], reloc)
  }

  /* First-pass callbacks. */

  // A weak node's callback data names an entry that holds that node, and no other entry does.
  ghost predicate UnderKey(v: Mem, l: Loc) {
    l in v.nodes && v.nodes[l].Weak? && v.nodes[l].param in v.data &&
    var e := v.data[v.nodes[l].param];
    && e.home in v.impls && e.key in v.impls[e.home].entries && v.impls[e.home].info.weak
    && (forall m, k :: m in v.impls && k in v.impls[m].entries ==> (v.impls[m].entries[k] == l <==> m == e.home && k == e.key))
    && (forall x :: x in v.nodes && v.nodes[x].Weak? && v.nodes[x].param == v.nodes[l].param ==> x == l)
  }

  lemma UnderKeyIf(v: Mem, w: World, l: Loc)
    requires Mirrors(v, w) && Kinds(w) && (forall m :: m in w.maps ==> w.maps[m].home == m)
    requires l in v.nodes && v.nodes[l].Weak?
    ensures UnderKey(v, l)
  {
    var d := v.nodes[l].param;
    assert Fits(w, l, w.cells[l]) && OwnerHolds(w, l);
    var e := v.data[d];
    assert w.cells[l].owner == InImpl(e.home, e.key);
    forall m, k | m in v.impls && k in v.impls[m].entries
      ensures v.impls[m].entries[k] == l <==> m == e.home && k == e.key
    {
      assert InImpl(m, k) in w.at;
    }
    forall x | x in v.nodes && v.nodes[x].Weak? && v.nodes[x].param == d ensures x == l {
      assert Fits(w, x, w.cells[x]);
    }
  }

  function KindOf(v: Mem, l: Loc): Kind
    requires UnderKey(v, l)
  {
    v.impls[v.data[v.nodes[l].param].home].info.kind
  }

  // The callbacks of the nodes in `gone` have run.
  function CalledImpls(v: Mem, gone: set<Loc>): map<MapId, Impl> {
    map m | m in v.impls ::
      v.impls[m].(entries := map k | k in v.impls[m].entries && v.impls[m].entries[k] !in gone :: v.impls[m].entries[k])
  }

  ghost function GoneData(v: Mem, gone: set<Loc>, kind: Kind): set<DataId> {
    set l | l in gone && UnderKey(v, l) && KindOf(v, l) == kind :: v.nodes[l].param
  }

  lemma CallStep(v: Mem, gone: set<Loc>, l: Loc)
    requires UnderKey(v, l) && l !in gone
    ensures var e := v.data[v.nodes[l].param];
      && e.key in CalledImpls(v, gone)[e.home].entries && CalledImpls(v, gone)[e.home].entries[e.key] == l
      && CalledImpls(v, gone + {l}) == Without(CalledImpls(v, gone), e.home, e.key)
  {
    var e := v.data[v.nodes[l].param];
    var a, b := CalledImpls(v, gone + {l}), Without(CalledImpls(v, gone), e.home, e.key);
    forall m | m in v.impls ensures a[m] == b[m] {
      assert a[m].entries == b[m].entries;
    }
  }

  lemma GoneStep(v: Mem, gone: set<Loc>, l: Loc, kind: Kind)
    requires UnderKey(v, l) && l !in gone
    ensures v.nodes[l].param !in GoneData(v, gone, kind)
    ensures GoneData(v, gone + {l}, kind) == GoneData(v, gone, kind) + if KindOf(v, l) == kind then {v.nodes[l].param} else {}
  {
  }

  /* The end of the collection. */

  function DeadWeak(v: Mem, dead: set<Address>): set<Loc> {
    set l | l in v.nodes && WeakDies(v, dead, l)
  }

  ghost function Swept(v: Mem, dead: set<Address>, reloc: map<Address, Address>, second: seq<DataId>): Mem {
    var gone := DeadWeak(v, dead);
    v.(nodes := MovedNodes(MarkedNodes(v, dead, v.nodes.Keys), reloc) - gone,
       slots := MarkedSlots(v, dead, v.nodes.Keys),
       impls := CalledImpls(v, gone),
       data := v.data - GoneData(v, gone, PersistentMap),
       second := second)
  }

  lemma GoneIsDying(v: Mem, w: World, dead: set<Address>, kind: Kind)
    requires Mirrors(v, w) && Kinds(w) && (forall m :: m in w.maps ==> w.maps[m].home == m)
    ensures GoneData(v, DeadWeak(v, dead), kind) == DyingData(w, dead, kind)
  {
    forall l | l in v.nodes && v.nodes[l].Weak?
      ensures UnderKey(v, l) && w.cells[l].owner.InImpl? && KindOf(v, l) == w.maps[w.cells[l].owner.m].kind
    {
      UnderKeyIf(v, w, l);
      assert Fits(w, l, w.cells[l]) && OwnerHolds(w, l);
    }
  }

  lemma SweptNodes(v: Mem, w: World, dead: set<Address>, reloc: map<Address, Address>)
    requires NodesRep(v.nodes, w.cells)
    ensures NodesRep(MovedNodes(MarkedNodes(v, dead, v.nodes.Keys), reloc) - DeadWeak(v, dead), CollectCells(w, dead, reloc))
  {
  }

  lemma SweptSlots(v: Mem, w: World, dead: set<Address>)
    requires NodesRep(v.nodes, w.cells) && SlotsRep(v.slots, w.handles, w.at) && Owned(w) && Kinds(w)
    ensures SlotsRep(MarkedSlots(v, dead, v.nodes.Keys), w.handles, CollectAt(w, dead))
  {
  }

  lemma SweptImpls(v: Mem, w: World, dead: set<Address>)
    requires NodesRep(v.nodes, w.cells) && ImplsRep(v.impls, w.maps, w.at) && Owned(w) && Kinds(w)
    ensures ImplsRep(CalledImpls(v, DeadWeak(v, dead)), w.maps, CollectAt(w, dead))
  {
  }

  /** The phases together represent `Collect`. */
  lemma MirrorsCollect(v: Mem, w: World, dead: set<Address>, reloc: map<Address, Address>, second: seq<DataId>)
    requires Mirrors(v, w) && Kinds(w) && CanCollect(w, dead, reloc)
    requires multiset(second) == multiset(v.second) + multiset(GoneData(v, DeadWeak(v, dead), GlobalMap))
    ensures Mirrors(Swept(v, dead, reloc, second), Collect(w, dead, reloc))
  {
    GoneIsDying(v, w, dead, PersistentMap);
    GoneIsDying(v, w, dead, GlobalMap);
    SweptNodes(v, w, dead, reloc);
    SweptSlots(v, w, dead);
    SweptImpls(v, w, dead);
    OwnedCollect(w, dead, reloc);
  }
}
