/**
 How raw embedder and V8 memory represents a `World`, and how the elementary changes of the
 memory represent the elementary changes of the world.
 */
module Memory {
  import opened Cells
  import opened Handles
  import opened ValueMaps

  // A map object: its traits, and the backing std::map from keys to raw cell addresses.
  datatype Impl = Impl(info: MapInfo, entries: map<Key, Loc>)

  // What the embedder's traits keep in a callback-data object.
  datatype Param = Param(home: MapId, key: Key)

  datatype Mem = Mem(
    nodes: map<Loc, Node>,
    slots: map<Addr, Loc>,
    impls: map<MapId, Impl>,
    data: map<DataId, Param>,
    second: seq<DataId>,
    nextData: DataId
  )

  ghost predicate NodesRep(nodes: map<Loc, Node>, cells: map<Loc, Cell>) {
    && nodes.Keys == cells.Keys
    && (forall l {:trigger nodes[l]} {:trigger cells[l]} :: l in nodes ==> nodes[l] == cells[l].node)
  }

  ghost predicate SlotsRep(slots: map<Addr, Loc>, handles: set<Addr>, at: map<Place, Loc>) {
    && slots.Keys == handles
    && (forall h {:trigger InHandle(h)} ::
          && (InHandle(h) in at ==> h in slots)
          && (h in slots ==> slots[h] == if InHandle(h) in at then at[InHandle(h)] else Null))
  }

  ghost predicate ImplsRep(impls: map<MapId, Impl>, maps: map<MapId, MapInfo>, at: map<Place, Loc>) {
    && impls.Keys == maps.Keys
    && (forall m {:trigger impls[m]} :: m in impls ==> impls[m].info == maps[m])
    && (forall m, k {:trigger InImpl(m, k)} ::
          && (InImpl(m, k) in at <==> m in impls && k in impls[m].entries)
          && (InImpl(m, k) in at ==> impls[m].entries[k] == at[InImpl(m, k)]))
  }

  ghost predicate BooksRep(data: map<DataId, Param>, second: seq<DataId>, nextData: DataId, b: Books) {
    && data.Keys == b.data.Keys
    && (forall d {:trigger data[d]} :: d in data ==> data[d] == Param(b.data[d].home, b.data[d].key))
    && multiset(second) == b.second
    && (forall d :: d in b.created || d in b.data ==> d < nextData)
  }

  ghost predicate Rep(v: Mem, w: World) {
    && NodesRep(v.nodes, w.cells) && SlotsRep(v.slots, w.handles, w.at) && ImplsRep(v.impls, w.maps, w.at)
    && BooksRep(v.data, v.second, v.nextData, w.books)
  }

  // No node is near death.
  ghost predicate Alive(w: World) {
    forall l {:trigger w.cells[l]} :: l in w.cells ==> !w.cells[l].node.NearDeath?
  }

  // The memory is the world `w`, and no collection is under way.
  ghost predicate Mirrors(v: Mem, w: World) {
    Rep(v, w) && Owned(w) && Alive(w)
  }

  /* Handles. */

  lemma MirrorsNew(v: Mem, w: World, h: Addr)
    requires Mirrors(v, w) && h !in v.slots
    ensures Mirrors(v.(slots := v.slots[h := Null]), NewHandle(w, h))
  {
    OwnedFrame(w, NewHandle(w, h));
  }

  lemma MirrorsReset(v: Mem, w: World, h: Addr)
    requires Mirrors(v, w) && h in v.slots && v.slots[h] != Null
    ensures Mirrors(v.(nodes := v.nodes - {v.slots[h]}, slots := v.slots[h := Null]), Reset(w, h))
  {
    OwnedFree(w, InHandle(h));
  }

  lemma RepAlloc(v: Mem, w: World, h: Addr, l: Loc, n: Node)
    requires Rep(v, w) && h in v.slots
    ensures Rep(v.(nodes := v.nodes[l := n], slots := v.slots[h := l]), Alloc(w, InHandle(h), l, n))
  {
  }

  lemma RepMove(v: Mem, w: World, src: Addr, dst: Addr, n: Node)
    requires Rep(v, w) && src in v.slots && dst in v.slots && src != dst && InHandle(src) in w.at
    ensures var l := v.slots[src];
      Rep(v.(nodes := v.nodes[l := n], slots := v.slots[src := Null][dst := l]), Transfer(w, InHandle(src), InHandle(dst), n))
  {
  }

  lemma MirrorsAlloc(v: Mem, w: World, h: Addr, l: Loc, a: Address)
    requires Mirrors(v, w) && h in v.slots && v.slots[h] == Null && l != Null && l !in v.nodes
    ensures Mirrors(v.(nodes := v.nodes[l := Strong(a)], slots := v.slots[h := l]), Alloc(w, InHandle(h), l, Strong(a)))
  {
    RepAlloc(v, w, h, l, Strong(a));
    OwnedAlloc(w, InHandle(h), l, Strong(a));
  }

  lemma MirrorsMove(v: Mem, w: World, src: Addr, dst: Addr)
    requires Mirrors(v, w) && src in v.slots && dst in v.slots && src != dst && v.slots[src] != Null && v.slots[dst] == Null
    ensures var l := v.slots[src];
      l in v.nodes &&
      var n := Repointed(v.nodes[l], dst);
      && InHandle(src) in w.at
      && Mirrors(v.(nodes := v.nodes[l := n], slots := v.slots[src := Null][dst := l]), Transfer(w, InHandle(src), InHandle(dst), n))
  {
    assert InHandle(src) in w.at && InHandle(dst) !in w.at;
    RepMove(v, w, src, dst, Repointed(v.nodes[v.slots[src]], dst));
    OwnedTransfer(w, InHandle(src), InHandle(dst), Repointed(v.nodes[v.slots[src]], dst));
  }

  lemma MirrorsGone(v: Mem, w: World, h: Addr)
    requires Mirrors(v, w) && InHandle(h) !in w.at
    ensures Mirrors(v.(slots := v.slots - {h}), w.(handles := w.handles - {h}))
  {
    OwnedFrame(w, w.(handles := w.handles - {h}));
  }

  lemma MirrorsNode(v: Mem, w: World, h: Addr, n: Node)
    requires Mirrors(v, w) && h in v.slots && v.slots[h] != Null && !n.NearDeath?
    ensures InHandle(h) in w.at && Mirrors(v.(nodes := v.nodes[v.slots[h] := n]), Alloc(w, InHandle(h), v.slots[h], n))
  {
    var w' := Alloc(w, InHandle(h), v.slots[h], n);
    assert w'.at == w.at;
    OwnedFrame(w, w');
  }

  /* Map entries. */

  lemma MirrorsNewMap(v: Mem, w: World, m: MapId, info: MapInfo)
    requires Mirrors(v, w) && m !in v.impls
    ensures Mirrors(v.(impls := v.impls[m := Impl(info, map[])]), w.(maps := w.maps[m := info]))
  {
    OwnedFrame(w, w.(maps := w.maps[m := info]));
  }

  function Without(impls: map<MapId, Impl>, m: MapId, k: Key): map<MapId, Impl>
    requires m in impls
  {
    impls[m := impls[m].(entries := impls[m].entries - {k})]
  }

  function With(impls: map<MapId, Impl>, m: MapId, k: Key, l: Loc): map<MapId, Impl>
    requires m in impls
  {
    impls[m := impls[m].(entries := impls[m].entries[k := l])]
  }

  // What `Release` relies on about an entry: its node is live, and its callback data not yet disposed.
  predicate Releasable(v: Mem, weak: bool, l: Loc) {
    l == Null || (l in v.nodes &&
      match v.nodes[l]
      case Weak(_, d) => weak && d in v.data
      case Strong(_) => !weak
      case NearDeath(_) => weak
      case Phantom(_, _) => false)
  }

  // A node after `Release`: strong again, except that one near death stays so.
  function Strengthened(n: Node): Node {
    if n.NearDeath? then n else Strong(n.obj)
  }

  lemma EntryReleasable(v: Mem, w: World, m: MapId, k: Key)
    requires Mirrors(v, w) && Kinds(w) && m in v.impls && k in v.impls[m].entries
    ensures v.impls[m].entries[k] != Null && Releasable(v, v.impls[m].info.weak, v.impls[m].entries[k])
  {
    var l := w.at[InImpl(m, k)];
    assert Fits(w, l, w.cells[l]);
  }

  // Callback data after `Release` of a node.
  function Forgotten(data: map<DataId, Param>, n: Node): map<DataId, Param> {
    if n.Weak? then data - {n.param} else data
  }

  lemma ForgottenRep(data: map<DataId, Param>, second: seq<DataId>, nextData: DataId, b: Books, n: Node)
    requires BooksRep(data, second, nextData, b)
    ensures BooksRep(Forgotten(data, n), second, nextData, Released(b, n))
  {
  }

  // The memory after `Remove` of the entry, into the new handle `r`.
  function AfterRemove(v: Mem, m: MapId, k: Key, r: Addr): Mem
    requires m in v.impls
  {
    if k !in v.impls[m].entries then v.(slots := v.slots[r := Null]) else
      var l := v.impls[m].entries[k];
      if l !in v.nodes then v else
        v.(slots := v.slots[r := l], nodes := v.nodes[l := Strengthened(v.nodes[l])],
           data := Forgotten(v.data, v.nodes[l]), impls := Without(v.impls, m, k))
  }

  lemma RepRelease(v: Mem, w: World, m: MapId, k: Key, r: Addr, n: Node)
    requires Rep(v, w) && m in v.impls && InImpl(m, k) in w.at
    ensures var l := w.at[InImpl(m, k)];
      Rep(v.(nodes := v.nodes[l := n], slots := v.slots[r := l], impls := Without(v.impls, m, k)),
          Transfer(NewHandle(w, r), InImpl(m, k), InHandle(r), n))
  {
  }

  lemma MirrorsRemove(v: Mem, w: World, m: MapId, k: Key, r: Addr)
    requires Mirrors(v, w) && r !in v.slots && m in v.impls
    ensures Mirrors(AfterRemove(v, m, k, r), Remove(w, m, k, r))
  {
    assert InImpl(m, k) in w.at <==> k in v.impls[m].entries;
    if k in v.impls[m].entries {
      var n := v.nodes[w.at[InImpl(m, k)]];
      RepRelease(v, w, m, k, r, Strong(n.obj));
      ForgottenRep(v.data, v.second, v.nextData, w.books, n);
      OwnedRemove(w, m, k, r);
    } else {
      MirrorsNew(v, w, r);
    }
  }

  // The memory after handle `h` has given its cell to the entry.
  function AfterInsert(v: Mem, m: MapId, k: Key, h: Addr): Mem
    requires m in v.impls && h in v.slots && v.slots[h] in v.nodes && !v.nodes[v.slots[h]].NearDeath?
  {
    var l := v.slots[h];
    var v1 := v.(slots := v.slots[h := Null], impls := With(v.impls, m, k, l));
    if v.impls[m].info.weak
    then v1.(nodes := v.nodes[l := Weak(v.nodes[l].obj, v.nextData)], nextData := v.nextData + 1,
             data := v.data[v.nextData := Param(v.impls[m].info.home, k)])
    else v1.(nodes := v.nodes[l := Strong(v.nodes[l].obj)])
  }

  lemma RepInsert(v: Mem, w: World, m: MapId, k: Key, h: Addr, n: Node)
    requires Rep(v, w) && m in v.impls && InHandle(h) in w.at && h in v.slots
    ensures Rep(v.(nodes := v.nodes[v.slots[h] := n], slots := v.slots[h := Null], impls := With(v.impls, m, k, v.slots[h])),
                Transfer(w, InHandle(h), InImpl(m, k), n))
  {
  }

  lemma InsertBooks(v: Mem, b: Books, home: MapId, k: Key, l: Loc)
    requires BooksRep(v.data, v.second, v.nextData, b)
    ensures BooksRep(v.data[v.nextData := Param(home, k)], v.second, v.nextData + 1,
                     b.(data := b.data[v.nextData := Data(home, k, l)], created := b.created + {v.nextData}))
  {
  }

  lemma OwnedInsert(w: World, m: MapId, k: Key, h: Addr, d: DataId)
    requires Owned(w) && m in w.maps && Referent(w, h).Some? && InImpl(m, k) !in w.at
    ensures Owned(Insert(w, m, k, h, d))
  {
    var n := Insert(w, m, k, h, d).cells[w.at[InHandle(h)]].node;
    OwnedTransfer(w, InHandle(h), InImpl(m, k), n);
    OwnedFrame(Transfer(w, InHandle(h), InImpl(m, k), n), Insert(w, m, k, h, d));
  }

  lemma MirrorsInsert(v: Mem, w: World, m: MapId, k: Key, h: Addr)
    requires Mirrors(v, w) && m in v.impls && h in v.slots && v.slots[h] != Null && k !in v.impls[m].entries
    ensures InHandle(h) in w.at && Referent(w, h).Some? && v.slots[h] in v.nodes && !v.nodes[v.slots[h]].NearDeath?
    ensures Mirrors(AfterInsert(v, m, k, h), Insert(w, m, k, h, v.nextData))
  {
    assert InHandle(h) in w.at && InImpl(m, k) !in w.at;
    var l := v.slots[h];
    var n := if v.impls[m].info.weak then Weak(v.nodes[l].obj, v.nextData) else Strong(v.nodes[l].obj);
    RepInsert(v, w, m, k, h, n);
    InsertBooks(v, w.books, w.maps[m].home, k, l);
    OwnedInsert(w, m, k, h, v.nextData);
  }

  // The memory after `Release` of a raw cell address, into the new handle `r`.
  function AfterRelease(v: Mem, l: Loc, r: Addr): Mem {
    if l == Null then v.(slots := v.slots[r := Null])
    else if l !in v.nodes then v
    else v.(slots := v.slots[r := l], nodes := v.nodes[l := Strengthened(v.nodes[l])], data := Forgotten(v.data, v.nodes[l]))
  }

  // What `SetUnique` relies on: a live cell to put in, and a live entry, in another cell, to take out.
  predicate CanPut(v: Mem, m: MapId, k: Key, h: Addr) {
    && m in v.impls && h in v.slots && v.slots[h] in v.nodes && !v.nodes[v.slots[h]].NearDeath?
    && (!v.impls[m].info.weak ==> v.nodes[v.slots[h]].Strong?)
    && (k in v.impls[m].entries ==>
          var o := v.impls[m].entries[k];
          && o != Null && o != v.slots[h] && Releasable(v, v.impls[m].info.weak, o)
          && (v.nodes[o].Weak? ==> v.nodes[o].param != v.nextData))
  }

  // What `Traits::Set` gives back.
  function OldValue(v: Mem, m: MapId, k: Key): Loc
    requires m in v.impls
  {
    if k in v.impls[m].entries then v.impls[m].entries[k] else Null
  }

  // The code installs the new entry first and releases the old one afterwards; the order does not matter.
  lemma SetCommutes(v: Mem, m: MapId, k: Key, h: Addr, r: Addr)
    requires CanPut(v, m, k, h) && r !in v.slots
    ensures var v1 := AfterRemove(v, m, k, r);
      && m in v1.impls && h in v1.slots && v1.slots[h] in v1.nodes && !v1.nodes[v1.slots[h]].NearDeath?
      && AfterRelease(AfterInsert(v, m, k, h), OldValue(v, m, k), r) == AfterInsert(v1, m, k, h)
  {
    var l := v.slots[h];
    assert v.slots[h := Null][r := Null] == v.slots[r := Null][h := Null];
    if k in v.impls[m].entries {
      var o := v.impls[m].entries[k];
      var v1 := AfterRemove(v, m, k, r);
      var n := AfterInsert(v, m, k, h).nodes[l];
      assert v.nodes[l := n][o := Strengthened(v.nodes[o])] == v.nodes[o := Strengthened(v.nodes[o])][l := n];
      assert v.slots[h := Null][r := o] == v.slots[r := o][h := Null];
      assert (v.impls[m].entries - {k})[k := l] == v.impls[m].entries[k := l];
      assert With(v.impls, m, k, l) == With(v1.impls, m, k, l);
      if v.nodes[o].Weak? {
        var p, d := Param(v.impls[m].info.home, k), v.nextData;
        assert v.data[d := p] - {v.nodes[o].param} == (v.data - {v.nodes[o].param})[d := p];
      }
    }
  }

  // What the caller of `SetUnique` must see to.
  ghost predicate Settable(v: Mem, m: MapId, h: Addr) {
    && m in v.impls && v.impls[m].info.home == m && h in v.slots && v.slots[h] != Null
    && (!v.impls[m].info.weak ==> v.slots[h] in v.nodes && v.nodes[v.slots[h]].Strong?)
  }

  lemma CanPutIf(v: Mem, w: World, m: MapId, k: Key, h: Addr)
    requires Mirrors(v, w) && Kinds(w) && Settable(v, m, h)
    ensures CanPut(v, m, k, h)
  {
    assert InHandle(h) in w.at;
    if k in v.impls[m].entries {
      assert InImpl(m, k) in w.at;
      EntryReleasable(v, w, m, k);
    }
  }

  lemma CanSetIf(v: Mem, w: World, m: MapId, h: Addr, r: Addr)
    requires Mirrors(v, w) && Settable(v, m, h) && r !in v.slots
    ensures CanSet(w, m, h, v.nextData, r)
  {
  }

  lemma MirrorsSet(v: Mem, w: World, m: MapId, k: Key, h: Addr, r: Addr)
    requires Mirrors(v, w) && CanPut(v, m, k, h) && r !in v.slots && CanSet(w, m, h, v.nextData, r)
    ensures Mirrors(AfterRelease(AfterInsert(v, m, k, h), OldValue(v, m, k), r), SetUnique(w, m, k, h, v.nextData, r))
  {
    var v1, w1 := AfterRemove(v, m, k, r), Remove(w, m, k, r);
    MirrorsRemove(v, w, m, k, r);
    SetCommutes(v, m, k, h, r);
    assert InHandle(h) in w.at;
    MirrorsInsert(v1, w1, m, k, h);
  }

  lemma SetDone(v: Mem, v': Mem, w: World, m: MapId, k: Key, h: Addr, r: Addr)
    requires Mirrors(v, w) && Settable(v, m, h) && CanPut(v, m, k, h) && r !in v.slots
    requires v' == AfterRelease(AfterInsert(v, m, k, h), OldValue(v, m, k), r)
    ensures CanSet(w, m, h, v.nextData, r)
    ensures Mirrors(v', SetUnique(w, m, k, h, v.nextData, r))
  {
    CanSetIf(v, w, m, h, r);
    MirrorsSet(v, w, m, k, h, r);
  }

  // The entry's cell is the one the handle had.
  lemma SetKeepsCell(v: Mem, w: World, m: MapId, k: Key, h: Addr)
    requires Mirrors(v, w) && Settable(v, m, h)
    ensures forall d, r :: CanSet(w, m, h, d, r) ==> At(SetUnique(w, m, k, h, d, r), InImpl(m, k)) == At(w, InHandle(h))
  {
  }
}
