/**
 `PersistentValueMap` and `GlobalValueMap` as operations on a `World`: `SetUnique`, `Remove`,
 `Release`, `RemoveWeak` and the swap-and-dispose steps of `Clear`.  Each operation keeps `Inv`.
 */
module ValueMaps {
  import opened Cells
  import opened Handles

  // `DisposeCallbackData` by `Release`, for a node that is still weak.
  function Released(b: Books, n: Node): Books {
    if n.Weak? then b.(data := b.data - {n.param}, released := b.released + multiset{n.param}) else b
  }

  // `Release`: the entry's cell goes to the new handle `r`, strong again.
  function ReleaseTo(w: World, m: MapId, k: Key, r: Addr): World
    requires NodeObject(w, InImpl(m, k)).Some?
  {
    var n := w.cells[w.at[InImpl(m, k)]].node;
    Transfer(NewHandle(w, r).(books := Released(w.books, n)), InImpl(m, k), InHandle(r), Strong(n.obj))
  }

  // `Remove`, into the new handle `r`.
  function Remove(w: World, m: MapId, k: Key, r: Addr): World {
    if NodeObject(w, InImpl(m, k)).Some? then ReleaseTo(w, m, k, r) else NewHandle(w, r)
  }

  // Handle `h` gives its cell to the entry, which installs callback data `d` if the map is weak.
  function Insert(w: World, m: MapId, k: Key, h: Addr, d: DataId): World
    requires m in w.maps && Referent(w, h).Some?
  {
    var a := Referent(w, h).value;
    if w.maps[m].weak then
      var b := w.books.(data := w.books.data[d := Data(w.maps[m].home, k, w.at[InHandle(h)])],
                        created := w.books.created + {d});
      Transfer(w.(books := b), InHandle(h), InImpl(m, k), Weak(a, d))
    else
      Transfer(w, InHandle(h), InImpl(m, k), Strong(a))
  }

  // What `SetUnique` demands: a non-empty handle, not weak when the map will annotate it as a strong retainer.
  predicate CanSet(w: World, m: MapId, h: Addr, d: DataId, r: Addr) {
    && m in w.maps && w.maps[m].home == m
    && h in w.handles && InHandle(h) in w.at && Referent(w, h).Some?
    && (if w.maps[m].weak then d !in w.books.created else w.cells[w.at[InHandle(h)]].node.Strong?)
    && r !in w.handles
  }

  // `SetUnique`: the old entry, if any, comes back in the new handle `r`.
  function SetUnique(w: World, m: MapId, k: Key, h: Addr, d: DataId, r: Addr): World
    requires CanSet(w, m, h, d, r)
  {
    var w1 := Remove(w, m, k, r);
    if Referent(w1, h).Some? then Insert(w1, m, k, h, d) else w1
  }

  lemma RemoveLeaves(w: World, m: MapId, k: Key, r: Addr)
    requires Inv(w) && r !in w.handles
    ensures forall p :: p in Remove(w, m, k, r).at <==> (p in w.at && p != InImpl(m, k)) || (p == InHandle(r) && InImpl(m, k) in w.at)
    ensures forall p :: p in w.at && p != InImpl(m, k) ==> Remove(w, m, k, r).at[p] == w.at[p]
    ensures forall p :: p in w.at && p != InImpl(m, k) ==> w.at[p] in Remove(w, m, k, r).cells && Remove(w, m, k, r).cells[w.at[p]] == w.cells[w.at[p]]
  {
  }

  lemma OwnedRemove(w: World, m: MapId, k: Key, r: Addr)
    requires Owned(w) && r !in w.handles && NodeObject(w, InImpl(m, k)).Some?
    ensures Owned(Remove(w, m, k, r))
  {
    var n := w.cells[w.at[InImpl(m, k)]].node;
    var w0 := NewHandle(w, r).(books := Released(w.books, n));
    OwnedFrame(w, w0);
    OwnedTransfer(w0, InImpl(m, k), InHandle(r), Strong(n.obj));
  }

  // `Clear` swaps the entries of map `m` into a local backing map `f`.
  function Rekey(p: Place, m: MapId, f: MapId): Place {
    if p.InImpl? && p.m == m then InImpl(f, p.k) else p
  }

  function SwapOut(w: World, m: MapId, f: MapId): World
    requires Owned(w) && m in w.maps && f !in w.maps
  {
    w.(maps := w.maps[f := w.maps[m]],
       at := map p | p in w.at :: Rekey(p, m, f) := w.at[p],
       cells := map l | l in w.cells :: Cell(w.cells[l].node, Rekey(w.cells[l].owner, m, f)))
  }

  lemma InvReleaseTo(w: World, m: MapId, k: Key, r: Addr)
    requires Inv(w) && r !in w.handles && InImpl(m, k) in w.at
    ensures Inv(ReleaseTo(w, m, k, r))
  {
    var w' := ReleaseTo(w, m, k, r);
    var l := w.at[InImpl(m, k)];
    var n := w.cells[l].node;
    InvNewHandle(w, r);
    assert Fits(w, l, w.cells[l]);
    OwnedTransfer(NewHandle(w, r), InImpl(m, k), InHandle(r), Strong(n.obj));
    OwnedFrame(Transfer(NewHandle(w, r), InImpl(m, k), InHandle(r), Strong(n.obj)), w');
    InvBooks(NewHandle(w, r), w', l);
  }

  // After cell `l` stopped being weak and its callback data was disposed, the other cells still fit.
  lemma InvBooks(w: World, w': World, l: Loc)
    requires Inv(w) && Owned(w') && l in w.cells && (l in w'.cells ==> w'.cells[l].owner.InHandle? && w'.cells[l].node == Strong(w.cells[l].node.obj))
    requires w' == w.(cells := w'.cells, at := w'.at, books := Released(w.books, w.cells[l].node))
    requires forall x :: x != l ==> (x in w'.cells <==> x in w.cells)
    requires forall x :: x != l && x in w.cells ==> w'.cells[x] == w.cells[x]
    ensures Inv(w')
  {
    var n := w.cells[l].node;
    forall x | x in w.cells && x != l ensures n.Weak? && w.cells[x].node.Weak? ==> w.cells[x].node.param != n.param {
      assert Fits(w, x, w.cells[x]) && Fits(w, l, w.cells[l]);
    }
    assert Kinds(w') by {
      forall x | x in w'.cells ensures Fits(w', x, w'.cells[x]) {
        assert Fits(w, x, w.cells[x]);
      }
    }
    assert DataPlaced(w') by {
      forall d | Waiting(w'.books, d) ensures Installed(w', w'.books.data[d].cell, d) {
        assert Waiting(w.books, d);
      }
    }
    assert Conserved(w'.books) by {
      if n.Weak? {
        assert Fits(w, l, w.cells[l]);
      }
    }
  }

  lemma InvRemove(w: World, m: MapId, k: Key, r: Addr)
    requires Inv(w) && r !in w.handles
    ensures Inv(Remove(w, m, k, r))
  {
    if InImpl(m, k) in w.at {
      InvReleaseTo(w, m, k, r);
    } else {
      InvNewHandle(w, r);
    }
  }

  lemma InvInsert(w: World, m: MapId, k: Key, h: Addr, d: DataId)
    requires Inv(w) && m in w.maps && InHandle(h) in w.at && InImpl(m, k) !in w.at
    requires w.maps[m].weak ==> d !in w.books.created
    ensures Inv(Insert(w, m, k, h, d))
  {
    var w' := Insert(w, m, k, h, d);
    var l := w.at[InHandle(h)];
    var n := w'.cells[l].node;
    OwnedTransfer(w, InHandle(h), InImpl(m, k), n);
    OwnedFrame(Transfer(w, InHandle(h), InImpl(m, k), n), w');
    assert Fits(w, l, w.cells[l]);
    if w.maps[m].weak {
      assert d !in w.books.data && w.books.second[d] == 0;
    }
    assert Kinds(w') by {
      forall x | x in w'.cells ensures Fits(w', x, w'.cells[x]) {
        if x != l {
          assert Fits(w, x, w.cells[x]);
        }
      }
    }
    assert DataPlaced(w') by {
      forall e | Waiting(w'.books, e) ensures Installed(w', w'.books.data[e].cell, e) {
        if e in w.books.data {
          assert Waiting(w.books, e);
        }
      }
    }
  }

  lemma InvSetUnique(w: World, m: MapId, k: Key, h: Addr, d: DataId, r: Addr)
    requires Inv(w) && CanSet(w, m, h, d, r)
    ensures Inv(SetUnique(w, m, k, h, d, r))
  {
    InvRemove(w, m, k, r);
    RemoveLeaves(w, m, k, r);
    InvInsert(Remove(w, m, k, r), m, k, h, d);
  }

  // What `SwapOut` does to one place.
  ghost predicate SwappedAt(at: map<Place, Loc>, at': map<Place, Loc>, m: MapId, f: MapId, p: Place) {
    if p.InImpl? && p.m == m then p !in at'
    else if p.InImpl? && p.m == f then (p in at' <==> InImpl(m, p.k) in at) && (p in at' ==> at'[p] == at[InImpl(m, p.k)])
    else (p in at' <==> p in at) && (p in at' ==> at'[p] == at[p])
  }

  lemma SwapOutAt(w: World, m: MapId, f: MapId, p: Place)
    requires Owned(w) && m in w.maps && f !in w.maps
    ensures SwappedAt(w.at, SwapOut(w, m, f).at, m, f, p)
  {
  }

  lemma OwnedSwapOut(w: World, m: MapId, f: MapId)
    requires Owned(w) && m in w.maps && f !in w.maps
    ensures Owned(SwapOut(w, m, f))
  {
    var w' := SwapOut(w, m, f);
    forall l | l in w'.cells ensures OwnerHolds(w', l) {
      assert OwnerHolds(w, l);
    }
  }

  lemma InvSwapOut(w: World, m: MapId, f: MapId)
    requires Inv(w) && m in w.maps && f !in w.maps
    ensures Inv(SwapOut(w, m, f))
  {
    var w' := SwapOut(w, m, f);
    OwnedSwapOut(w, m, f);
    assert Kinds(w') by {
      forall l | l in w'.cells ensures Fits(w', l, w'.cells[l]) {
        assert Fits(w, l, w.cells[l]);
      }
    }
    assert DataPlaced(w') by {
      forall d | Waiting(w'.books, d) ensures Installed(w', w'.books.data[d].cell, d) {
        assert Waiting(w.books, d);
      }
    }
  }

  /* All map operations. `Take` is `Remove`, and the `Release` of one entry inside `Clear`: that is a
     `BeginClear`, a `Take` per entry of the local backing map, and an `EndClear`, with whatever the
     embedder's `Dispose` does in between. */

  datatype MapOp =
    | NewMap(m: MapId, kind: Kind, weak: bool)
    | Set(m: MapId, k: Key, h: Addr, d: DataId, r: Addr)
    | Take(m: MapId, k: Key, r: Addr)
    | BeginClear(m: MapId, f: MapId)
    | EndClear(m: MapId)
    | DropMap(m: MapId)

  // Map `m` is not being cleared.
  ghost predicate AtRest(w: World, m: MapId) {
    m in w.maps && w.maps[m].home == m && forall x :: x in w.maps && x != m ==> w.maps[x].home != m
  }

  ghost predicate MapEnabled(w: World, op: MapOp) {
    match op
    case NewMap(m, _, _) => m !in w.maps
    case Set(m, _, h, d, r) => CanSet(w, m, h, d, r)
    case Take(m, _, r) => m in w.maps && r !in w.handles
    case BeginClear(m, f) => m in w.maps && w.maps[m].home == m && f !in w.maps
    case EndClear(m) => m in w.maps && w.maps[m].home != m && forall k :: InImpl(m, k) !in w.at
    case DropMap(m) => AtRest(w, m) && forall k :: InImpl(m, k) !in w.at
  }

  function MapStep(w: World, op: MapOp): World
    requires Inv(w) && MapEnabled(w, op)
  {
    match op
    case NewMap(m, kind, weak) => w.(maps := w.maps[m := MapInfo(kind, weak, m)])
    case Set(m, k, h, d, r) => SetUnique(w, m, k, h, d, r)
    case Take(m, k, r) => Remove(w, m, k, r)
    case BeginClear(m, f) => SwapOut(w, m, f)
    case EndClear(m) => w.(maps := w.maps - {m})
    case DropMap(m) => w.(maps := w.maps - {m})
  }

  // A change to the set of maps or of objects that touches no cell.
  lemma InvFrame(w: World, w': World)
    requires Inv(w) && w'.cells == w.cells && w'.at == w.at && w'.handles == w.handles && w'.books == w.books
    requires forall p :: p in w.at && p.InImpl? ==> p.m in w'.maps && w'.maps[p.m] == w.maps[p.m]
    requires forall a :: a in w.objects ==> a in w'.objects
    requires Apart(w'.objects)
    ensures Inv(w')
  {
    OwnedFrame(w, w');
    forall l | l in w'.cells ensures Fits(w', l, w'.cells[l]) {
      assert Fits(w, l, w.cells[l]) && OwnerHolds(w, l);
    }
    forall d | Waiting(w'.books, d) ensures Installed(w', w'.books.data[d].cell, d) {
      assert Waiting(w.books, d);
    }
  }

  lemma InvMapStep(w: World, op: MapOp)
    requires Inv(w) && MapEnabled(w, op)
    ensures Inv(MapStep(w, op))
  {
    match op
    case NewMap(_, _, _) => InvFrame(w, MapStep(w, op));
    case Set(m, k, h, d, r) => InvSetUnique(w, m, k, h, d, r);
    case Take(m, k, r) => InvRemove(w, m, k, r);
    case BeginClear(m, f) => InvSwapOut(w, m, f);
    case EndClear(_) => InvFrame(w, MapStep(w, op));
    case DropMap(_) => InvFrame(w, MapStep(w, op));
  }
}
