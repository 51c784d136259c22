/**
 What one garbage collection does to a `World`, in closed form: dead phantom handles are reset,
 dead map entries are removed by their first-pass callbacks, survivors move.  `Collector.CollectGarbage`
 is proved to have exactly this effect.
 */
module Collection {
  import opened Cells
  import opened Handles

  // `should_reset_handle` answers true for a weak node.
  predicate Dies(w: World, dead: set<Address>, l: Loc) {
    l in w.cells && (w.cells[l].node.Weak? || w.cells[l].node.Phantom?) && w.cells[l].node.obj in dead
  }

  // What the heap guarantees: strongly held objects are not dead, and moving keeps objects apart.
  ghost predicate CanCollect(w: World, dead: set<Address>, reloc: map<Address, Address>) {
    && (forall m :: m in w.maps ==> w.maps[m].home == m)
    && (forall l :: l in w.cells && w.cells[l].node.Strong? ==> w.cells[l].node.obj !in dead)
    && (forall a :: a in w.objects && a !in dead ==> a in reloc)
    && (forall a, b :: a in w.objects - dead && b in w.objects - dead && reloc[a] == reloc[b] ==> a == b)
  }

  function MovedNode(n: Node, reloc: map<Address, Address>): Node {
    if n.NearDeath? || n.obj !in reloc then n else n.(obj := reloc[n.obj])
  }

  // Callback data of the dead entries of maps of one kind.
  function DyingData(w: World, dead: set<Address>, kind: Kind): set<DataId> {
    set l | l in w.cells && Dies(w, dead, l) && w.cells[l].node.Weak? && OfKind(w, w.cells[l].owner, kind)
      :: w.cells[l].node.param
  }

  predicate OfKind(w: World, p: Place, kind: Kind) {
    p.InImpl? && p.m in w.maps && w.maps[p.m].kind == kind
  }

  // A `PersistentValueMap` disposes the data at once; a `GlobalValueMap` queues a second-pass callback.
  function CollectBooks(w: World, dead: set<Address>): Books {
    w.books.(data := w.books.data - DyingData(w, dead, PersistentMap),
             second := w.books.second + multiset(DyingData(w, dead, GlobalMap)),
             collected := w.books.collected + multiset(DyingData(w, dead, PersistentMap)))
  }

  function CollectCells(w: World, dead: set<Address>, reloc: map<Address, Address>): map<Loc, Cell> {
    map l | l in w.cells && !Dies(w, dead, l) :: Cell(MovedNode(w.cells[l].node, reloc), w.cells[l].owner)
  }

  function CollectAt(w: World, dead: set<Address>): map<Place, Loc> {
    map p | p in w.at && !Dies(w, dead, w.at[p]) :: w.at[p]
  }

  ghost function Collect(w: World, dead: set<Address>, reloc: map<Address, Address>): World
    requires CanCollect(w, dead, reloc)
  {
    w.(cells := CollectCells(w, dead, reloc),
       at := CollectAt(w, dead),
       books := CollectBooks(w, dead),
       objects := map a | a in w.objects - dead :: reloc[a] := w.objects[a])
  }

  // One queued second-pass callback runs `DisposeWeak`.
  function SecondPass(w: World, d: DataId): World {
    w.(books := w.books.(second := w.books.second - multiset{d},
                         data := w.books.data - {d},
                         collected := w.books.collected + multiset{d}))
  }

  lemma InDyingData(w: World, dead: set<Address>, l: Loc, kind: Kind)
    requires Inv(w) && l in w.cells && w.cells[l].node.Weak?
    ensures w.cells[l].owner.InImpl? && w.cells[l].owner.m in w.maps
    ensures w.cells[l].node.param in DyingData(w, dead, kind) <==>
      Dies(w, dead, l) && w.maps[w.cells[l].owner.m].kind == kind
  {
  }

  lemma DyingDataWaits(w: World, dead: set<Address>, kind: Kind)
    requires Inv(w)
    ensures forall d :: d in DyingData(w, dead, kind) ==> Waiting(w.books, d)
  {
  }

  lemma DyingDataApart(w: World, dead: set<Address>)
    requires Inv(w)
    ensures DyingData(w, dead, PersistentMap) !! DyingData(w, dead, GlobalMap)
  {
  }

  lemma ConservedCollect(w: World, dead: set<Address>)
    requires Inv(w)
    ensures Conserved(CollectBooks(w, dead))
  {
    var b := w.books;
    DyingDataWaits(w, dead, PersistentMap);
    DyingDataWaits(w, dead, GlobalMap);
    DyingDataApart(w, dead);
    ConservedSets(b, DyingData(w, dead, PersistentMap), DyingData(w, dead, GlobalMap));
  }

  lemma ConservedSets(b: Books, gone: set<DataId>, queued: set<DataId>)
    requires Conserved(b) && gone !! queued
    requires forall d :: d in gone || d in queued ==> Waiting(b, d)
    ensures Conserved(b.(data := b.data - gone, second := b.second + multiset(queued), collected := b.collected + multiset(gone)))
  {
  }

  lemma OwnedCollect(w: World, dead: set<Address>, reloc: map<Address, Address>)
    requires Owned(w) && CanCollect(w, dead, reloc)
    ensures Owned(Collect(w, dead, reloc))
  {
    var w' := Collect(w, dead, reloc);
    forall l | l in w'.cells ensures OwnerHolds(w', l) {
      assert OwnerHolds(w, l);
    }
  }

  // After a collection, the data of a weak cell is still waiting exactly if the cell survived.
  lemma SurvivorData(w: World, dead: set<Address>, l: Loc)
    requires Inv(w) && l in w.cells && w.cells[l].node.Weak?
    ensures Waiting(CollectBooks(w, dead), w.cells[l].node.param) <==> !Dies(w, dead, l)
  {
  }

  lemma KindsCollect(w: World, dead: set<Address>, reloc: map<Address, Address>)
    requires Inv(w) && CanCollect(w, dead, reloc)
    ensures Kinds(Collect(w, dead, reloc))
  {
  }

  lemma WaitingCollect(w: World, dead: set<Address>, d: DataId)
    requires Inv(w) && Waiting(CollectBooks(w, dead), d)
    ensures d in w.books.data && CollectBooks(w, dead).data[d] == w.books.data[d]
    ensures Installed(w, w.books.data[d].cell, d) && !Dies(w, dead, w.books.data[d].cell)
  {
    assert Waiting(w.books, d);
    SurvivorData(w, dead, w.books.data[d].cell);
  }

  lemma PlacedCollect(w: World, dead: set<Address>, reloc: map<Address, Address>)
    requires Inv(w) && CanCollect(w, dead, reloc)
    ensures DataPlaced(Collect(w, dead, reloc))
  {
    var w' := Collect(w, dead, reloc);
    forall l | l in w'.cells && w'.cells[l].node.Weak? ensures w'.books.second[w'.cells[l].node.param] == 0 {
      SurvivorData(w, dead, l);
    }
    forall d | Waiting(w'.books, d) ensures Installed(w', w'.books.data[d].cell, d) {
      WaitingCollect(w, dead, d);
    }
  }

  lemma ObjectsCollect(w: World, dead: set<Address>, reloc: map<Address, Address>)
    requires Inv(w) && CanCollect(w, dead, reloc)
    ensures ObjectsAlive(Collect(w, dead, reloc))
  {
    var w' := Collect(w, dead, reloc);
    forall l | l in w'.cells ensures !w'.cells[l].node.NearDeath? && w'.cells[l].node.obj in w'.objects {
      assert w.cells[l].node.obj in w.objects - dead;
    }
    forall a', b' | a' in w'.objects && b' in w'.objects && w'.objects[a'] == w'.objects[b'] ensures Same(a', b') {
      var a :| a in w.objects - dead && reloc[a] == a';
      var b :| b in w.objects - dead && reloc[b] == b';
      assert Same(a, b);
    }
  }

  lemma InvCollect(w: World, dead: set<Address>, reloc: map<Address, Address>)
    requires Inv(w) && CanCollect(w, dead, reloc)
    ensures Inv(Collect(w, dead, reloc))
  {
    OwnedCollect(w, dead, reloc);
    KindsCollect(w, dead, reloc);
    PlacedCollect(w, dead, reloc);
    ConservedCollect(w, dead);
    ObjectsCollect(w, dead, reloc);
  }

  lemma InvSecondPass(w: World, d: DataId)
    requires Inv(w) && d in w.books.second
    ensures Inv(SecondPass(w, d))
  {
    var w' := SecondPass(w, d);
    OwnedFrame(w, w');
    assert Kinds(w') by {
      forall l | l in w'.cells ensures Fits(w', l, w'.cells[l]) {
        assert Fits(w, l, w.cells[l]);
      }
    }
    assert DataPlaced(w') by {
      forall e | Waiting(w'.books, e) ensures Installed(w', w'.books.data[e].cell, e) {
        assert Waiting(w.books, e);
      }
    }
  }

  // All queued second-pass callbacks have run.
  ghost function Drained(w: World): World {
    w.(books := w.books.(second := multiset{},
                         data := w.books.data - (set d | d in w.books.second),
                         collected := w.books.collected + w.books.second))
  }

  lemma DrainedAfterOne(w: World, d: DataId)
    requires Inv(w) && d in w.books.second
    ensures Drained(SecondPass(w, d)) == Drained(w)
  {
    assert w.books.second[d] <= 1;
    assert w.books.second - multiset{d} + multiset{d} == w.books.second;
  }

  lemma DrainedNone(w: World)
    requires w.books.second == multiset{}
    ensures Drained(w) == w
  {
  }

  lemma InvDrained(w: World)
    requires Inv(w)
    ensures Inv(Drained(w))
  {
    var w' := Drained(w);
    OwnedFrame(w, w');
    assert Kinds(w') by {
      forall l | l in w'.cells ensures Fits(w', l, w'.cells[l]) {
        assert Fits(w, l, w.cells[l]);
      }
    }
    assert DataPlaced(w') by {
      forall e | Waiting(w'.books, e) ensures Installed(w', w'.books.data[e].cell, e) {
        assert Waiting(w.books, e);
      }
    }
  }
}
