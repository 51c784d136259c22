/**
 What clearing a map does to callback data: that of its own entries is disposed by `Release`, each
 once, and all other callback data is left as it was, queued second-pass callbacks included.
 */
module ClearedData {
  import opened Cells
  import opened Runs
  import opened Frames
  import opened PlainMaps
  import opened CallbackData
  import opened ClearSteps

  // The callback data is waiting, for an entry of map `m`.
  ghost predicate HeldIn(w: World, m: MapId, d: DataId) {
    Waiting(w.books, d) && var l := w.books.data[d].cell; l in w.cells && w.cells[l].owner.InImpl? && w.cells[l].owner.m == m
  }

  // One piece of callback data, before and after map `m` was cleared.
  ghost predicate AfterClear(w: World, w': World, m: MapId, d: DataId) {
    var s, s' := StageOf(w.books, d), StageOf(w'.books, d);
    if s == Unborn then s' == Unborn || s' == DisposedByRelease
    else if HeldIn(w, m, d) then s' == DisposedByRelease
    else s' == s
  }

  // The weak cell of waiting data is where the data says.
  lemma WaitingCell(w: World, d: DataId)
    requires Inv(w) && Waiting(w.books, d)
    ensures StageOf(w.books, d) == Held
    ensures Installed(w, w.books.data[d].cell, d) && OwnerHolds(w, w.books.data[d].cell)
    ensures w.cells[w.books.data[d].cell].owner.InImpl?
  {
    var l := w.books.data[d].cell;
    assert Installed(w, l, d);
    assert Fits(w, l, w.cells[l]) && OwnerHolds(w, l);
  }

  lemma WeakIsWaiting(w: World, l: Loc)
    requires Inv(w) && l in w.cells && w.cells[l].node.Weak?
    ensures Waiting(w.books, w.cells[l].node.param) && w.books.data[w.cells[l].node.param].cell == l
  {
    assert Fits(w, l, w.cells[l]);
  }

  // Data that waits afterwards waited before, for the same cell, in another map.
  lemma StillWaiting(w: World, w': World, m: MapId, d: DataId)
    requires Inv(w) && Inv(w') && Outside(w, w', {m}) && (forall k :: InImpl(m, k) !in w'.at) && Waiting(w'.books, d)
    ensures Waiting(w.books, d) && !HeldIn(w, m, d)
  {
    WaitingCell(w', d);
    var l := w'.books.data[d].cell;
    var p := w'.cells[l].owner;
    assert InImpl(m, p.k) !in w'.at;
    assert Agree(w, w', p);
    WeakIsWaiting(w, l);
  }

  // Data of another map's entry waits as before.
  lemma OthersWait(w: World, w': World, m: MapId, d: DataId)
    requires Inv(w) && Inv(w') && Outside(w, w', {m}) && Waiting(w.books, d) && !HeldIn(w, m, d)
    ensures Waiting(w'.books, d) && StageOf(w'.books, d) == Held
  {
    WaitingCell(w, d);
    var l := w.books.data[d].cell;
    assert Agree(w, w', w.cells[l].owner);
    WeakIsWaiting(w', l);
    WaitingCell(w', d);
  }

  lemma NoPlaces(w: World, m: MapId)
    requires Inv(w) && Contents(w, m) == map[]
    ensures forall k :: InImpl(m, k) !in w.at
  {
    ContentsAll(w, m);
    forall k ensures InImpl(m, k) !in w.at {
      assert Lookup(Contents(w, m), k) == None;
      assert ObjectOf(w, InImpl(m, k)) == None;
    }
  }

  lemma LeadsStage(w: World, w': World, m: MapId, es: seq<Edit>, d: DataId)
    requires Leads(w, w', m, es)
    ensures DirectlyAfter(StageOf(w.books, d), StageOf(w'.books, d))
  {
    var ops :| Direct(ops) && Via(w, ops, w') && Edits(ops, m) == es;
    ViaIsRun(w, ops, w');
    DirectStages(w, ops, d);
  }

  lemma HeldIsWaiting(w: World, d: DataId)
    requires Inv(w)
    ensures StageOf(w.books, d) == Held <==> Waiting(w.books, d)
  {
  }

  lemma ClearedOne(w: World, w': World, m: MapId, es: seq<Edit>, d: DataId)
    requires Inv(w) && Inv(w') && Leads(w, w', m, es) && Outside(w, w', {m}) && (forall k :: InImpl(m, k) !in w'.at)
    ensures AfterClear(w, w', m, d)
  {
    LeadsStage(w, w', m, es, d);
    HeldIsWaiting(w, d);
    HeldIsWaiting(w', d);
    if Waiting(w'.books, d) {
      StillWaiting(w, w', m, d);
    } else if Waiting(w.books, d) && !HeldIn(w, m, d) {
      OthersWait(w, w', m, d);
    }
  }

  /** When map `m` has been cleared, the callback data of each of its entries has been disposed by `Release`, and no other. */
  lemma ClearDisposes(w: World, w': World, m: MapId, es: seq<Edit>)
    requires Leads(w, w', m, es) && Outside(w, w', {m}) && Contents(w', m) == map[]
    ensures forall d :: AfterClear(w, w', m, d)
  {
    LeadsInv(w, w', m, es);
    NoPlaces(w', m);
    forall d ensures AfterClear(w, w', m, d) {
      ClearedOne(w, w', m, es, d);
    }
  }
}
