/**
 The life of callback data: which entry it belongs to, and that it is disposed exactly once.
 */
module CallbackData {
  import opened Cells
  import opened Handles
  import opened ValueMaps
  import opened Collection
  import opened Runs

  /**
   A weak cell is the one stored under the key in its callback data, in the map the data names; or, while
   that map is being cleared, in the local backing map that its entries were swapped into.
   */
  lemma WeakCellUnderItsKey(w: World, l: Loc)
    requires Inv(w) && l in w.cells && w.cells[l].node.Weak?
    ensures w.cells[l].node.param in w.books.data && w.cells[l].owner.InImpl? && w.cells[l].owner.m in w.maps
    ensures var e, x := w.books.data[w.cells[l].node.param], w.cells[l].owner.m;
      && e.cell == l && w.maps[x].home == e.home && At(w, InImpl(x, e.key)) == l
      && (AtRest(w, e.home) ==> x == e.home)
  {
    assert Fits(w, l, w.cells[l]) && OwnerHolds(w, l);
  }

  // The life of one piece of callback data.
  datatype Stage = Unborn | Held | Queued | DisposedByRelease | DisposedByCallback

  ghost function StageOf(b: Books, d: DataId): Stage {
    if d !in b.created then Unborn
    else if d in b.data then (if b.second[d] == 0 then Held else Queued)
    else if b.released[d] == 1 then DisposedByRelease
    else DisposedByCallback
  }

  // The caller removes, replaces or clears the entry at `p`.
  predicate Leaves(op: Op, p: Place) {
    op.OnMap? && (op.mop.Set? || op.mop.Take?) && p == InImpl(op.mop.m, op.mop.k)
  }

  ghost function NextStage(w: World, op: Op, d: DataId): Stage
    requires Inv(w) && Enabled(w, op)
  {
    match StageOf(w.books, d)
    case Unborn => if op.OnMap? && op.mop.Set? && op.mop.d == d && w.maps[op.mop.m].weak then Held else Unborn
    case Held =>
      assert Waiting(w.books, d);
      var c := w.cells[w.books.data[d].cell];
      assert Fits(w, w.books.data[d].cell, c);
      if Leaves(op, c.owner) then DisposedByRelease
      else if op.Gc? && Dies(w, op.dead, w.books.data[d].cell) then
        (if w.maps[c.owner.m].kind == PersistentMap then DisposedByCallback else Queued)
      else Held
    case Queued => if op == RunSecondPass(d) then DisposedByCallback else Queued
    case DisposedByRelease => DisposedByRelease
    case DisposedByCallback => DisposedByCallback
  }

  lemma StageReleased(w: World, l: Loc, d: DataId)
    requires Inv(w) && l in w.cells
    ensures StageOf(Released(w.books, w.cells[l].node), d) ==
      if w.cells[l].node.Weak? && w.cells[l].node.param == d then DisposedByRelease else StageOf(w.books, d)
  {
  }

  lemma StageRemove(w: World, m: MapId, k: Key, r: Addr, d: DataId)
    requires Inv(w)
    ensures StageOf(Remove(w, m, k, r).books, d) ==
      if Waiting(w.books, d) && w.cells[w.books.data[d].cell].owner == InImpl(m, k) then DisposedByRelease else StageOf(w.books, d)
  {
    if Waiting(w.books, d) {
      var l := w.books.data[d].cell;
      assert Installed(w, l, d) && Fits(w, l, w.cells[l]) && OwnerHolds(w, l);
    }
    if InImpl(m, k) in w.at {
      var x := w.at[InImpl(m, k)];
      assert Fits(w, x, w.cells[x]);
      StageReleased(w, x, d);
    }
  }

  lemma StageInsert(w: World, m: MapId, k: Key, h: Addr, e: DataId, d: DataId)
    requires Inv(w) && m in w.maps && InHandle(h) in w.at && Referent(w, h).Some?
    requires w.maps[m].weak ==> e !in w.books.created
    ensures StageOf(Insert(w, m, k, h, e).books, d) == if d == e && w.maps[m].weak then Held else StageOf(w.books, d)
  {
  }

  lemma StageAfterSet(w: World, m: MapId, k: Key, h: Addr, e: DataId, r: Addr, d: DataId)
    requires Inv(w) && CanSet(w, m, h, e, r)
    ensures StageOf(SetUnique(w, m, k, h, e, r).books, d) ==
      if d == e && w.maps[m].weak then Held else StageOf(Remove(w, m, k, r).books, d)
  {
    InvRemove(w, m, k, r);
    RemoveLeaves(w, m, k, r);
    StageInsert(Remove(w, m, k, r), m, k, h, e, d);
  }

  lemma StageSet(w: World, m: MapId, k: Key, h: Addr, e: DataId, r: Addr, d: DataId)
    requires Inv(w) && CanSet(w, m, h, e, r)
    ensures StageOf(SetUnique(w, m, k, h, e, r).books, d) == NextStage(w, OnMap(Set(m, k, h, e, r)), d)
  {
    StageAfterSet(w, m, k, h, e, r, d);
    StageRemove(w, m, k, r, d);
  }

  lemma StageGc(w: World, dead: set<Address>, reloc: map<Address, Address>, d: DataId)
    requires Inv(w) && CanCollect(w, dead, reloc)
    ensures StageOf(CollectBooks(w, dead), d) == NextStage(w, Gc(dead, reloc), d)
  {
    DyingDataWaits(w, dead, PersistentMap);
    DyingDataWaits(w, dead, GlobalMap);
    if Waiting(w.books, d) {
      InDyingData(w, dead, w.books.data[d].cell, PersistentMap);
      InDyingData(w, dead, w.books.data[d].cell, GlobalMap);
    } else {
      assert d !in DyingData(w, dead, PersistentMap) && d !in DyingData(w, dead, GlobalMap);
    }
  }

  lemma BooksKept(w: World, op: MapOp)
    requires Inv(w) && MapEnabled(w, op) && !op.Set? && !op.Take?
    ensures MapStep(w, op).books == w.books
  {
  }

  lemma StageTake(w: World, m: MapId, k: Key, r: Addr, d: DataId)
    requires Inv(w) && MapEnabled(w, Take(m, k, r))
    ensures StageOf(Remove(w, m, k, r).books, d) == NextStage(w, OnMap(Take(m, k, r)), d)
  {
    StageRemove(w, m, k, r, d);
  }

  lemma StageOther(w: World, op: MapOp, d: DataId)
    requires Inv(w) && MapEnabled(w, op) && !op.Set? && !op.Take?
    ensures StageOf(MapStep(w, op).books, d) == NextStage(w, OnMap(op), d)
  {
    BooksKept(w, op);
  }

  lemma StageMap(w: World, op: MapOp, d: DataId)
    requires Inv(w) && MapEnabled(w, op)
    ensures StageOf(MapStep(w, op).books, d) == NextStage(w, OnMap(op), d)
  {
    match op
    case Set(m, k, h, e, r) => StageSet(w, m, k, h, e, r, d);
    case Take(m, k, r) => StageTake(w, m, k, r, d);
    case _ => StageOther(w, op, d);
  }

  /**
   Callback data moves through its stages exactly as `NextStage` says, whatever operation
   runs: created once by the `Set` that installs it, then disposed once, by `Release` if the caller
   took the entry out first and by the weak callback if the collector did. Disposed stays disposed.
   */
  lemma StageStep(w: World, op: Op, d: DataId)
    requires Inv(w) && Enabled(w, op)
    ensures StageOf(Step(w, op).books, d) == NextStage(w, op, d)
  {
    match op
    case NewObject(_, _) =>
    case OnHandle(hop) => KeptStep(w, hop);
    case OnMap(mop) => StageMap(w, mop, d);
    case Gc(dead, reloc) => StageGc(w, dead, reloc, d);
    case RunSecondPass(e) =>
  }

  predicate Disposed(s: Stage) {
    s.DisposedByRelease? || s.DisposedByCallback?
  }

  lemma StageStays(w: World, op: Op, d: DataId)
    requires Inv(w) && Enabled(w, op) && Disposed(StageOf(w.books, d))
    ensures StageOf(Step(w, op).books, d) == StageOf(w.books, d)
  {
    StageStep(w, op, d);
  }

  lemma {:induction false} DisposedForGood(w: World, ops: seq<Op>, d: DataId)
    requires Inv(w) && CanRun(w, ops) && Disposed(StageOf(w.books, d))
    ensures StageOf(Run(w, ops).books, d) == StageOf(w.books, d)
    decreases |ops|
  {
    if ops != [] {
      InvStep(w, ops[0]);
      StageStays(w, ops[0], d);
      DisposedForGood(Step(w, ops[0]), ops[1..], d);
    }
  }

  /** After any run, callback data has been disposed exactly once if it was created and is not live, and never otherwise. */
  lemma DisposedOnce(w: World, ops: seq<Op>, d: DataId)
    requires Inv(w) && CanRun(w, ops)
    ensures var b := Run(w, ops).books;
      b.released[d] + b.collected[d] == if d in b.created && d !in b.data then 1 else 0
  {
    RunKeepsInv(w, ops);
  }

  // Callback data of an entry of a `GlobalValueMap` whose object is dead.
  ghost predicate DiesInGlobalMap(w: World, dead: set<Address>, d: DataId) {
    && Waiting(w.books, d) && Dies(w, dead, w.books.data[d].cell)
    && OfKind(w, w.cells[w.books.data[d].cell].owner, GlobalMap)
  }

  lemma QueuedIff(w: World, dead: set<Address>, d: DataId)
    requires Inv(w)
    ensures d in DyingData(w, dead, GlobalMap) <==> DiesInGlobalMap(w, dead, d)
  {
  }

  lemma DeadGone(w: World, dead: set<Address>, reloc: map<Address, Address>, p: Place)
    requires Inv(w) && CanCollect(w, dead, reloc) && p in w.at
    ensures var w' := Collect(w, dead, reloc);
      if Dies(w, dead, w.at[p]) then p !in w'.at && w.at[p] !in w'.cells
      else p in w'.at && w'.at[p] == w.at[p] && w.at[p] in w'.cells
  {
  }

  lemma QueuedOnce(w: World, dead: set<Address>, reloc: map<Address, Address>, d: DataId)
    requires Inv(w) && CanCollect(w, dead, reloc)
    ensures Collect(w, dead, reloc).books.second[d] == w.books.second[d] + if DiesInGlobalMap(w, dead, d) then 1 else 0
  {
    QueuedIff(w, dead, d);
  }

  /**
   The two passes, for any set of dead objects. When the second pass starts, no dead cell is left in
   any map or handle and all of them are freed, every other entry and handle still has its cell, and
   exactly the dead entries of `GlobalValueMap`s have been queued, once each.
   */
  lemma TwoPass(w: World, dead: set<Address>, reloc: map<Address, Address>)
    requires Inv(w) && CanCollect(w, dead, reloc)
    ensures var w' := Collect(w, dead, reloc);
      && (forall p :: p in w.at && Dies(w, dead, w.at[p]) ==> p !in w'.at && w.at[p] !in w'.cells)
      && (forall p :: p in w.at && !Dies(w, dead, w.at[p]) ==> p in w'.at && w'.at[p] == w.at[p] && w.at[p] in w'.cells)
      && (forall d :: w'.books.second[d] == w.books.second[d] + if DiesInGlobalMap(w, dead, d) then 1 else 0)
  {
    var w' := Collect(w, dead, reloc);
    forall p | p in w.at
      ensures if Dies(w, dead, w.at[p]) then p !in w'.at && w.at[p] !in w'.cells
              else p in w'.at && w'.at[p] == w.at[p] && w.at[p] in w'.cells
    {
      DeadGone(w, dead, reloc, p);
    }
    forall d ensures w'.books.second[d] == w.books.second[d] + if DiesInGlobalMap(w, dead, d) then 1 else 0 {
      QueuedOnce(w, dead, reloc, d);
    }
  }

  /** The second pass calls each queued callback once, which disposes its data, and leaves all other data alone. */
  lemma SecondPassOnce(w: World, d: DataId)
    requires Inv(w)
    ensures Drained(w).books.collected[d] == w.books.collected[d] + if d in w.books.second then 1 else 0
    ensures d in Drained(w).books.data <==> d in w.books.data && d !in w.books.second
    ensures d !in Drained(w).books.second
  {
  }

  function SecondPasses(s: seq<DataId>): seq<Op> {
    seq(|s|, i requires 0 <= i < |s| => RunSecondPass(s[i]))
  }

  lemma NextInQueue(s: seq<DataId>, q: multiset<DataId>)
    requires multiset(s) == q && s != []
    ensures s[0] in q && multiset(s[1..]) == q - multiset{s[0]}
    ensures SecondPasses(s) == [RunSecondPass(s[0])] + SecondPasses(s[1..])
  {
    assert s == [s[0]] + s[1..];
    assert s[0] in multiset(s);
  }

  /** The second pass is a run of single callbacks, in whatever order they were queued. */
  lemma {:induction false} DrainedIsRun(w: World, s: seq<DataId>)
    requires Inv(w) && multiset(s) == w.books.second
    ensures Via(w, SecondPasses(s), Drained(w))
    decreases |s|
  {
    if s == [] {
      DrainedNone(w);
      ViaNone(w);
      assert SecondPasses(s) == [];
    } else {
      NextInQueue(s, w.books.second);
      InvSecondPass(w, s[0]);
      DrainedAfterOne(w, s[0]);
      DrainedIsRun(SecondPass(w, s[0]), s[1..]);
      ViaStep(w, RunSecondPass(s[0]));
      ViaTrans(w, [RunSecondPass(s[0])], SecondPass(w, s[0]), SecondPasses(s[1..]), Drained(w));
    }
  }

  /* Runs without collections. */

  // What can become of callback data while no collection and no second pass runs.
  predicate DirectlyAfter(s: Stage, s': Stage) {
    match s
    case Unborn => s'.Unborn? || s'.Held? || s'.DisposedByRelease?
    case Held => s'.Held? || s'.DisposedByRelease?
    case _ => s' == s
  }

  lemma DirectStage(w: World, op: Op, d: DataId)
    requires Inv(w) && Enabled(w, op) && (op.OnHandle? || op.OnMap?)
    ensures DirectlyAfter(StageOf(w.books, d), StageOf(Step(w, op).books, d))
  {
    StageStep(w, op, d);
  }

  lemma {:induction false} DirectStages(w: World, ops: seq<Op>, d: DataId)
    requires Inv(w) && CanRun(w, ops) && Direct(ops)
    ensures DirectlyAfter(StageOf(w.books, d), StageOf(Run(w, ops).books, d))
    decreases |ops|
  {
    if ops != [] {
      assert ops[0] in ops;
      InvStep(w, ops[0]);
      DirectStage(w, ops[0], d);
      DirectStages(Step(w, ops[0]), ops[1..], d);
    }
  }
}
