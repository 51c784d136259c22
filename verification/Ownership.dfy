/**
 Who owns which cell: the invariant as an embedder reads it, chains of moves, and copies.
 */
module Ownership {
  import opened Cells
  import opened Handles
  import opened Collection

  // Each live cell is owned by exactly one handle or map entry, and no handle or entry dangles.
  lemma OneOwner(w: World)
    requires Inv(w)
    ensures forall p :: At(w, p) != Null ==> At(w, p) in w.cells
    ensures forall l :: l in w.cells ==> exists p :: At(w, p) == l
    ensures forall p, q :: At(w, p) == At(w, q) && At(w, p) != Null ==> p == q
  {
    forall l | l in w.cells ensures exists p :: At(w, p) == l {
      assert OwnerHolds(w, l);
      assert At(w, w.cells[l].owner) == l;
    }
  }

  // There are as many live cells as non-empty handles and map entries.
  lemma {:induction false} CellCount(w: World)
    requires Owned(w)
    ensures |w.cells| == |w.at|
    decreases |w.at|
  {
    if w.at == map[] {
      assert forall l :: l in w.cells ==> OwnerHolds(w, l);
      assert w.cells == map[];
    } else {
      var p :| p in w.at;
      var w' := Free(w, p);
      OwnedFree(w, p);
      assert w'.at.Keys == w.at.Keys - {p} && w'.cells.Keys == w.cells.Keys - {w.at[p]};
      CellCount(w');
    }
  }

  /* Moves. */

  // `hs[0]` is moved into `hs[1]`, that into `hs[2]`, and so on.
  function Moves(w: World, hs: seq<Addr>): World
    requires |hs| > 0
    decreases |hs|
  {
    if |hs| == 1 then w else Moves(MoveAssign(w, hs[1], hs[0]), hs[1..])
  }

  // `w'` differs from `w` only in what the handles in `hs` hold.
  ghost predicate SameOutside(w: World, w': World, hs: set<Addr>) {
    && w'.handles == w.handles
    && (forall p: Place :: p.InImpl? || p.h !in hs ==> At(w', p) == At(w, p))
  }

  // The cell of `hs[0]` has ended up in the last handle of `hs`.
  ghost predicate Chained(w: World, w': World, hs: seq<Addr>)
    requires |hs| > 0
  {
    var l := At(w, InHandle(hs[0]));
    var last := hs[|hs| - 1];
    && At(w', InHandle(last)) == l
    && l in w.cells && l in w'.cells && w'.cells[l].node == Repointed(w.cells[l].node, last)
    && (forall h :: h in hs && h != last ==> At(w', InHandle(h)) == Null)
    && SameOutside(w, w', set h | h in hs)
  }

  lemma MoveEffect(w: World, dst: Addr, src: Addr)
    requires Inv(w) && dst in w.handles && InHandle(src) in w.at && dst != src
    ensures var w' := MoveAssign(w, dst, src);
      var l := w.at[InHandle(src)];
      && At(w', InHandle(dst)) == l && l in w'.cells && w'.cells[l].node == Repointed(w.cells[l].node, dst)
      && At(w', InHandle(src)) == Null
      && SameOutside(w, w', {src, dst})
  {
    InvReset(w, dst);
  }

  lemma ChainedSelf(w: World, h: Addr)
    requires Inv(w) && InHandle(h) in w.at
    ensures Chained(w, w, [h])
  {
  }

  lemma MoveChained(w: World, dst: Addr, src: Addr)
    requires Inv(w) && dst in w.handles && InHandle(src) in w.at
    ensures Chained(w, MoveAssign(w, dst, src), [src, dst])
  {
    var l := w.at[InHandle(src)];
    assert Fits(w, l, w.cells[l]);
    if dst != src {
      MoveEffect(w, dst, src);
    }
  }

  lemma MoveFirst(w: World, hs: seq<Addr>)
    requires Inv(w) && |hs| > 1 && hs[1] in w.handles && InHandle(hs[0]) in w.at
    ensures var w1 := MoveAssign(w, hs[1], hs[0]);
      Inv(w1) && w1.handles == w.handles && InHandle(hs[1]) in w1.at && Chained(w, w1, hs[..2])
  {
    var w1 := MoveAssign(w, hs[1], hs[0]);
    assert hs[..2] == [hs[0], hs[1]];
    assert Chained(w, w1, [hs[0], hs[1]]) by {
      MoveChained(w, hs[1], hs[0]);
    }
    assert Inv(w1) by {
      InvMoveAssign(w, hs[1], hs[0]);
    }
  }

  lemma ChainedCons(w: World, w1: World, w': World, hs: seq<Addr>)
    requires |hs| > 1 && Chained(w1, w', hs[1..]) && Chained(w, w1, hs[..2])
    ensures Chained(w, w', hs)
  {
  }

  /**
   After any chain of moves, self-moves included, the cell and its object are the same, the last
   handle owns it, a phantom cell points back to that handle, the other handles of the chain are
   empty, and nothing outside the chain has changed.
   */
  lemma {:induction false} MoveChain(w: World, hs: seq<Addr>)
    requires Inv(w) && |hs| > 0 && (forall h :: h in hs ==> h in w.handles) && InHandle(hs[0]) in w.at
    ensures Inv(Moves(w, hs)) && Chained(w, Moves(w, hs), hs)
    decreases |hs|
  {
    if |hs| == 1 {
      ChainedSelf(w, hs[0]);
      assert hs == [hs[0]];
    } else {
      var w1 := MoveAssign(w, hs[1], hs[0]);
      MoveFirst(w, hs);
      MoveChain(w1, hs[1..]);
      ChainedCons(w, w1, Moves(w1, hs[1..]), hs);
    }
  }

  /** The move constructor hands the cell to the new handle, re-pointed, and leaves the source empty. */
  lemma MoveConstructChained(w: World, h: Addr, src: Addr)
    requires Inv(w) && h !in w.handles && InHandle(src) in w.at
    ensures Inv(MoveConstruct(w, h, src)) && Chained(NewHandle(w, h), MoveConstruct(w, h, src), [src, h])
  {
    InvNewHandle(w, h);
    InvMoveAssign(NewHandle(w, h), h, src);
    MoveChained(NewHandle(w, h), h, src);
  }

  /** The same chain when its first move constructs a handle. */
  lemma MoveChainFromNew(w: World, h: Addr, src: Addr, hs: seq<Addr>)
    requires Inv(w) && h !in w.handles && InHandle(src) in w.at && (forall x :: x in hs ==> x in w.handles || x == h)
    ensures var w' := Moves(MoveConstruct(w, h, src), [h] + hs); Inv(w') && Chained(NewHandle(w, h), w', [src, h] + hs)
  {
    InvNewHandle(w, h);
    var all := [src, h] + hs;
    forall x | x in all ensures x in NewHandle(w, h).handles {
      assert x == src || x == h || x in hs;
    }
    assert all[1..] == [h] + hs;
    MoveChain(NewHandle(w, h), all);
  }

  /* Weak handles. */

  /** `SetWeak` makes the node weak, with a back-pointer to this handle, and keeps cell and object. */
  lemma SetWeakExact(w: World, h: Addr)
    requires Inv(w) && InHandle(h) in w.at && Referent(w, h).Some?
    ensures var l, w' := w.at[InHandle(h)], SetPhantom(w, h);
      && w'.at == w.at && w'.cells.Keys == w.cells.Keys
      && w'.cells[l].node == Phantom(Referent(w, h).value, h)
      && (forall x :: x in w.cells && x != l ==> w'.cells[x] == w.cells[x])
  {
    assert SetPhantom(w, h).at == w.at;
  }

  /** `ClearWeak` makes the node strong again, so that every collection keeps the handle. */
  lemma ClearWeakExact(w: World, h: Addr, dead: set<Address>, reloc: map<Address, Address>)
    requires Inv(w) && InHandle(h) in w.at && Referent(w, h).Some?
    ensures var l, w' := w.at[InHandle(h)], ClearWeak(w, h);
      && w'.at == w.at && w'.cells.Keys == w.cells.Keys
      && w'.cells[l].node == Strong(Referent(w, h).value)
      && (forall x :: x in w.cells && x != l ==> w'.cells[x] == w.cells[x])
      && (CanCollect(w', dead, reloc) ==> At(Collect(w', dead, reloc), InHandle(h)) == l)
  {
    assert ClearWeak(w, h).at == w.at;
  }

  /** A collection resets a phantom handle, whoever owns the cell by now, exactly if the object is dead. */
  lemma PhantomReset(w: World, dead: set<Address>, reloc: map<Address, Address>, h: Addr)
    requires Inv(w) && CanCollect(w, dead, reloc)
    requires InHandle(h) in w.at && w.cells[w.at[InHandle(h)]].node.Phantom?
    ensures w.cells[w.at[InHandle(h)]].node.back == h
    ensures InHandle(h) in Collect(w, dead, reloc).at <==> w.cells[w.at[InHandle(h)]].node.obj !in dead
    ensures InHandle(h) !in Collect(w, dead, reloc).at ==> w.at[InHandle(h)] !in Collect(w, dead, reloc).cells
    ensures forall p :: p in w.at && w.cells[w.at[p]].node.Strong? ==>
      p in Collect(w, dead, reloc).at && Collect(w, dead, reloc).at[p] == w.at[p]
  {
  }

  /* Copies. */

  /** Copying from another handle frees exactly the old cell, takes a new one for the same object, and leaves the source alone. */
  lemma CopyDistinct(w: World, h: Addr, src: Addr, l: Loc)
    requires Inv(w) && h != src && h in w.handles && InHandle(src) in w.at && Available(Reset(w, h), l)
    ensures var w' := ResetFrom(w, h, src, l);
      && Referent(w', h) == Referent(w, src) && At(w', InHandle(h)) == l
      && w'.cells.Keys == w.cells.Keys - {At(w, InHandle(h))} + {l}
      && (forall p :: p != InHandle(h) ==> At(w', p) == At(w, p))
      && (forall x :: x in w.cells && x != At(w, InHandle(h)) ==> w'.cells[x] == w.cells[x])
  {
    assert w.cells.Keys - {Null} == w.cells.Keys;
  }

  /** When a handle is its own source it ends up empty, with its cell freed. */
  lemma CopySelf(w: World, h: Addr, l: Loc)
    requires Inv(w)
    ensures ResetFrom(w, h, h, l) == Reset(w, h)
    ensures At(ResetFrom(w, h, h, l), InHandle(h)) == Null
    ensures ResetFrom(w, h, h, l).cells.Keys == w.cells.Keys - {At(w, InHandle(h))}
  {
  }

  /** The destination refers to what the source referred to exactly if the handles are distinct or the source was empty. */
  lemma CopyKeepsReferent(w: World, h: Addr, src: Addr, l: Loc)
    requires Inv(w) && h in w.handles && src in w.handles && Available(Reset(w, h), l)
    ensures Referent(ResetFrom(w, h, src, l), h) == Referent(w, src) <==> h != src || Referent(w, src) == None
  {
  }

  // `EqualHandles` compares object addresses.
  predicate EqualHandles(w: World, p: Place, q: Place) {
    if p !in w.at then q !in w.at
    else if q !in w.at then false
    else NodeObject(w, p) == NodeObject(w, q)
  }

  /** Handles compare equal iff both are empty or both refer to the same object. */
  lemma EqualHandlesIsIdentity(w: World, p: Place, q: Place)
    requires Inv(w)
    ensures EqualHandles(w, p, q) <==> ObjectOf(w, p) == ObjectOf(w, q)
  {
    if p in w.at && q in w.at {
      assert Same(w.cells[w.at[p]].node.obj, w.cells[w.at[q]].node.obj) ==> EqualHandles(w, p, q);
    }
  }
}
