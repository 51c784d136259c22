/**
 Persistent handles as operations on a `World`: `PersistentBase::Reset`, `Persistent::Copy`,
 `SetWeak`, and the moves and destructor of `Global`.  Each operation keeps `Inv`.
 */
module Handles {
  import opened Cells

  // A cell address the allocator may hand out: not null and not in use. It may have been in use before.
  predicate Available(w: World, l: Loc) {
    l != Null && l !in w.cells
  }

  function Referent(w: World, h: Addr): Option<Address> {
    NodeObject(w, InHandle(h))
  }

  // `MoveGlobalReference`: a phantom node must know the handle that now owns it.
  function Repointed(n: Node, h: Addr): Node {
    if n.Phantom? then Phantom(n.obj, h) else n
  }

  function NewHandle(w: World, h: Addr): World {
    w.(handles := w.handles + {h})
  }

  function Reset(w: World, h: Addr): World {
    if InHandle(h) in w.at then Free(w, InHandle(h)) else w
  }

  // `Reset(isolate, Local)`; `a` is what the Local refers to, if it is non-empty.
  function ResetTo(w: World, h: Addr, a: Option<Address>, l: Loc): World {
    if a.None? then Reset(w, h) else Alloc(Reset(w, h), InHandle(h), l, Strong(a.value))
  }

  // `Reset(isolate, PersistentBase)` and `Persistent::Copy`: the source is looked at only
  // after the destination has been reset.
  function ResetFrom(w: World, h: Addr, src: Addr, l: Loc): World {
    ResetTo(w, h, Referent(Reset(w, h), src), l)
  }

  function MoveAssign(w: World, dst: Addr, src: Addr): World {
    if dst == src then w else
      var w1 := Reset(w, dst);
      var l := At(w1, InHandle(src));
      if l !in w1.cells || InHandle(src) !in w1.at then w1
      else Transfer(w1, InHandle(src), InHandle(dst), Repointed(w1.cells[l].node, dst))
  }

  // The move constructor: the new handle starts out with no cell.
  function MoveConstruct(w: World, h: Addr, src: Addr): World {
    MoveAssign(NewHandle(w, h), h, src)
  }

  function Destroy(w: World, h: Addr): World {
    Reset(w, h).(handles := w.handles - {h})
  }

  // `SetWeak()`: the collector will reset this handle when the object dies.
  function SetPhantom(w: World, h: Addr): World
    requires InHandle(h) in w.at && Referent(w, h).Some?
  {
    Alloc(w, InHandle(h), w.at[InHandle(h)], Phantom(Referent(w, h).value, h))
  }

  // `ClearWeak()` on a handle.
  function ClearWeak(w: World, h: Addr): World
    requires InHandle(h) in w.at && Referent(w, h).Some?
  {
    Alloc(w, InHandle(h), w.at[InHandle(h)], Strong(Referent(w, h).value))
  }

  // A change to handles, and to cells that handles own, keeps the rest of `Inv`.
  lemma InvHandle(w: World, w': World)
    requires Inv(w) && Owned(w')
    requires w' == w.(cells := w'.cells, at := w'.at, handles := w'.handles)
    requires forall l :: l in w.cells && w.cells[l].owner.InImpl? ==> l in w'.cells && w.cells[l] == w'.cells[l]
    requires forall l :: l in w'.cells && w'.cells[l].owner.InImpl? ==> l in w.cells && w.cells[l] == w'.cells[l]
    requires forall l :: l in w'.cells && w'.cells[l].owner.InHandle? ==>
      !w'.cells[l].node.NearDeath? && w'.cells[l].node.obj in w.objects && Fits(w', l, w'.cells[l])
    ensures Inv(w')
  {
  }

  lemma InvReset(w: World, h: Addr)
    requires Inv(w)
    ensures Inv(Reset(w, h))
  {
    if InHandle(h) in w.at {
      OwnedFree(w, InHandle(h));
      InvHandle(w, Reset(w, h));
    }
  }

  lemma InvAlloc(w: World, h: Addr, l: Loc, a: Address)
    requires Inv(w) && h in w.handles && InHandle(h) !in w.at && Available(w, l) && a in w.objects
    ensures Inv(Alloc(w, InHandle(h), l, Strong(a)))
  {
    OwnedAlloc(w, InHandle(h), l, Strong(a));
    InvHandle(w, Alloc(w, InHandle(h), l, Strong(a)));
  }

  lemma InvResetTo(w: World, h: Addr, a: Option<Address>, l: Loc)
    requires Inv(w) && h in w.handles
    requires a.Some? ==> a.value in w.objects && Available(Reset(w, h), l)
    ensures Inv(ResetTo(w, h, a, l))
  {
    InvReset(w, h);
    if a.Some? {
      InvAlloc(Reset(w, h), h, l, a.value);
    }
  }

  // A change that moves no cell.
  lemma OwnedFrame(w: World, w': World)
    requires Owned(w) && w'.cells.Keys == w.cells.Keys && w'.at == w.at
    requires forall l :: l in w.cells ==> w'.cells[l].owner == w.cells[l].owner
    requires forall p :: p in w.at ==> Exists(w', p)
    ensures Owned(w')
  {
    forall l | l in w'.cells ensures OwnerHolds(w', l) {
      assert OwnerHolds(w, l);
    }
  }

  lemma InvNewHandle(w: World, h: Addr)
    requires Inv(w)
    ensures Inv(NewHandle(w, h))
  {
    OwnedFrame(w, NewHandle(w, h));
    InvHandle(w, NewHandle(w, h));
  }

  lemma InvTransfer(w: World, src: Addr, dst: Addr)
    requires Inv(w) && dst in w.handles && InHandle(src) in w.at && InHandle(dst) !in w.at
    ensures Inv(Transfer(w, InHandle(src), InHandle(dst), Repointed(w.cells[w.at[InHandle(src)]].node, dst)))
  {
    var n := Repointed(w.cells[w.at[InHandle(src)]].node, dst);
    OwnedTransfer(w, InHandle(src), InHandle(dst), n);
    InvHandle(w, Transfer(w, InHandle(src), InHandle(dst), n));
  }

  lemma InvMoveAssign(w: World, dst: Addr, src: Addr)
    requires Inv(w) && dst in w.handles
    ensures Inv(MoveAssign(w, dst, src))
  {
    InvReset(w, dst);
    if dst != src && InHandle(src) in Reset(w, dst).at {
      InvTransfer(Reset(w, dst), src, dst);
    }
  }

  lemma InvDestroy(w: World, h: Addr)
    requires Inv(w)
    ensures Inv(Destroy(w, h))
  {
    InvReset(w, h);
    OwnedFrame(Reset(w, h), Destroy(w, h));
    InvHandle(Reset(w, h), Destroy(w, h));
  }

  lemma InvSetNode(w: World, h: Addr, n: Node)
    requires Inv(w) && InHandle(h) in w.at
    requires Referent(w, h).Some? && (n == Strong(Referent(w, h).value) || n == Phantom(Referent(w, h).value, h))
    ensures Inv(Alloc(w, InHandle(h), w.at[InHandle(h)], n))
  {
    var w' := Alloc(w, InHandle(h), w.at[InHandle(h)], n);
    assert w'.at == w.at;
    OwnedFrame(w, w');
    InvHandle(w, w');
  }

  /* All handle operations. */

  datatype HandleOp =
    | Construct(h: Addr, value: Option<Address>, l: Loc)
    | ConstructFrom(h: Addr, src: Addr, l: Loc)
    | MoveNew(h: Addr, src: Addr)
    | MoveInto(h: Addr, src: Addr)
    | ResetOnly(h: Addr)
    | Assign(h: Addr, value: Option<Address>, l: Loc)
    | Copy(h: Addr, src: Addr, l: Loc)
    | MakePhantom(h: Addr)
    | MakeStrong(h: Addr)
    | Destruct(h: Addr)

  ghost predicate Assignable(w: World, value: Option<Address>, l: Loc) {
    value.Some? ==> value.value in w.objects && Available(w, l)
  }

  // What the operation demands of its caller and of the allocator.
  ghost predicate HandleEnabled(w: World, op: HandleOp) {
    match op
    case Construct(h, value, l) => h !in w.handles && Assignable(w, value, l)
    case ConstructFrom(h, src, l) => h !in w.handles && src in w.handles && Available(w, l)
    case MoveNew(h, src) => h !in w.handles && src in w.handles
    case MoveInto(h, src) => h in w.handles && src in w.handles
    case ResetOnly(h) => h in w.handles
    case Assign(h, value, l) => h in w.handles && Assignable(Reset(w, h), value, l)
    case Copy(h, src, l) => h in w.handles && src in w.handles && Available(Reset(w, h), l)
    case MakePhantom(h) => InHandle(h) in w.at && Referent(w, h).Some?
    case MakeStrong(h) => InHandle(h) in w.at && Referent(w, h).Some?
    case Destruct(h) => h in w.handles
  }

  function HandleStep(w: World, op: HandleOp): World
    requires HandleEnabled(w, op)
  {
    match op
    case Construct(h, value, l) => ResetTo(NewHandle(w, h), h, value, l)
    case ConstructFrom(h, src, l) => ResetFrom(NewHandle(w, h), h, src, l)
    case MoveNew(h, src) => MoveConstruct(w, h, src)
    case MoveInto(h, src) => MoveAssign(w, h, src)
    case ResetOnly(h) => Reset(w, h)
    case Assign(h, value, l) => ResetTo(w, h, value, l)
    case Copy(h, src, l) => ResetFrom(w, h, src, l)
    case MakePhantom(h) => SetPhantom(w, h)
    case MakeStrong(h) => ClearWeak(w, h)
    case Destruct(h) => Destroy(w, h)
  }

  lemma InvCopy(w: World, h: Addr, src: Addr, l: Loc)
    requires Inv(w) && h in w.handles && Available(Reset(w, h), l)
    ensures Inv(ResetFrom(w, h, src, l))
  {
    InvReset(w, h);
    InvResetTo(w, h, Referent(Reset(w, h), src), l);
  }

  lemma InvHandleStep(w: World, op: HandleOp)
    requires Inv(w) && HandleEnabled(w, op)
    ensures Inv(HandleStep(w, op))
  {
    match op
    case Construct(h, value, l) => InvNewHandle(w, h); InvResetTo(NewHandle(w, h), h, value, l);
    case ConstructFrom(h, src, l) => InvNewHandle(w, h); InvCopy(NewHandle(w, h), h, src, l);
    case MoveNew(h, src) => InvNewHandle(w, h); InvMoveAssign(NewHandle(w, h), h, src);
    case MoveInto(h, src) => InvMoveAssign(w, h, src);
    case ResetOnly(h) => InvReset(w, h);
    case Assign(h, value, l) => InvResetTo(w, h, value, l);
    case Copy(h, src, l) => InvCopy(w, h, src, l);
    case MakePhantom(h) => InvSetNode(w, h, Phantom(Referent(w, h).value, h));
    case MakeStrong(h) => InvSetNode(w, h, Strong(Referent(w, h).value));
    case Destruct(h) => InvDestroy(w, h);
  }

  // Maps, callback data and objects are the same.
  ghost predicate Kept(w: World, w': World) {
    w'.maps == w.maps && w'.books == w.books && w'.objects == w.objects
  }

  lemma KeptReset(w: World, h: Addr, value: Option<Address>, l: Loc)
    ensures Kept(w, Reset(w, h)) && Kept(w, ResetTo(w, h, value, l))
  {
  }

  lemma KeptMove(w: World, dst: Addr, src: Addr)
    ensures Kept(w, MoveAssign(w, dst, src))
  {
  }

  /** A handle operation changes no map, no callback data, and no object. */
  lemma KeptStep(w: World, op: HandleOp)
    requires HandleEnabled(w, op)
    ensures Kept(w, HandleStep(w, op))
  {
    match op
    case Construct(h, value, l) => KeptReset(NewHandle(w, h), h, value, l);
    case ConstructFrom(h, src, l) => KeptReset(NewHandle(w, h), h, Referent(Reset(NewHandle(w, h), h), src), l);
    case MoveNew(h, src) => KeptMove(NewHandle(w, h), h, src);
    case MoveInto(h, src) => KeptMove(w, h, src);
    case ResetOnly(h) => KeptReset(w, h, None, Null);
    case Assign(h, value, l) => KeptReset(w, h, value, l);
    case Copy(h, src, l) => KeptReset(w, h, Referent(Reset(w, h), src), l);
    case MakePhantom(h) =>
    case MakeStrong(h) =>
    case Destruct(h) => KeptReset(w, h, None, Null);
  }
}
