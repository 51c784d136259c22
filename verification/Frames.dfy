/**
 What an operation leaves alone: the places, outside a given set, that hold the same cell before and after.
 */
module Frames {
  import opened Cells
  import opened Handles
  import opened ValueMaps
  import opened Runs

  // Place `p` holds the same cell, with the same node, in both worlds.
  ghost predicate Agree(w: World, w': World, p: Place) {
    && (p in w'.at <==> p in w.at)
    && (p in w.at && w.at[p] in w.cells ==> w'.at[p] == w.at[p] && w.at[p] in w'.cells && w'.cells[w.at[p]] == w.cells[w.at[p]])
  }

  // The places an operation may change.
  predicate Touches(op: Op, p: Place) {
    match op
    case OnHandle(hop) =>
      p == InHandle(hop.h) || ((hop.MoveNew? || hop.MoveInto?) && p == InHandle(hop.src))
    case OnMap(Set(m, k, h, _, r)) => p == InImpl(m, k) || p == InHandle(h) || p == InHandle(r)
    case OnMap(Take(m, k, r)) => p == InImpl(m, k) || p == InHandle(r)
    case OnMap(BeginClear(m, f)) => p.InImpl? && (p.m == m || p.m == f)
    case Gc(_, _) => true
    case _ => false
  }

  lemma AgreeReset(w: World, h: Addr, p: Place)
    requires Owned(w) && p != InHandle(h)
    ensures Agree(w, Reset(w, h), p)
  {
  }

  lemma AgreeResetTo(w: World, h: Addr, value: Option<Address>, l: Loc, p: Place)
    requires Inv(w) && p != InHandle(h) && (value.Some? ==> Available(Reset(w, h), l))
    ensures Agree(w, ResetTo(w, h, value, l), p)
  {
  }

  lemma AgreeMove(w: World, dst: Addr, src: Addr, p: Place)
    requires Inv(w) && p != InHandle(dst) && p != InHandle(src)
    ensures Agree(w, MoveAssign(w, dst, src), p)
  {
    AgreeReset(w, dst, p);
    InvReset(w, dst);
  }

  lemma AgreeHandle(w: World, op: HandleOp, p: Place)
    requires Inv(w) && HandleEnabled(w, op) && !Touches(OnHandle(op), p)
    ensures Agree(w, HandleStep(w, op), p)
  {
    match op
    case Construct(h, value, l) => InvNewHandle(w, h); AgreeResetTo(NewHandle(w, h), h, value, l, p);
    case ConstructFrom(h, src, l) => InvNewHandle(w, h); AgreeResetTo(NewHandle(w, h), h, Referent(NewHandle(w, h), src), l, p);
    case MoveNew(h, src) => InvNewHandle(w, h); AgreeMove(NewHandle(w, h), h, src, p);
    case MoveInto(h, src) => AgreeMove(w, h, src, p);
    case ResetOnly(h) => AgreeReset(w, h, p);
    case Assign(h, value, l) => AgreeResetTo(w, h, value, l, p);
    case Copy(h, src, l) => AgreeResetTo(w, h, Referent(Reset(w, h), src), l, p);
    case MakePhantom(h) =>
    case MakeStrong(h) =>
    case Destruct(h) => AgreeReset(w, h, p);
  }

  lemma AgreeRemove(w: World, m: MapId, k: Key, r: Addr, p: Place)
    requires Inv(w) && r !in w.handles && p != InImpl(m, k) && p != InHandle(r)
    ensures Agree(w, Remove(w, m, k, r), p)
  {
  }

  lemma AgreeInsert(w: World, m: MapId, k: Key, h: Addr, d: DataId, p: Place)
    requires Inv(w) && m in w.maps && Referent(w, h).Some? && InImpl(m, k) !in w.at && p != InImpl(m, k) && p != InHandle(h)
    ensures Agree(w, Insert(w, m, k, h, d), p)
  {
  }

  lemma AgreeSet(w: World, m: MapId, k: Key, h: Addr, d: DataId, r: Addr, p: Place)
    requires Inv(w) && CanSet(w, m, h, d, r) && p != InImpl(m, k) && p != InHandle(h) && p != InHandle(r)
    ensures Agree(w, SetUnique(w, m, k, h, d, r), p)
  {
    AgreeRemove(w, m, k, r, p);
    InvRemove(w, m, k, r);
    RemoveLeaves(w, m, k, r);
    AgreeInsert(Remove(w, m, k, r), m, k, h, d, p);
  }

  lemma AgreeSwap(w: World, m: MapId, f: MapId, p: Place)
    requires Inv(w) && m in w.maps && f !in w.maps && !Touches(OnMap(BeginClear(m, f)), p)
    ensures Agree(w, SwapOut(w, m, f), p)
  {
  }

  /** An operation changes only the places it names. */
  lemma AgreeStep(w: World, op: Op, p: Place)
    requires Inv(w) && Enabled(w, op) && !Touches(op, p)
    ensures Agree(w, Step(w, op), p)
  {
    match op
    case OnHandle(hop) => AgreeHandle(w, hop, p);
    case OnMap(Set(m, k, h, d, r)) => AgreeSet(w, m, k, h, d, r, p);
    case OnMap(Take(m, k, r)) => AgreeRemove(w, m, k, r, p);
    case OnMap(BeginClear(m, f)) => AgreeSwap(w, m, f, p);
    case _ =>
  }
}
