/**
 Handles as their owner sees them: whether they exist, whether they are empty, which object they refer to, and whether
 they are weak.
 */
module PlainHandles {
  import opened Cells
  import opened Handles
  import opened ValueMaps
  import opened Collection
  import opened Runs
  import opened Frames

  datatype Held = Empty | Holds(a: Address, weak: bool)

  // What `IsEmpty`, `Get` and `IsWeak` say of a word.
  function Shows(w: World, p: Place): Held {
    if NodeObject(w, p).None? then Empty
    else Holds(NodeObject(w, p).value, w.cells[w.at[p]].node.Weak? || w.cells[w.at[p]].node.Phantom?)
  }

  function View(w: World, h: Addr): Option<Held> {
    if h in w.handles then Some(Shows(w, InHandle(h))) else None
  }

  function Fresh(value: Option<Address>): Held {
    if value.None? then Empty else Holds(value.value, false)
  }

  function Strengthen(x: Held): Held {
    if x.Empty? then Empty else Holds(x.a, false)
  }

  function Collected(x: Held, dead: set<Address>, reloc: map<Address, Address>): Held {
    if x.Empty? || (x.weak && x.a in dead) then Empty
    else Holds(if x.a in reloc then reloc[x.a] else x.a, x.weak)
  }

  // What an operation on handles does to handle `g`.
  function HandleEffect(w: World, op: HandleOp, g: Addr): Option<Held> {
    if g == op.h then
      match op
      case Construct(_, value, _) => Some(Fresh(value))
      case ConstructFrom(_, src, _) => Some(Strengthen(Shows(w, InHandle(src))))
      case MoveNew(_, src) => View(w, src)
      case MoveInto(_, src) => View(w, src)
      case ResetOnly(_) => Some(Empty)
      case Assign(_, value, _) => Some(Fresh(value))
      case Copy(h, src, _) => Some(if h == src then Empty else Strengthen(Shows(w, InHandle(src))))
      case MakePhantom(h) => if Referent(w, h).Some? then Some(Holds(Referent(w, h).value, true)) else None
      case MakeStrong(h) => if Referent(w, h).Some? then Some(Holds(Referent(w, h).value, false)) else None
      case Destruct(_) => None
    else if (op.MoveNew? || op.MoveInto?) && g == op.src then Some(Empty)
    else View(w, g)
  }

  // What any operation does to handle `g`.
  function Effect(w: World, op: Op, g: Addr): Option<Held> {
    match op
    case OnHandle(hop) => HandleEffect(w, hop, g)
    case OnMap(Set(m, k, h, _, r)) =>
      if g == h then Some(Empty) else if g == r then Some(Strengthen(Shows(w, InImpl(m, k)))) else View(w, g)
    case OnMap(Take(m, k, r)) => if g == r then Some(Strengthen(Shows(w, InImpl(m, k)))) else View(w, g)
    case Gc(dead, reloc) => if g in w.handles then Some(Collected(Shows(w, InHandle(g)), dead, reloc)) else None
    case _ => View(w, g)
  }

  /* The handle named first. */

  lemma ShowsAssigned(w: World, h: Addr, value: Option<Address>, l: Loc)
    requires Owned(w)
    ensures Shows(ResetTo(w, h, value, l), InHandle(h)) == Fresh(value) && ResetTo(w, h, value, l).handles == w.handles
  {
  }

  lemma ShowsReset(w: World, h: Addr, src: Addr)
    requires Owned(w)
    ensures Referent(Reset(w, h), src) == if h == src then None else Referent(w, src)
  {
  }

  lemma ShowsMoved(w: World, h: Addr, src: Addr)
    requires Inv(w) && h in w.handles && src in w.handles
    ensures Shows(MoveAssign(w, h, src), InHandle(h)) == Shows(w, InHandle(src))
    ensures h != src ==> Shows(MoveAssign(w, h, src), InHandle(src)) == Empty
    ensures MoveAssign(w, h, src).handles == w.handles
  {
    InvReset(w, h);
  }

  lemma FirstHandle(w: World, op: HandleOp)
    requires Inv(w) && HandleEnabled(w, op)
    ensures View(HandleStep(w, op), op.h) == HandleEffect(w, op, op.h)
  {
    match op
    case Construct(h, value, l) => InvNewHandle(w, h); ShowsAssigned(NewHandle(w, h), h, value, l);
    case ConstructFrom(h, src, l) =>
      InvNewHandle(w, h);
      ShowsReset(NewHandle(w, h), h, src);
      ShowsAssigned(NewHandle(w, h), h, Referent(Reset(NewHandle(w, h), h), src), l);
    case MoveNew(h, src) => InvNewHandle(w, h); ShowsMoved(NewHandle(w, h), h, src);
    case MoveInto(h, src) => ShowsMoved(w, h, src);
    case ResetOnly(h) =>
    case Assign(h, value, l) => ShowsAssigned(w, h, value, l);
    case Copy(h, src, l) =>
      ShowsReset(w, h, src);
      ShowsAssigned(w, h, Referent(Reset(w, h), src), l);
    case MakePhantom(h) =>
    case MakeStrong(h) =>
    case Destruct(h) =>
  }

  /* The others. */

  lemma ShowsAgree(w: World, w': World, p: Place)
    requires Owned(w) && Owned(w') && Agree(w, w', p)
    ensures Shows(w', p) == Shows(w, p)
  {
  }

  lemma HandlesAfter(w: World, op: HandleOp)
    requires HandleEnabled(w, op)
    ensures var handles := HandleStep(w, op).handles;
      handles == if op.Construct? || op.ConstructFrom? || op.MoveNew? then w.handles + {op.h} else if op.Destruct? then w.handles - {op.h} else w.handles
  {
  }

  lemma HandleRefines(w: World, op: HandleOp, g: Addr)
    requires Inv(w) && HandleEnabled(w, op)
    ensures View(HandleStep(w, op), g) == HandleEffect(w, op, g)
  {
    InvHandleStep(w, op);
    if g == op.h {
      FirstHandle(w, op);
    } else if (op.MoveNew? || op.MoveInto?) && g == op.src {
      InvNewHandle(w, op.h);
      ShowsMoved(if op.MoveNew? then NewHandle(w, op.h) else w, op.h, op.src);
    } else {
      HandlesAfter(w, op);
      AgreeHandle(w, op, InHandle(g));
      ShowsAgree(w, HandleStep(w, op), InHandle(g));
    }
  }

  lemma RemoveRefines(w: World, m: MapId, k: Key, r: Addr, g: Addr)
    requires Inv(w) && r !in w.handles
    ensures View(Remove(w, m, k, r), g) == if g == r then Some(Strengthen(Shows(w, InImpl(m, k)))) else View(w, g)
  {
  }

  lemma InsertRefines(w: World, m: MapId, k: Key, h: Addr, d: DataId, g: Addr)
    requires Inv(w) && m in w.maps && InHandle(h) in w.at && InImpl(m, k) !in w.at
    ensures View(Insert(w, m, k, h, d), g) == if g == h then Some(Empty) else View(w, g)
  {
  }

  lemma SetRefines(w: World, m: MapId, k: Key, h: Addr, d: DataId, r: Addr, g: Addr)
    requires Inv(w) && CanSet(w, m, h, d, r)
    ensures View(SetUnique(w, m, k, h, d, r), g) == Effect(w, OnMap(Set(m, k, h, d, r)), g)
  {
    InvRemove(w, m, k, r);
    RemoveLeaves(w, m, k, r);
    RemoveRefines(w, m, k, r, g);
    InsertRefines(Remove(w, m, k, r), m, k, h, d, g);
  }

  lemma GcShows(w: World, op: Op, g: Addr, w': World)
    requires Owned(w) && op.Gc? && w'.handles == w.handles
    requires w'.cells == CollectCells(w, op.dead, op.reloc) && w'.at == CollectAt(w, op.dead)
    ensures View(w', g) == Effect(w, op, g)
  {
  }

  lemma GcRefines(w: World, op: Op, g: Addr)
    requires Inv(w) && op.Gc? && CanCollect(w, op.dead, op.reloc)
    ensures View(Collect(w, op.dead, op.reloc), g) == Effect(w, op, g)
  {
    GcShows(w, op, g, Collect(w, op.dead, op.reloc));
  }

  lemma MapRefines(w: World, op: MapOp, g: Addr)
    requires Inv(w) && MapEnabled(w, op)
    ensures View(MapStep(w, op), g) == Effect(w, OnMap(op), g)
  {
    match op
    case Set(m, k, h, d, r) => SetRefines(w, m, k, h, d, r, g);
    case Take(m, k, r) => RemoveRefines(w, m, k, r, g);
    case BeginClear(m, f) => AgreeSwap(w, m, f, InHandle(g));
    case _ =>
  }

  /**
   Each operation changes exactly the handles it names, as a table of handles would: an assignment or a copy is a strong
   reference to the new object, a move hands over object and weakness and empties the source, `SetWeak` makes a handle weak
   and `ClearWeak` makes it strong, a handle that comes out of a map is strong, and a collection empties the weak handles of
   dead objects and no other, and follows the objects it moves.
   */
  lemma HandlesRefine(w: World, op: Op, g: Addr)
    requires Inv(w) && Enabled(w, op)
    ensures View(Step(w, op), g) == Effect(w, op, g)
  {
    match op
    case NewObject(_, _) =>
    case OnHandle(hop) => HandleRefines(w, hop, g);
    case OnMap(mop) => MapRefines(w, mop, g);
    case Gc(_, _) => GcRefines(w, op, g);
    case RunSecondPass(_) =>
  }
}
