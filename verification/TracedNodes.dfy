/**
 The nodes behind traced references: what becomes of each of them, in every operation.
 */
module TracedNodes {
  import opened Cells
  import opened Traced

  // What becomes of a node: it is freed, or it is kept, by a reference in a live host or by none.
  datatype Fate = Freed | Kept(owner: Option<Addr>, node: TNode)

  // The operation empties reference `h`, or stores something else into it.
  predicate Overwrites(op: Op, h: Addr) {
    match op
    case ResetOp(g) => g == h
    case AssignLocal(g, _, _) => g == h
    case Copy(g, src, _) => g == h && src != h
    case Move(g, src) => g == h && src != h
    case _ => false
  }

  // `Destroy`: freed at once, unless destructors run or the concurrent marker may be looking at the node.
  function Dropped(s: State, n: TNode): Fate {
    if s.sweeping then Kept(None, n) else if s.marking then Kept(None, n.(obj := None)) else Freed
  }

  // At the end of marking, a node that is not marked is freed.
  function Paused(owner: Option<Addr>, n: TNode): Fate {
    if n.mark then Kept(owner, n.(mark := false)) else Freed
  }

  // The node of reference `h`, whose host is alive.
  function OwnedFate(s: State, op: Op, h: Addr, n: TNode): Fate {
    if Overwrites(op, h) then Dropped(s, n) else
      match op
      case Move(g, src) => if src == h && g != h then Kept(Some(g), n.(mark := n.mark || s.marking)) else Kept(Some(h), n)
      case ClassIdOp(g, id) => Kept(Some(h), if g == h then n.(classId := id) else n)
      case Visit(g) => Kept(Some(h), if g == h then n.(mark := true) else n)
      case HostGone(g) => Kept(if g == h then None else Some(h), n)
      case FinishMarking(dead) => Paused(if h in dead then None else Some(h), n)
      case MoveObjects(reloc) => Kept(Some(h), n.(obj := Moved(n.obj, reloc)))
      case _ => Kept(Some(h), n)
  }

  function FateOf(s: State, op: Op, owner: Option<Addr>, n: TNode): Fate {
    if owner.Some? then OwnedFate(s, op, owner.value, n) else
      match op
      case FinishMarking(_) => Paused(None, n)
      case MoveObjects(reloc) => Kept(None, n.(obj := Moved(n.obj, reloc)))
      case _ => Kept(None, n)
  }

  // The node that an operation creates, for reference `op.h`. Only a store into an existing reference is marked.
  function Born(s: State, op: Op): Option<(Loc, TNode)>
    requires op.Copy? ==> op.src in s.slots
  {
    match op
    case New(_, value, l) => if value.Some? then Some((l, TNode(value, 0, false))) else None
    case AssignLocal(_, value, l) => if value.Some? then Some((l, TNode(value, 0, s.marking))) else None
    case Copy(h, src, l) =>
      if h != src && s.slots[src] != Null then Some((l, TNode(ObjectIn(s, s.slots[src]), 0, s.marking))) else None
    case _ => None
  }

  ghost predicate HeldBy(s: State, owner: Option<Addr>, l: Loc) {
    if owner.Some? then Owns(s, owner.value, l) else Orphan(s, l)
  }

  // In state `s'`, node `l` is as its fate says.
  ghost predicate Met(fate: Fate, s': State, l: Loc) {
    match fate
    case Freed => l !in s'.nodes
    case Kept(owner, n) => l in s'.nodes && s'.nodes[l] == n && HeldBy(s', owner, l)
  }

  /* Single operations. */

  /** A reset frees the node at once when neither marking nor sweeping runs; while marking runs, it only clears the object. */
  lemma ResetExact(s: State, h: Addr, l: Loc)
    requires Traced.Inv(s) && Owns(s, h, l)
    ensures !s.marking && !s.sweeping ==> Reset(s, h).nodes == s.nodes - {l}
    ensures s.marking ==> Reset(s, h).nodes == s.nodes[l := s.nodes[l].(obj := None)]
    ensures s.sweeping ==> Reset(s, h).nodes == s.nodes
  {
  }

  lemma FateReset(s: State, h: Addr, owner: Option<Addr>, l: Loc)
    requires Traced.Inv(s) && Enabled(s, ResetOp(h)) && l in s.nodes && HeldBy(s, owner, l)
    ensures Met(if owner == Some(h) then Dropped(s, s.nodes[l]) else Kept(owner, s.nodes[l]), Reset(s, h), l)
  {
    InvReset(s, h);
    if s.slots[h] != Null && h !in s.dying {
      assert Owns(s, h, s.slots[h]);
    }
    if owner == Some(h) {
      ResetExact(s, h, l);
      forall g ensures !Owns(Reset(s, h), g, l) {
        assert Owns(Reset(s, h), g, l) ==> Owns(s, g, l);
      }
    } else if owner.None? {
      forall g ensures !Owns(Reset(s, h), g, l) {
        assert !Owns(s, g, l);
      }
    }
  }

  lemma FateCreate(s: State, h: Addr, a: Address, assigning: bool, x: Loc, fate: Fate, l: Loc)
    requires Traced.Inv(s) && Fresh(s, x) && h !in s.dying && (h in s.slots ==> s.slots[h] == Null) && Met(fate, s, l)
    requires fate.Kept? && fate.owner.Some? ==> fate.owner.value != h
    ensures var s' := Create(s, h, a, assigning, x);
      && Owns(s', h, x) && s'.nodes[x] == TNode(Some(a), 0, s.marking && assigning)
      && (Met(fate, s', l) || (fate.Freed? && l == x))
  {
    var s' := Create(s, h, a, assigning, x);
    if fate.Kept? && fate.owner.None? {
      forall g ensures !Owns(s', g, l) {
        assert !Owns(s, g, l);
      }
    }
  }

  lemma FateMove(s: State, h: Addr, src: Addr, owner: Option<Addr>, l: Loc)
    requires Traced.Inv(s) && Enabled(s, Move(h, src)) && h != src && l in s.nodes && HeldBy(s, owner, l)
    ensures Met(FateOf(s, Move(h, src), owner, s.nodes[l]), MoveAssign(s, h, src), l)
  {
    FateReset(s, h, owner, l);
    InvReset(s, h);
    var s1, s', x := Reset(s, h), MoveAssign(s, h, src), s.slots[src];
    if x != Null {
      assert Owns(s, src, x) && Owns(s1, src, x);
      forall g, y ensures Owns(s', g, y) <==> (if g == h then y == x else g != src && Owns(s1, g, y)) {
      }
    }
    assert x != Null ==> (l == x <==> owner == Some(src));
  }

  lemma FateOther(s: State, op: Op, owner: Option<Addr>, l: Loc)
    requires Traced.Inv(s) && Enabled(s, op) && l in s.nodes && HeldBy(s, owner, l)
    requires op.ClassIdOp? || op.HostGone? || op.StartMarking? || op.Visit? || op.Sweeping? || op.MoveObjects?
    ensures Met(FateOf(s, op, owner, s.nodes[l]), Step(s, op), l)
  {
    var s' := Step(s, op);
    forall g, y ensures Owns(s', g, y) <==> Owns(s, g, y) && !(op.HostGone? && op.h == g) {
    }
    if (op.ClassIdOp? || op.Visit?) && s.slots[op.h] != Null {
      assert Owns(s, op.h, s.slots[op.h]);
    }
    if owner.None? {
      forall g ensures !Owns(s', g, l) {
        assert !Owns(s, g, l);
      }
    }
  }

  lemma FatePause(s: State, dead: set<Addr>, owner: Option<Addr>, l: Loc)
    requires Traced.Inv(s) && Enabled(s, FinishMarking(dead)) && l in s.nodes && HeldBy(s, owner, l)
    ensures Met(FateOf(s, FinishMarking(dead), owner, s.nodes[l]), Pause(s, dead), l)
  {
    var s' := Pause(s, dead);
    forall g, y ensures Owns(s', g, y) <==> g !in dead && Owns(s, g, y) {
    }
    if owner.None? || owner.value in dead {
      forall g ensures !Owns(s', g, l) {
        assert Owns(s', g, l) ==> Owns(s, g, l);
      }
    }
  }

  lemma FateNew(s: State, h: Addr, value: Option<Address>, x: Loc, owner: Option<Addr>, l: Loc)
    requires Traced.Inv(s) && Enabled(s, New(h, value, x)) && l in s.nodes && HeldBy(s, owner, l)
    ensures Met(Kept(owner, s.nodes[l]), Construct(s, h, value, x), l)
  {
    var s0 := s.(slots := s.slots[h := Null]);
    assert forall g, y :: Owns(s0, g, y) <==> Owns(s, g, y);
    if owner.None? {
      forall g ensures !Owns(s0, g, l) {
        assert !Owns(s, g, l);
      }
    }
    if value.Some? {
      FateCreate(s0, h, value.value, false, x, Kept(owner, s.nodes[l]), l);
    }
  }

  lemma FateAssign(s: State, h: Addr, value: Option<Address>, x: Loc, owner: Option<Addr>, l: Loc)
    requires Traced.Inv(s) && Enabled(s, AssignLocal(h, value, x)) && l in s.nodes && HeldBy(s, owner, l)
    ensures var fate := if owner == Some(h) then Dropped(s, s.nodes[l]) else Kept(owner, s.nodes[l]);
      Met(fate, ResetTo(s, h, value, x), l) || (fate.Freed? && value.Some? && l == x)
  {
    InvReset(s, h);
    FateReset(s, h, owner, l);
    if value.Some? {
      FateCreate(Reset(s, h), h, value.value, true, x, if owner == Some(h) then Dropped(s, s.nodes[l]) else Kept(owner, s.nodes[l]), l);
    }
  }

  lemma FateCopy(s: State, h: Addr, src: Addr, x: Loc, owner: Option<Addr>, l: Loc)
    requires Traced.Inv(s) && Enabled(s, Copy(h, src, x)) && h != src && l in s.nodes && HeldBy(s, owner, l)
    ensures var fate := if owner == Some(h) then Dropped(s, s.nodes[l]) else Kept(owner, s.nodes[l]);
      Met(fate, CopyAssign(s, h, src, x), l) || (fate.Freed? && s.slots[src] != Null && l == x)
  {
    if s.slots[src] == Null {
      FateReset(s, h, owner, l);
    } else {
      assert Owns(s, src, s.slots[src]);
      FateAssign(s, h, ObjectIn(s, s.slots[src]), x, owner, l);
    }
  }

  /**
   In every operation, every node that is in use meets its fate: it keeps its contents and its owner unless the operation
   names the owner, it is freed at once where that is safe, and it goes with a move. (The location of a node that was freed
   may be taken for a new one in the same operation.)
   */
  lemma NodeFate(s: State, op: Op, owner: Option<Addr>, l: Loc)
    requires Traced.Inv(s) && Enabled(s, op) && l in s.nodes && HeldBy(s, owner, l)
    ensures var fate := FateOf(s, op, owner, s.nodes[l]);
      Met(fate, Step(s, op), l) || (fate.Freed? && Born(s, op).Some? && Born(s, op).value.0 == l)
  {
    match op
    case New(h, value, x) => FateNew(s, h, value, x, owner, l);
    case ResetOp(h) => FateReset(s, h, owner, l);
    case AssignLocal(h, value, x) => FateAssign(s, h, value, x, owner, l);
    case Copy(h, src, x) => if h != src { FateCopy(s, h, src, x, owner, l); }
    case Move(h, src) => if h != src { FateMove(s, h, src, owner, l); }
    case FinishMarking(dead) => FatePause(s, dead, owner, l);
    case _ => FateOther(s, op, owner, l);
  }

  lemma BornAssigned(s: State, h: Addr, a: Address, x: Loc)
    requires Traced.Inv(s) && Live(s, h) && Fresh(Reset(s, h), x)
    ensures var s' := ResetTo(s, h, Some(a), x);
      Owns(s', h, x) && s'.nodes[x] == TNode(Some(a), 0, s.marking) && s'.nodes.Keys <= s.nodes.Keys + {x}
  {
  }

  /** An operation creates the node it is to create, for the reference it names, and no other. */
  lemma NodeBorn(s: State, op: Op)
    requires Traced.Inv(s) && Enabled(s, op)
    ensures var born, s' := Born(s, op), Step(s, op);
      && (born.Some? ==> (op.New? || op.AssignLocal? || op.Copy?) && Owns(s', op.h, born.value.0) && s'.nodes[born.value.0] == born.value.1)
      && s'.nodes.Keys <= s.nodes.Keys + (if born.Some? then {born.value.0} else {})
  {
    match op
    case AssignLocal(h, value, x) => if value.Some? { BornAssigned(s, h, value.value, x); }
    case Copy(h, src, x) =>
      if h != src && s.slots[src] != Null {
        assert Owns(s, src, s.slots[src]);
        BornAssigned(s, h, ObjectIn(s, s.slots[src]).value, x);
      }
    case _ =>
  }

  /* No leaks. */

  // Operations of the embedder on references, with no collection under way.
  predicate Ordinary(op: Op) {
    op.New? || op.ResetOp? || op.AssignLocal? || op.Copy? || op.Move? || op.ClassIdOp? || op.MoveObjects?
  }

  ghost predicate NoOrphans(s: State) {
    forall l :: !Orphan(s, l)
  }

  lemma NoNewOrphan(s: State, op: Op, l: Loc)
    requires Traced.Inv(s) && Enabled(s, op) && Ordinary(op) && !s.marking && !s.sweeping && Orphan(Step(s, op), l)
    ensures Orphan(s, l)
  {
    NodeBorn(s, op);
    if h :| Owns(s, h, l) {
      NodeFate(s, op, Some(h), l);
    }
  }

  lemma OrdinaryKeeps(s: State, op: Op)
    requires Enabled(s, op) && Ordinary(op) && !s.marking && !s.sweeping
    ensures !Step(s, op).marking && !Step(s, op).sweeping
  {
  }

  /** While no collection runs and hosts live, nothing leaks: every node in use is held by a reference, after any operations. */
  lemma {:induction false} NothingLeaks(s: State, ops: seq<Op>)
    requires Traced.Inv(s) && CanRun(s, ops) && !s.marking && !s.sweeping && NoOrphans(s) && (forall op :: op in ops ==> Ordinary(op))
    ensures NoOrphans(Run(s, ops))
    decreases |ops|
  {
    if ops != [] {
      var s' := Step(s, ops[0]);
      assert ops[0] in ops;
      InvStep(s, ops[0]);
      OrdinaryKeeps(s, ops[0]);
      forall l ensures !Orphan(s', l) {
        if Orphan(s', l) {
          NoNewOrphan(s, ops[0], l);
        }
      }
      NothingLeaks(s', ops[1..]);
    }
  }
}
