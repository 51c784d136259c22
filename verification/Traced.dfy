/**
 Traced references and their nodes, with incremental marking under way at any time.

 A `TracedReference` has no destructor: when its host object dies, its node is left behind for the
 collector.  While marking runs, nodes are not freed, since the concurrent marker may be looking at
 them; while destructors run in the sweeper, references may point to nodes that are already freed.
 */
module Traced {
  import opened Cells

  type ClassId = n: nat | n < 0x10000

  // `obj` is None once `Destroy` has cleared the object during marking.
  datatype TNode = TNode(obj: Option<Address>, classId: ClassId, mark: bool)

  datatype State = State(
    nodes: map<Loc, TNode>,   // nodes in use
    slots: map<Addr, Loc>,    // the word of every reference that exists
    dying: set<Addr>,         // references in hosts that the last marking did not reach
    visited: set<Addr>,       // references that the marking under way has visited
    marking: bool,
    sweeping: bool            // destructors of dead hosts are running
  )

  // References whose hosts are alive.
  predicate Live(s: State, h: Addr) {
    h in s.slots && h !in s.dying
  }

  ghost predicate Owns(s: State, h: Addr, l: Loc) {
    Live(s, h) && s.slots[h] == l && l != Null
  }

  ghost predicate Orphan(s: State, l: Loc) {
    l in s.nodes && forall h :: !Owns(s, h, l)
  }

  ghost predicate Inv(s: State) {
    && Null !in s.nodes
    && !(s.marking && s.sweeping)
    && s.dying <= s.slots.Keys && (s.marking ==> s.dying == {})
    && (forall h, l {:trigger Owns(s, h, l)} :: Owns(s, h, l) ==> l in s.nodes && s.nodes[l].obj.Some?)
    && (forall h, g, l {:trigger Owns(s, h, l), Owns(s, g, l)} :: Owns(s, h, l) && Owns(s, g, l) ==> h == g)
    && (!s.marking ==> s.visited == {} && forall l :: l in s.nodes ==> !s.nodes[l].mark)
    && s.visited <= s.slots.Keys && VisitedMarked(s)
  }

  // What a visited reference holds by now is marked, whatever was stored into it after the visit.
  ghost predicate VisitedMarked(s: State) {
    forall h, l {:trigger Owns(s, h, l)} :: Owns(s, h, l) && h in s.visited ==> l in s.nodes && s.nodes[l].mark
  }

  /* Operations. */

  // `TracedHandlesImpl::Destroy`.
  function Destroyed(s: State, l: Loc): State {
    if l == Null || s.sweeping then s
    else if s.marking then (if l in s.nodes then s.(nodes := s.nodes[l := s.nodes[l].(obj := None)]) else s)
    else s.(nodes := s.nodes - {l})
  }

  function Reset(s: State, h: Addr): State
    requires h in s.slots
  {
    Destroyed(s, s.slots[h]).(slots := s.slots[h := Null])
  }

  // `Create`, into an empty reference. An initializing store is not marked: the host is still to be traced.
  function Create(s: State, h: Addr, a: Address, assigning: bool, l: Loc): State {
    s.(nodes := s.nodes[l := TNode(Some(a), 0, s.marking && assigning)], slots := s.slots[h := l])
  }

  function Construct(s: State, h: Addr, a: Option<Address>, l: Loc): State {
    var s0 := s.(slots := s.slots[h := Null]);
    if a.None? then s0 else Create(s0, h, a.value, false, l)
  }

  function ResetTo(s: State, h: Addr, a: Option<Address>, l: Loc): State
    requires h in s.slots
  {
    if a.None? then Reset(s, h) else Create(Reset(s, h), h, a.value, true, l)
  }

  function ObjectIn(s: State, l: Loc): Option<Address> {
    if l in s.nodes then s.nodes[l].obj else None
  }

  function CopyAssign(s: State, h: Addr, src: Addr, l: Loc): State
    requires h in s.slots && src in s.slots
  {
    if h == src then s
    else if s.slots[src] == Null then Reset(s, h)
    else ResetTo(s, h, ObjectIn(s, s.slots[src]), l)
  }

  function MoveAssign(s: State, h: Addr, src: Addr): State
    requires h in s.slots && src in s.slots
  {
    if h == src then s
    else
      var l := s.slots[src];
      var s1 := Reset(s, h);
      if l == Null || l !in s1.nodes then s1
      else s1.(slots := s1.slots[h := l][src := Null],
               nodes := s1.nodes[l := s1.nodes[l].(mark := s1.nodes[l].mark || s.marking)])
  }

  function SetClassId(s: State, h: Addr, id: ClassId): State
    requires h in s.slots
  {
    if s.slots[h] !in s.nodes then s else s.(nodes := s.nodes[s.slots[h] := s.nodes[s.slots[h]].(classId := id)])
  }

  // The marker visits a reference.
  function Trace(s: State, h: Addr): State
    requires h in s.slots
  {
    var s1 := s.(visited := s.visited + {h});
    if s.slots[h] !in s.nodes then s1 else s1.(nodes := s.nodes[s.slots[h] := s.nodes[s.slots[h]].(mark := true)])
  }

  // The tracer is done: every reference that exists has been visited at some time, or its host is dead.
  predicate Traversed(s: State, dead: set<Addr>) {
    dead <= s.slots.Keys && s.slots.Keys <= s.visited + dead
  }

  // The atomic pause: `ResetDeadNodes` frees the nodes that are not marked.
  function Pause(s: State, dead: set<Addr>): State {
    State(map l | l in s.nodes && s.nodes[l].mark :: s.nodes[l].(mark := false), s.slots, dead, {}, false, false)
  }

  // The collector moves objects and updates every node that is in use.
  function Moved(a: Option<Address>, reloc: map<Address, Address>): Option<Address> {
    if a.Some? && a.value in reloc then Some(reloc[a.value]) else a
  }

  // All nodes but those in `todo` have been updated.
  function PartlyMoved(nodes: map<Loc, TNode>, todo: set<Loc>, reloc: map<Address, Address>): map<Loc, TNode> {
    map l | l in nodes :: if l in todo then nodes[l] else nodes[l].(obj := Moved(nodes[l].obj, reloc))
  }

  function Relocate(s: State, reloc: map<Address, Address>): State {
    s.(nodes := PartlyMoved(s.nodes, {}, reloc))
  }

  datatype Op =
    | New(h: Addr, value: Option<Address>, l: Loc)
    | ResetOp(h: Addr)
    | AssignLocal(h: Addr, value: Option<Address>, l: Loc)
    | Copy(h: Addr, src: Addr, l: Loc)
    | Move(h: Addr, src: Addr)
    | ClassIdOp(h: Addr, id: ClassId)
    | HostGone(h: Addr)
    | StartMarking
    | Visit(h: Addr)
    | FinishMarking(dead: set<Addr>)
    | Sweeping(on: bool)
    | MoveObjects(reloc: map<Address, Address>)

  predicate Fresh(s: State, l: Loc) {
    l != Null && l !in s.nodes
  }

  ghost predicate Enabled(s: State, op: Op) {
    match op
    case New(h, _, l) => h !in s.slots && Fresh(s, l)
    case ResetOp(h) => h in s.slots && (h in s.dying ==> s.sweeping)
    case AssignLocal(h, _, l) => Live(s, h) && Fresh(Reset(s, h), l)
    case Copy(h, src, l) => Live(s, h) && Live(s, src) && Fresh(Reset(s, h), l)
    case Move(h, src) => Live(s, h) && Live(s, src)
    case ClassIdOp(h, _) => Live(s, h)
    case HostGone(h) => h in s.slots
    case StartMarking => !s.marking && !s.sweeping && s.dying == {}
    case Visit(h) => s.marking && Live(s, h)
    case FinishMarking(dead) => s.marking && Traversed(s, dead)
    case Sweeping(on) => !s.marking
    case MoveObjects(_) => true
  }

  ghost function Step(s: State, op: Op): State
    requires Enabled(s, op)
  {
    match op
    case New(h, value, l) => Construct(s, h, value, l)
    case ResetOp(h) => Reset(s, h)
    case AssignLocal(h, value, l) => ResetTo(s, h, value, l)
    case Copy(h, src, l) => CopyAssign(s, h, src, l)
    case Move(h, src) => MoveAssign(s, h, src)
    case ClassIdOp(h, id) => SetClassId(s, h, id)
    case HostGone(h) => s.(slots := s.slots - {h}, dying := s.dying - {h}, visited := s.visited - {h})
    case StartMarking => s.(marking := true, visited := {})
    case Visit(h) => Trace(s, h)
    case FinishMarking(dead) => Pause(s, dead)
    case Sweeping(on) => s.(sweeping := on)
    case MoveObjects(reloc) => Relocate(s, reloc)
  }

  /* The invariant. */

  lemma InvReset(s: State, h: Addr)
    requires Inv(s) && h in s.slots && (h in s.dying ==> s.sweeping)
    ensures Inv(Reset(s, h))
    ensures forall g, l {:trigger Owns(Reset(s, h), g, l)} :: Owns(Reset(s, h), g, l) <==> g != h && Owns(s, g, l)
  {
    var s' := Reset(s, h);
    forall g, l ensures Owns(s', g, l) <==> g != h && Owns(s, g, l) {
    }
    forall g, l | Owns(s', g, l) ensures l in s'.nodes && s'.nodes[l].obj.Some? {
      assert Owns(s, g, l);
      assert !Owns(s, h, l);
    }
  }

  lemma InvCreate(s: State, h: Addr, a: Address, assigning: bool, l: Loc)
    requires Inv(s) && h !in s.dying && (h in s.slots ==> s.slots[h] == Null) && Fresh(s, l)
    requires h in s.visited ==> assigning
    ensures Inv(Create(s, h, a, assigning, l))
  {
    var s' := Create(s, h, a, assigning, l);
    forall g, x ensures Owns(s', g, x) <==> (if g == h then x == l else Owns(s, g, x)) {
    }
  }

  lemma InvMove(s: State, h: Addr, src: Addr)
    requires Inv(s) && Live(s, h) && Live(s, src)
    ensures Inv(MoveAssign(s, h, src))
  {
    if h != src {
      InvReset(s, h);
      var s1, s' := Reset(s, h), MoveAssign(s, h, src);
      var l := s.slots[src];
      if l != Null {
        assert Owns(s, src, l) && Owns(s1, src, l);
        forall g, x ensures Owns(s', g, x) <==> (if g == h then x == l else g != src && Owns(s1, g, x)) {
        }
      }
    }
  }

  /** When the tracer is done, the node of every reference in a live host is marked: the barriers have seen to those stored late. */
  lemma LiveAreMarked(s: State, dead: set<Addr>, h: Addr, l: Loc)
    requires Inv(s) && Enabled(s, FinishMarking(dead)) && Owns(s, h, l) && h !in dead
    ensures l in s.nodes && s.nodes[l].mark
  {
  }

  lemma InvPause(s: State, dead: set<Addr>)
    requires Inv(s) && Enabled(s, FinishMarking(dead))
    ensures Inv(Pause(s, dead))
  {
    var s' := Pause(s, dead);
    forall h, l ensures Owns(s', h, l) <==> h !in dead && Owns(s, h, l) {
    }
  }

  // Marking a node, or setting its class id.
  lemma InvNode(s: State, l: Loc, n: TNode)
    requires Inv(s) && l in s.nodes && n.obj == s.nodes[l].obj && (n.mark ==> s.marking) && (s.nodes[l].mark ==> n.mark)
    ensures Inv(s.(nodes := s.nodes[l := n]))
  {
    var s' := s.(nodes := s.nodes[l := n]);
    assert forall g, x :: Owns(s', g, x) <==> Owns(s, g, x);
  }

  lemma InvVisit(s: State, h: Addr)
    requires Inv(s) && Enabled(s, Visit(h))
    ensures Inv(Trace(s, h))
  {
    var s' := Trace(s, h);
    assert s.slots[h] != Null ==> Owns(s, h, s.slots[h]);
    assert forall g, x :: Owns(s', g, x) <==> Owns(s, g, x);
  }

  lemma InvCopy(s: State, h: Addr, src: Addr, l: Loc)
    requires Inv(s) && Enabled(s, Copy(h, src, l))
    ensures Inv(CopyAssign(s, h, src, l))
  {
    InvReset(s, h);
    if h != src && s.slots[src] != Null {
      assert Owns(s, src, s.slots[src]);
      InvCreate(Reset(s, h), h, s.nodes[s.slots[src]].obj.value, true, l);
    }
  }

  lemma InvStep(s: State, op: Op)
    requires Inv(s) && Enabled(s, op)
    ensures Inv(Step(s, op))
  {
    var s' := Step(s, op);
    match op
    case New(h, value, l) =>
      var s0 := s.(slots := s.slots[h := Null]);
      assert forall g, x :: Owns(s0, g, x) <==> Owns(s, g, x);
      if value.Some? {
        InvCreate(s0, h, value.value, false, l);
      }
    case ResetOp(h) => InvReset(s, h);
    case AssignLocal(h, value, l) =>
      InvReset(s, h);
      if value.Some? {
        InvCreate(Reset(s, h), h, value.value, true, l);
      }
    case Copy(h, src, l) => InvCopy(s, h, src, l);
    case Move(h, src) => InvMove(s, h, src);
    case ClassIdOp(h, id) =>
      if s.slots[h] in s.nodes {
        InvNode(s, s.slots[h], s.nodes[s.slots[h]].(classId := id));
      }
    case HostGone(h) => assert forall g, x :: Owns(s', g, x) <==> g != h && Owns(s, g, x);
    case StartMarking => assert forall g, x :: Owns(s', g, x) <==> Owns(s, g, x);
    case Visit(h) => InvVisit(s, h);
    case FinishMarking(dead) => InvPause(s, dead);
    case Sweeping(on) => assert forall g, x :: Owns(s', g, x) <==> Owns(s, g, x);
    case MoveObjects(_) => assert forall g, x :: Owns(s', g, x) <==> Owns(s, g, x);
  }

  ghost predicate CanRun(s: State, ops: seq<Op>)
    decreases |ops|
  {
    ops == [] || (Enabled(s, ops[0]) && CanRun(Step(s, ops[0]), ops[1..]))
  }

  ghost function Run(s: State, ops: seq<Op>): State
    requires CanRun(s, ops)
    decreases |ops|
  {
    if ops == [] then s else Run(Step(s, ops[0]), ops[1..])
  }

  /**
   In every run, a reference whose host is alive is empty or refers to a node that is in use and
   holds an object, and no two such references share a node.
   */
  lemma {:induction false} RunKeepsInv(s: State, ops: seq<Op>)
    requires Inv(s) && CanRun(s, ops)
    ensures Inv(Run(s, ops))
    decreases |ops|
  {
    if ops != [] {
      InvStep(s, ops[0]);
      RunKeepsInv(Step(s, ops[0]), ops[1..]);
    }
  }

  /* References as a plain map. */

  type Ref = Option<(Address, ClassId)>

  function RefIn(s: State, l: Loc): Ref {
    if l in s.nodes && s.nodes[l].obj.Some? then Some((s.nodes[l].obj.value, s.nodes[l].classId)) else None
  }

  function Refs(s: State): map<Addr, Ref> {
    map h | h in s.slots && h !in s.dying :: RefIn(s, s.slots[h])
  }

  function NewRef(a: Option<Address>): Ref {
    if a.Some? then Some((a.value, 0)) else None
  }

  function MovedRef(r: Ref, reloc: map<Address, Address>): Ref {
    if r.Some? && r.value.0 in reloc then Some((reloc[r.value.0], r.value.1)) else r
  }

  function Copied(r: Ref): Ref {
    if r.Some? then Some((r.value.0, 0)) else None
  }

  // What an operation does to the references whose hosts are alive.
  function Effect(refs: map<Addr, Ref>, op: Op): map<Addr, Ref> {
    match op
    case New(h, value, _) => refs[h := NewRef(value)]
    case ResetOp(h) => if h in refs then refs[h := None] else refs
    case AssignLocal(h, value, _) => refs[h := NewRef(value)]
    case Copy(h, src, _) => if h == src || src !in refs then refs else refs[h := Copied(refs[src])]
    case Move(h, src) => if h == src || src !in refs then refs else refs[h := refs[src]][src := None]
    case ClassIdOp(h, id) => if h in refs && refs[h].Some? then refs[h := Some((refs[h].value.0, id))] else refs
    case HostGone(h) => refs - {h}
    case FinishMarking(dead) => refs - dead
    case MoveObjects(reloc) => map h | h in refs :: MovedRef(refs[h], reloc)
    case _ => refs
  }

  lemma RefsReset(s: State, h: Addr)
    requires Inv(s) && h in s.slots && (h in s.dying ==> s.sweeping)
    ensures Refs(Reset(s, h)) == if h in s.dying then Refs(s) else Refs(s)[h := None]
  {
    var s' := Reset(s, h);
    forall g | Live(s, g) && g != h ensures RefIn(s', s'.slots[g]) == RefIn(s, s.slots[g]) {
      if s.slots[g] != Null {
        assert Owns(s, g, s.slots[g]);
        assert !Owns(s, h, s.slots[g]);
      }
    }
  }

  lemma RefsCreate(s: State, h: Addr, a: Address, assigning: bool, l: Loc)
    requires Inv(s) && h !in s.dying && Fresh(s, l)
    ensures Refs(Create(s, h, a, assigning, l)) == Refs(s)[h := Some((a, 0))]
  {
    var s' := Create(s, h, a, assigning, l);
    forall g | Live(s, g) && g != h ensures RefIn(s', s'.slots[g]) == RefIn(s, s.slots[g]) {
      if s.slots[g] != Null {
        assert Owns(s, g, s.slots[g]);
      }
    }
  }

  lemma RefsNode(s: State, h: Addr, n: TNode)
    requires Inv(s) && Live(s, h) && s.slots[h] in s.nodes && n.obj == s.nodes[s.slots[h]].obj
    ensures Refs(s.(nodes := s.nodes[s.slots[h] := n])) ==
      Refs(s)[h := if n.obj.Some? then Some((n.obj.value, n.classId)) else None]
  {
    forall g | Live(s, g) && g != h ensures s.slots[g] != s.slots[h] {
      if s.slots[g] == s.slots[h] {
        assert Owns(s, g, s.slots[h]) && Owns(s, h, s.slots[h]);
      }
    }
  }

  lemma RefsVisit(s: State, h: Addr)
    requires Inv(s) && Live(s, h)
    ensures Refs(Trace(s, h)) == Refs(s)
  {
  }

  // The cell of `src` goes to the empty reference `h`.
  lemma RefsTake(s: State, h: Addr, src: Addr, n: TNode)
    requires Inv(s) && Live(s, h) && Live(s, src) && h != src && s.slots[h] == Null && s.slots[src] in s.nodes
    requires n == s.nodes[s.slots[src]].(mark := n.mark)
    ensures Refs(s.(slots := s.slots[h := s.slots[src]][src := Null], nodes := s.nodes[s.slots[src] := n]))
      == Refs(s)[h := Refs(s)[src]][src := None]
  {
  }

  lemma RefsMove(s: State, h: Addr, src: Addr)
    requires Inv(s) && Enabled(s, Move(h, src)) && h != src
    ensures Refs(MoveAssign(s, h, src)) == Refs(s)[h := Refs(s)[src]][src := None]
  {
    InvReset(s, h);
    RefsReset(s, h);
    var s1, l := Reset(s, h), s.slots[src];
    if l == Null {
      assert Refs(s)[src] == None;
    } else {
      assert Owns(s, src, l) && Owns(s1, src, l);
      RefsTake(s1, h, src, s1.nodes[l].(mark := s1.nodes[l].mark || s.marking));
      assert Refs(s)[h := None][h := Refs(s)[src]] == Refs(s)[h := Refs(s)[src]];
    }
  }

  lemma RefsCopy(s: State, h: Addr, src: Addr, l: Loc)
    requires Inv(s) && Enabled(s, Copy(h, src, l)) && h != src
    ensures Refs(CopyAssign(s, h, src, l)) == Refs(s)[h := Copied(Refs(s)[src])]
  {
    InvReset(s, h);
    RefsReset(s, h);
    if s.slots[src] != Null {
      assert Owns(s, src, s.slots[src]);
      RefsCreate(Reset(s, h), h, s.nodes[s.slots[src]].obj.value, true, l);
    }
  }

  lemma RefsAssign(s: State, h: Addr, value: Option<Address>, l: Loc)
    requires Inv(s) && Live(s, h) && Fresh(Reset(s, h), l)
    ensures Refs(ResetTo(s, h, value, l)) == Refs(s)[h := NewRef(value)]
  {
    InvReset(s, h);
    RefsReset(s, h);
    if value.Some? {
      RefsCreate(Reset(s, h), h, value.value, true, l);
    }
  }

  lemma RefsNew(s: State, h: Addr, value: Option<Address>, l: Loc)
    requires Inv(s) && Enabled(s, New(h, value, l))
    ensures Refs(Construct(s, h, value, l)) == Refs(s)[h := NewRef(value)]
  {
    var s0 := s.(slots := s.slots[h := Null]);
    assert forall g, x :: Owns(s0, g, x) <==> Owns(s, g, x);
    if value.Some? {
      RefsCreate(s0, h, value.value, false, l);
    }
  }

  lemma RefsPause(s: State, dead: set<Addr>)
    requires Inv(s) && Enabled(s, FinishMarking(dead))
    ensures Refs(Pause(s, dead)) == Refs(s) - dead
  {
    var s' := Pause(s, dead);
    forall h | Live(s', h) ensures RefIn(s', s'.slots[h]) == RefIn(s, s.slots[h]) {
      if s.slots[h] != Null {
        LiveAreMarked(s, dead, h, s.slots[h]);
      }
    }
  }

  /**
   Each operation changes exactly the references it names, as a plain map from references to objects
   and class ids would: copying onto oneself changes nothing, moving empties the source and keeps the
   class id, copying does not, a collection takes away nothing from a host that is alive, and
   references follow objects that move.
   */
  lemma Refines(s: State, op: Op)
    requires Inv(s) && Enabled(s, op)
    ensures Refs(Step(s, op)) == Effect(Refs(s), op)
  {
    match op
    case New(h, value, l) => RefsNew(s, h, value, l);
    case ResetOp(h) => RefsReset(s, h);
    case AssignLocal(h, value, l) => RefsAssign(s, h, value, l);
    case Copy(h, src, l) => if h != src { RefsCopy(s, h, src, l); }
    case Move(h, src) => if h != src { RefsMove(s, h, src); }
    case ClassIdOp(h, id) => if s.slots[h] in s.nodes { RefsNode(s, h, s.nodes[s.slots[h]].(classId := id)); }
    case HostGone(h) =>
    case StartMarking =>
    case Visit(h) => RefsVisit(s, h);
    case FinishMarking(dead) => RefsPause(s, dead);
    case Sweeping(on) =>
    case MoveObjects(_) =>
  }

  /* Reclamation. */

  /** While marking runs, no node is freed: the concurrent marker never meets a node that is not in use. */
  lemma NoFreeWhileMarking(s: State, op: Op)
    requires Inv(s) && Enabled(s, op) && s.marking && !op.FinishMarking?
    ensures s.nodes.Keys <= Step(s, op).nodes.Keys
    ensures forall l :: l in s.nodes && s.nodes[l].mark ==> Step(s, op).nodes[l].mark
  {
  }

  // A node that no live reference holds, and that no marking has reached.
  ghost predicate Doomed(s: State, l: Loc) {
    Orphan(s, l) && !s.nodes[l].mark
  }

  // Nothing brings an orphan back: it stays as it is, or is freed.
  lemma OrphanStays(s: State, op: Op, l: Loc)
    requires Inv(s) && Enabled(s, op) && Orphan(s, l) && l in Step(s, op).nodes
    ensures Orphan(Step(s, op), l)
    ensures !op.FinishMarking? ==> Step(s, op).nodes[l].mark == s.nodes[l].mark
  {
    var s' := Step(s, op);
    forall h ensures !Owns(s', h, l) {
      assert !Owns(s, h, l);
      if op.Move? {
        assert !Owns(s, op.src, l);
      }
    }
    if op.Move? || op.Visit? {
      assert !Owns(s, if op.Move? then op.src else op.h, l);
    }
  }

  lemma DoomedStep(s: State, op: Op, l: Loc)
    requires Inv(s) && Enabled(s, op) && Doomed(s, l)
    ensures Doomed(Step(s, op), l) || l !in Step(s, op).nodes
    ensures op.FinishMarking? ==> l !in Step(s, op).nodes
  {
    if l in Step(s, op).nodes {
      OrphanStays(s, op, l);
    }
  }

  // Whether `l` is freed by some step of the run.
  ghost predicate FreedIn(s: State, ops: seq<Op>, l: Loc)
    requires CanRun(s, ops)
    decreases |ops|
  {
    ops != [] && (l !in Step(s, ops[0]).nodes || FreedIn(Step(s, ops[0]), ops[1..], l))
  }

  // The number of collections that finish in the run.
  function Pauses(ops: seq<Op>): nat {
    if ops == [] then 0 else (if ops[0].FinishMarking? then 1 else 0) + Pauses(ops[1..])
  }

  /** A node left behind and not marked is freed by the next collection to finish, whatever else happens before. */
  lemma {:induction false} DoomedIsFreed(s: State, ops: seq<Op>, l: Loc)
    requires Inv(s) && CanRun(s, ops) && Doomed(s, l) && Pauses(ops) > 0
    ensures FreedIn(s, ops, l)
    decreases |ops|
  {
    DoomedStep(s, ops[0], l);
    if !ops[0].FinishMarking? && l in Step(s, ops[0]).nodes {
      InvStep(s, ops[0]);
      DoomedIsFreed(Step(s, ops[0]), ops[1..], l);
    }
  }

  /** Any node left behind, even one already marked, is freed by the second collection to finish. */
  lemma {:induction false} OrphanIsFreed(s: State, ops: seq<Op>, l: Loc)
    requires Inv(s) && CanRun(s, ops) && Orphan(s, l) && Pauses(ops) > 1
    ensures FreedIn(s, ops, l)
    decreases |ops|
  {
    var s' := Step(s, ops[0]);
    if l in s'.nodes {
      OrphanStays(s, ops[0], l);
      InvStep(s, ops[0]);
      if ops[0].FinishMarking? {
        DoomedIsFreed(s', ops[1..], l);
      } else {
        OrphanIsFreed(s', ops[1..], l);
      }
    }
  }

  /**
   One collection does not always do. A node left behind while marking is under way is freed by that
   collection if and only if it has not been marked yet.
   */
  lemma {:induction false} FreedByThisOne(s: State, ops: seq<Op>, l: Loc)
    requires Inv(s) && s.marking && Orphan(s, l) && CanRun(s, ops)
    requires ops != [] && ops[|ops| - 1].FinishMarking? && Pauses(ops) == 1
    ensures FreedIn(s, ops, l) <==> !s.nodes[l].mark
    decreases |ops|
  {
    var s' := Step(s, ops[0]);
    if |ops| == 1 {
      assert ops[1..] == [];
    } else {
      LastCounts(ops);
      NoFreeWhileMarking(s, ops[0]);
      OrphanStays(s, ops[0], l);
      InvStep(s, ops[0]);
      FreedByThisOne(s', ops[1..], l);
    }
  }

  // The last operation of a longer run is the last of its tail; so a pause there is not the first operation.
  lemma LastCounts(ops: seq<Op>)
    requires |ops| > 1 && ops[|ops| - 1].FinishMarking? && Pauses(ops) == 1
    ensures Pauses(ops[1..]) == 1 && !ops[0].FinishMarking?
  {
    SomePause(ops[1..]);
  }

  lemma {:induction false} SomePause(ops: seq<Op>)
    requires ops != [] && ops[|ops| - 1].FinishMarking?
    ensures Pauses(ops) > 0
  {
    if |ops| > 1 {
      SomePause(ops[1..]);
    }
  }

  // Such a node exists: a reference is visited, then reset, before the collection finishes.
  lemma OrphanMayStay(h: Addr, a: Address, l: Loc)
    requires l != Null
    ensures var s := State(map[l := TNode(Some(a), 0, false)], map[h := l], {}, {}, true, false);
      var ops := [Visit(h), ResetOp(h), FinishMarking({})];
      Inv(s) && CanRun(s, ops) && l in Run(s, ops).nodes
  {
    var s := State(map[l := TNode(Some(a), 0, false)], map[h := l], {}, {}, true, false);
    assert Inv(s);
    var s1 := Step(s, Visit(h));
    var s2 := Step(s1, ResetOp(h));
    var s3 := Step(s2, FinishMarking({}));
    assert s2.nodes[l] == TNode(None, 0, true) && l in s3.nodes;
    assert [FinishMarking({})][1..] == [] && CanRun(s2, [FinishMarking({})]) && Run(s2, [FinishMarking({})]) == s3;
    assert [ResetOp(h), FinishMarking({})][1..] == [FinishMarking({})];
    assert CanRun(s1, [ResetOp(h), FinishMarking({})]) && Run(s1, [ResetOp(h), FinishMarking({})]) == s3;
    assert [Visit(h), ResetOp(h), FinishMarking({})][1..] == [ResetOp(h), FinishMarking({})];
  }
}
