/**
 Traced references as memory: the methods of `TracedReference` and the node operations behind them.
 */
module TracedEngine {
  import opened Cells
  import T = Traced

  class TracedHandles {
    var nodes: map<Loc, T.TNode>
    var slots: map<Addr, Loc>
    var isMarking: bool
    var isSweeping: bool
    ghost var dying: set<Addr>
    ghost var visited: set<Addr>

    ghost function S(): T.State
      reads this
    {
      T.State(nodes, slots, dying, visited, isMarking, isSweeping)
    }

    constructor ()
      ensures T.Inv(S()) && S() == T.State(map[], map[], {}, {}, false, false)
    {
      nodes, slots, isMarking, isSweeping, dying, visited := map[], map[], false, false, {}, {};
    }

    // `TracedHandles::Destroy`. A null location is ignored, and so is any location while destructors run.
    method Destroy(l: Loc)
      requires l != Null && !isSweeping ==> l in nodes
      modifies `nodes
      ensures S() == T.Destroyed(old(S()), l)
    {
      if l == Null {
        return;
      }
      if isSweeping {
        return;
      }
      if isMarking {
        nodes := nodes[l := nodes[l].(obj := None)];
        return;
      }
      nodes := nodes - {l};
    }

    method Create(a: Address, assigning: bool) returns (l: Loc)
      requires Null !in nodes
      modifies `nodes
      ensures T.Fresh(old(S()), l) && nodes == old(nodes)[l := T.TNode(Some(a), 0, isMarking && assigning)]
    {
      FreshNat(nodes.Keys, 1);
      l :| l >= 1 && l !in nodes;
      nodes := nodes[l := T.TNode(Some(a), 0, isMarking && assigning)];
    }

    method Reset(h: Addr)
      requires T.Inv(S()) && h in slots && (h in dying ==> isSweeping)
      modifies this
      ensures S() == T.Reset(old(S()), h) && T.Inv(S())
    {
      T.InvReset(S(), h);
      assert h !in dying && slots[h] != Null ==> T.Owns(S(), h, slots[h]);
      if slots[h] == Null {
        assert S() == T.Reset(old(S()), h);
        return;
      }
      Destroy(slots[h]);
      slots := slots[h := Null];
    }

    // The constructor from a Local, which may be empty.
    method New(a: Option<Address>) returns (h: Addr, ghost l: Loc)
      requires T.Inv(S())
      modifies this
      ensures T.Enabled(old(S()), T.New(h, a, l)) && S() == T.Construct(old(S()), h, a, l) && T.Inv(S())
    {
      FreshNat(slots.Keys, 0);
      h :| h >= 0 && h !in slots;
      FreshNat(nodes.Keys, 1);
      l :| l >= 1 && l !in nodes;
      slots := slots[h := Null];
      if a.Some? {
        var cell := Create(a.value, false);
        slots := slots[h := cell];
        l := cell;
      }
      T.InvStep(old(S()), T.New(h, a, l));
    }

    // `Reset(isolate, Local)`.
    method ResetTo(h: Addr, a: Option<Address>) returns (ghost l: Loc)
      requires T.Inv(S()) && T.Live(S(), h)
      modifies this
      ensures (a.Some? ==> T.Fresh(T.Reset(old(S()), h), l)) && S() == T.ResetTo(old(S()), h, a, l) && T.Inv(S())
    {
      l := Null;
      Reset(h);
      if a.Some? {
        ghost var s := S();
        var cell := Create(a.value, true);
        slots := slots[h := cell];
        l := cell;
        T.InvCreate(s, h, a.value, true, l);
      }
    }

    method CopyTracedReference(from: Addr, to: Addr) returns (ghost l: Loc)
      requires T.Inv(S()) && T.Live(S(), from) && T.Live(S(), to) && slots[from] in nodes && slots[to] == Null
      requires nodes[slots[from]].obj.Some?
      modifies this
      ensures T.Fresh(old(S()), l) && S() == T.Create(old(S()), to, old(nodes[slots[from]].obj.value), true, l) && T.Inv(S())
    {
      ghost var s := S();
      var cell := Create(nodes[slots[from]].obj.value, true);
      slots := slots[to := cell];
      l := cell;
      T.InvCreate(s, to, s.nodes[s.slots[from]].obj.value, true, l);
    }

    // `operator=(const TracedReference&)`.
    method CopyAssign(h: Addr, rhs: Addr) returns (ghost l: Loc)
      requires T.Inv(S()) && T.Live(S(), h) && T.Live(S(), rhs)
      modifies this
      ensures h != rhs && old(slots)[rhs] != Null ==> T.Fresh(T.Reset(old(S()), h), l)
      ensures S() == T.CopyAssign(old(S()), h, rhs, l) && T.Inv(S())
    {
      l := Null;
      ghost var s := S();
      if h != rhs {
        assert slots[rhs] != Null ==> T.Owns(S(), rhs, slots[rhs]);
        T.InvReset(S(), h);
        Reset(h);
        if slots[rhs] != Null {
          assert T.Owns(S(), rhs, slots[rhs]);
          CopiedObject(s, h, rhs);
          l := CopyTracedReference(rhs, h);
        }
      }
    }

    lemma CopiedObject(s: T.State, h: Addr, rhs: Addr)
      requires T.Inv(s) && T.Live(s, h) && T.Live(s, rhs) && h != rhs && s.slots[rhs] != Null
      ensures T.ObjectIn(T.Reset(s, h), s.slots[rhs]) == T.ObjectIn(s, s.slots[rhs])
    {
      assert T.Owns(s, rhs, s.slots[rhs]);
      assert !T.Owns(s, h, s.slots[rhs]);
    }

    // `MoveTracedReference`.
    method MoveTracedReference(from: Addr, to: Addr)
      requires T.Inv(S()) && T.Live(S(), from) && T.Live(S(), to) && from != to
      modifies this
      ensures S() == T.MoveAssign(old(S()), to, from) && T.Inv(S())
    {
      ghost var s := S();
      T.InvMove(s, to, from);
      assert slots[to] != Null ==> T.Owns(s, to, slots[to]);
      assert slots[from] != Null ==> T.Owns(s, from, slots[from]) && !T.Owns(s, to, slots[from]);
      Destroy(slots[to]);
      if slots[from] == Null {
        slots := slots[to := Null];
        return;
      }
      var l := slots[from];
      slots := slots[to := l];
      if isMarking {
        nodes := nodes[l := nodes[l].(mark := true)];
      }
      slots := slots[from := Null];
    }

    // `operator=(TracedReference&&)`.
    method MoveAssign(h: Addr, rhs: Addr)
      requires T.Inv(S()) && T.Live(S(), h) && T.Live(S(), rhs)
      modifies this
      ensures S() == T.MoveAssign(old(S()), h, rhs) && T.Inv(S())
    {
      if h != rhs {
        MoveTracedReference(rhs, h);
      }
    }

    method SetWrapperClassId(h: Addr, id: T.ClassId)
      requires T.Inv(S()) && T.Live(S(), h)
      modifies this
      ensures S() == T.SetClassId(old(S()), h, id) && T.Inv(S())
    {
      if slots[h] == Null {
        return;
      }
      assert T.Owns(S(), h, slots[h]);
      T.InvStep(S(), T.ClassIdOp(h, id));
      nodes := nodes[slots[h] := nodes[slots[h]].(classId := id)];
    }

    method WrapperClassId(h: Addr) returns (id: T.ClassId)
      requires T.Inv(S()) && T.Live(S(), h)
      ensures id == match T.Refs(S())[h] case Some(r) => r.1 case None => 0
    {
      if slots[h] == Null {
        return 0;
      }
      assert T.Owns(S(), h, slots[h]);
      id := nodes[slots[h]].classId;
    }

    // `ResetDeadNodes` at the end of marking: nodes not marked are freed, the marks of the others cleared.
    method ResetDeadNodes(ghost dead: set<Addr>)
      requires T.Inv(S()) && T.Enabled(S(), T.FinishMarking(dead))
      modifies this
      ensures S() == T.Pause(old(S()), dead) && T.Inv(S())
    {
      ghost var s := S();
      T.InvPause(s, dead);
      ghost var done: set<Loc> := {};
      var todo := nodes.Keys;
      while todo != {}
        invariant todo !! done && todo + done == s.nodes.Keys && slots == s.slots && isMarking && !isSweeping
        invariant nodes == map l | l in s.nodes && (l in todo || s.nodes[l].mark) ::
          if l in todo then s.nodes[l] else s.nodes[l].(mark := false)
        decreases todo
      {
        var l :| l in todo;
        if !nodes[l].mark {
          nodes := nodes - {l};
        } else {
          nodes := nodes[l := nodes[l].(mark := false)];
        }
        todo := todo - {l};
        done := done + {l};
      }
      isMarking := false;
      dying, visited := dead, {};
    }

    // The visitor of `Iterate`, when objects have moved: every node in use is updated.
    method UpdateNodes(reloc: map<Address, Address>)
      requires T.Inv(S())
      modifies this
      ensures S() == T.Relocate(old(S()), reloc) && T.Inv(S())
    {
      ghost var s := S();
      T.InvStep(s, T.MoveObjects(reloc));
      UpdateEach(reloc);
    }

    method UpdateEach(reloc: map<Address, Address>)
      modifies `nodes
      ensures S() == T.Relocate(old(S()), reloc)
    {
      var todo := nodes.Keys;
      while todo != {}
        invariant todo <= old(nodes).Keys && nodes == T.PartlyMoved(old(nodes), todo, reloc)
        decreases todo
      {
        var l :| l in todo;
        nodes := nodes[l := nodes[l].(obj := T.Moved(nodes[l].obj, reloc))];
        todo := todo - {l};
      }
    }

    // The marker starts.
    method StartMarking()
      requires T.Inv(S()) && T.Enabled(S(), T.StartMarking)
      modifies this
      ensures S() == T.Step(old(S()), T.StartMarking) && T.Inv(S())
    {
      T.InvStep(S(), T.StartMarking);
      isMarking, visited := true, {};
    }

    // `TracedHandles::Mark`, for a reference that is not empty.
    method Mark(h: Addr)
      requires T.Inv(S()) && isMarking && T.Live(S(), h)
      modifies this
      ensures S() == T.Trace(old(S()), h) && T.Inv(S())
    {
      T.InvVisit(S(), h);
      visited := visited + {h};
      if slots[h] == Null {
        return;
      }
      assert T.Owns(old(S()), h, slots[h]);
      nodes := nodes[slots[h] := nodes[slots[h]].(mark := true)];
    }
  }
}
