/**
 The code itself: handles, value maps and the global-handle nodes as memory that methods update
 step by step, in the order the source does.  A ghost `World` mirrors the memory; each method is
 proved to change it exactly as the operation of the same name on worlds does.
 */
module Engine {
  import opened Cells
  import opened Handles
  import opened ValueMaps
  import opened Memory

  class Engine {
    var nodes: map<Loc, Node>                  // in-use nodes of GlobalHandles
    var slots: map<Addr, Loc>                  // `location_` of every handle that exists
    var impls: map<MapId, Impl>
    var data: map<DataId, Param>               // callback data not yet disposed
    var second: seq<DataId>                    // second_pass_callbacks_
    var nextData: DataId
    ghost var w: World

    ghost function V(): Mem
      reads this
    {
      Mem(nodes, slots, impls, data, second, nextData)
    }

    ghost predicate Valid()
      reads this
    {
      Mirrors(V(), w)
    }

    constructor ()
      ensures Valid()
      ensures w == World(map[], map[], {}, map[], Books(map[], multiset{}, {}, multiset{}, multiset{}), map[])
    {
      nodes, slots, impls, data := map[], map[], map[], map[];
      second, nextData := [], 0;
      w := World(map[], map[], {}, map[], Books(map[], multiset{}, {}, multiset{}, multiset{}), map[]);
    }

    /* api_internal, on nodes. */

    method GlobalizeReference(a: Address) returns (l: Loc)
      modifies `nodes
      ensures l != Null && l !in old(nodes) && nodes == old(nodes)[l := Strong(a)]
    {
      FreshNat(nodes.Keys, 1);
      l :| l >= 1 && l !in nodes;
      nodes := nodes[l := Strong(a)];
    }

    method CopyGlobalReference(from: Loc) returns (l: Loc)
      requires from in nodes && !nodes[from].NearDeath?
      modifies `nodes
      ensures l != Null && l !in old(nodes) && nodes == old(nodes)[l := Strong(old(nodes)[from].obj)]
    {
      l := GlobalizeReference(nodes[from].obj);
    }

    method DisposeGlobal(l: Loc)
      requires l in nodes
      modifies `nodes
      ensures nodes == old(nodes) - {l}
    {
      nodes := nodes - {l};
    }

    method MoveGlobalReference(from: Addr, to: Addr)
      requires from in slots && to in slots && slots[from] == slots[to] && slots[to] in nodes
      modifies `nodes
      ensures nodes == old(nodes)[slots[to] := Repointed(old(nodes)[slots[to]], to)]
    {
      var l := slots[from];
      if nodes[l].Phantom? {
        nodes := nodes[l := Phantom(nodes[l].obj, to)];
      }
    }

    /* PersistentBase, Persistent and Global. */

    method NewAddress() returns (h: Addr)
      ensures h !in slots
    {
      FreshNat(slots.Keys, 0);
      h :| h >= 0 && h !in slots;
    }

    // The default constructor: no storage cell.
    method NewEmpty() returns (h: Addr)
      requires Valid()
      modifies this
      ensures Valid() && h !in old(slots) && w == NewHandle(old(w), h)
    {
      h := NewAddress();
      slots := slots[h := Null];
      w := NewHandle(w, h);
      MirrorsNew(old(V()), old(w), h);
    }

    method Reset(h: Addr)
      requires Valid() && h in slots
      modifies this
      ensures Valid() && w == Handles.Reset(old(w), h)
    {
      assert InHandle(h) in w.at <==> slots[h] != Null;
      if slots[h] == Null {
        return;
      }
      DisposeGlobal(slots[h]);
      slots := slots[h := Null];
      w := Handles.Reset(w, h);
      MirrorsReset(old(V()), old(w), h);
    }

    // `slot() = New(isolate, value)` on an empty handle. The out-parameter is the cell the allocator chose.
    method AssignNew(h: Addr, a: Address) returns (ghost l: Loc)
      requires Valid() && h in slots && slots[h] == Null
      modifies this
      ensures Valid() && Available(old(w), l) && w == Alloc(old(w), InHandle(h), l, Strong(a))
    {
      var cell := GlobalizeReference(a);
      slots := slots[h := cell];
      l := cell;
      w := Alloc(w, InHandle(h), l, Strong(a));
      MirrorsAlloc(old(V()), old(w), h, l, a);
    }

    // `slot() = CopyGlobalReference(that.slot())` on an empty handle.
    method AssignCopy(h: Addr, that: Addr) returns (ghost l: Loc)
      requires Valid() && h in slots && that in slots && slots[h] == Null && slots[that] != Null
      modifies this
      ensures Valid() && Available(old(w), l) && Referent(old(w), that).Some?
      ensures w == Alloc(old(w), InHandle(h), l, Strong(Referent(old(w), that).value))
    {
      assert InHandle(that) in w.at;
      var cell := CopyGlobalReference(slots[that]);
      slots := slots[h := cell];
      l := cell;
      w := Alloc(w, InHandle(h), l, Strong(Referent(w, that).value));
      MirrorsAlloc(old(V()), old(w), h, l, Referent(old(w), that).value);
    }

    // `Reset(isolate, Local)`; also the constructor from a Local, on a new empty handle.
    method ResetTo(h: Addr, a: Option<Address>) returns (ghost l: Loc)
      requires Valid() && h in slots
      modifies this
      ensures Valid() && (a.Some? ==> Available(Handles.Reset(old(w), h), l)) && w == Handles.ResetTo(old(w), h, a, l)
    {
      Reset(h);
      assert InHandle(h) !in w.at;
      l := Null;
      if a.Some? {
        l := AssignNew(h, a.value);
      }
    }

    // `Reset(isolate, PersistentBase)`.
    method ResetFrom(h: Addr, other: Addr) returns (ghost l: Loc)
      requires Valid() && h in slots && other in slots
      modifies this
      ensures Valid() && w == Handles.ResetFrom(old(w), h, other, l)
      ensures Referent(Handles.Reset(old(w), h), other).Some? ==> Available(Handles.Reset(old(w), h), l)
    {
      Reset(h);
      assert InHandle(h) !in w.at && (InHandle(other) in w.at <==> slots[other] != Null);
      l := Null;
      if slots[other] != Null {
        l := AssignNew(h, nodes[slots[other]].obj);
      }
    }

    method Copy(h: Addr, that: Addr) returns (ghost l: Loc)
      requires Valid() && h in slots && that in slots
      modifies this
      ensures Valid() && w == Handles.ResetFrom(old(w), h, that, l)
      ensures Referent(Handles.Reset(old(w), h), that).Some? ==> Available(Handles.Reset(old(w), h), l)
    {
      Reset(h);
      assert InHandle(h) !in w.at && (InHandle(that) in w.at <==> slots[that] != Null);
      l := Null;
      if slots[that] != Null {
        l := AssignCopy(h, that);
      }
    }

    // The cell of `rhs` goes to the empty handle `h`.
    method TakeOver(h: Addr, rhs: Addr)
      requires Valid() && h in slots && rhs in slots && h != rhs && slots[h] == Null && slots[rhs] != Null
      modifies this
      ensures Valid() && InHandle(rhs) in old(w).at && old(slots)[rhs] in old(w).cells
      ensures w == Transfer(old(w), InHandle(rhs), InHandle(h), Repointed(old(w).cells[old(slots)[rhs]].node, h))
    {
      MirrorsMove(V(), w, rhs, h);
      var l := slots[rhs];
      slots := slots[h := l];
      MoveGlobalReference(rhs, h);
      slots := slots[rhs := Null];
      w := Transfer(w, InHandle(rhs), InHandle(h), Repointed(old(nodes)[l], h));
      assert slots == old(slots)[rhs := Null][h := l];
    }

    // `Global::operator=(Global&&)`.
    method MoveAssign(h: Addr, rhs: Addr)
      requires Valid() && h in slots && rhs in slots
      modifies this
      ensures Valid() && w == Handles.MoveAssign(old(w), h, rhs)
    {
      if h != rhs {
        Reset(h);
        assert InHandle(h) !in w.at && (InHandle(rhs) in w.at <==> slots[rhs] != Null);
        if slots[rhs] != Null {
          TakeOver(h, rhs);
        }
      }
    }

    // `Global(Global&&)`.
    method MoveConstruct(other: Addr) returns (h: Addr)
      requires Valid() && other in slots
      modifies this
      ensures Valid() && h !in old(slots) && w == Handles.MoveConstruct(old(w), h, other)
    {
      assert forall x :: x !in slots ==> InHandle(x) !in w.at;
      h := NewEmpty();
      assert InHandle(h) !in w.at && (InHandle(other) in w.at <==> slots[other] != Null);
      if slots[other] != Null {
        TakeOver(h, other);
      }
    }

    // `~Global()`.
    method Destroy(h: Addr)
      requires Valid() && h in slots
      modifies this
      ensures Valid() && w == Handles.Destroy(old(w), h)
    {
      Reset(h);
      ghost var v, w1 := V(), w;
      assert InHandle(h) !in w.at;
      slots := slots - {h};
      w := w.(handles := w.handles - {h});
      MirrorsGone(v, w1, h);
    }

    // `SetWeak()`.
    method SetPhantom(h: Addr)
      requires Valid() && h in slots && slots[h] != Null
      modifies this
      ensures Valid() && InHandle(h) in old(w).at && Referent(old(w), h).Some? && w == Handles.SetPhantom(old(w), h)
    {
      assert InHandle(h) in w.at;
      var l := slots[h];
      var n := Phantom(nodes[l].obj, h);
      nodes := nodes[l := n];
      w := Handles.SetPhantom(w, h);
      MirrorsNode(old(V()), old(w), h, n);
    }

    // `ClearWeak()`.
    method ClearWeak(h: Addr)
      requires Valid() && h in slots && slots[h] != Null
      modifies this
      ensures Valid() && InHandle(h) in old(w).at && Referent(old(w), h).Some? && w == Handles.ClearWeak(old(w), h)
    {
      assert InHandle(h) in w.at;
      var l := slots[h];
      var n := Strong(nodes[l].obj);
      nodes := nodes[l := n];
      w := Handles.ClearWeak(w, h);
      MirrorsNode(old(V()), old(w), h, n);
    }

    /* PersistentValueMapBase, on raw memory. */

    // `Global<V> p; p.slot() = v;`
    method Adopt(v: Loc) returns (p: Addr)
      modifies `slots
      ensures p !in old(slots) && slots == old(slots)[p := v]
    {
      p := NewAddress();
      slots := slots[p := v];
    }

    // `return p.Pass();`: the result is moved out of the local handle, which then goes away empty.
    method Pass(p: Addr) returns (q: Addr)
      requires p in slots && (slots[p] == Null || slots[p] in nodes)
      modifies `slots, `nodes
      ensures q !in old(slots) && slots == old(slots)[q := old(slots)[p]] - {p}
      ensures nodes == if old(slots)[p] == Null then old(nodes) else old(nodes)[old(slots)[p] := Repointed(old(nodes)[old(slots)[p]], q)]
    {
      q := Adopt(slots[p]);
      if slots[p] != Null {
        MoveGlobalReference(p, q);
        slots := slots[p := Null];
      }
      slots := slots - {p};
    }

    method IsWeak(p: Addr) returns (b: bool)
      requires p in slots && (slots[p] == Null || slots[p] in nodes)
      ensures b <==> slots[p] != Null && (nodes[slots[p]].Weak? || nodes[slots[p]].Phantom?)
    {
      if slots[p] == Null {
        return false;
      }
      b := nodes[slots[p]].Weak? || nodes[slots[p]].Phantom?;
    }

    method ClearWeakness(l: Loc) returns (d: DataId)
      requires l in nodes && nodes[l].Weak?
      modifies `nodes
      ensures d == old(nodes)[l].param && nodes == old(nodes)[l := Strong(old(nodes)[l].obj)]
    {
      d := nodes[l].param;
      nodes := nodes[l := Strong(nodes[l].obj)];
    }

    method DisposeCallbackData(d: DataId)
      requires d in data
      modifies `data
      ensures data == old(data) - {d}
    {
      data := data - {d};
    }

    method Release(weak: bool, v: Loc) returns (r: Addr)
      requires Releasable(V(), weak, v)
      modifies `slots, `nodes, `data
      ensures r !in old(slots) && slots == old(slots)[r := v]
      ensures v == Null ==> nodes == old(nodes) && data == old(data)
      ensures v != Null ==> nodes == old(nodes)[v := Strengthened(old(nodes)[v])] && data == Forgotten(old(data), old(nodes)[v])
    {
      var p := Adopt(v);
      var isWeak := IsWeak(p);
      if weak && isWeak {
        var d := ClearWeakness(v);
        DisposeCallbackData(d);
      }
      r := Pass(p);
    }

    method TraitsRemove(m: MapId, k: Key) returns (v: Loc)
      requires m in impls
      modifies `impls
      ensures v == if k in old(impls)[m].entries then old(impls)[m].entries[k] else Null
      ensures impls == if k in old(impls)[m].entries then Without(old(impls), m, k) else old(impls)
    {
      if k !in impls[m].entries {
        return Null;
      }
      v := impls[m].entries[k];
      impls := Without(impls, m, k);
    }

    method TraitsSet(m: MapId, k: Key, v: Loc) returns (o: Loc)
      requires m in impls
      modifies `impls
      ensures o == if k in old(impls)[m].entries then old(impls)[m].entries[k] else Null
      ensures impls == With(old(impls), m, k, v)
    {
      o := if k in impls[m].entries then impls[m].entries[k] else Null;
      impls := With(impls, m, k, v);
    }

    method ClearAndLeak(h: Addr) returns (v: Loc)
      requires h in slots
      modifies `slots
      ensures v == old(slots)[h] && slots == old(slots)[h := Null]
    {
      v := slots[h];
      slots := slots[h := Null];
    }

    // The entry under `k`, if there is one, can be released.
    ghost predicate EntryOk(m: MapId, k: Key)
      reads this
      requires m in impls
    {
      k in impls[m].entries ==> impls[m].entries[k] != Null && Releasable(V(), impls[m].info.weak, impls[m].entries[k])
    }

    method RemoveRaw(m: MapId, k: Key) returns (r: Addr)
      requires m in impls && EntryOk(m, k)
      modifies `slots, `nodes, `data, `impls
      ensures r !in old(slots) && V() == AfterRemove(old(V()), m, k, r)
    {
      var v := TraitsRemove(m, k);
      var p := Release(impls[m].info.weak, v);
      r := Pass(p);
    }

    /* PersistentValueMap and GlobalValueMap. */

    method NewMap(kind: Kind, weak: bool) returns (m: MapId)
      requires Valid()
      modifies this
      ensures Valid() && m !in old(impls) && w == old(w).(maps := old(w).maps[m := MapInfo(kind, weak, m)])
    {
      FreshNat(impls.Keys, 0);
      m :| m >= 0 && m !in impls;
      MirrorsNewMap(V(), w, m, MapInfo(kind, weak, m));
      impls := impls[m := Impl(MapInfo(kind, weak, m), map[])];
      w := w.(maps := w.maps[m := MapInfo(kind, weak, m)]);
    }

    method Remove(m: MapId, k: Key) returns (r: Addr)
      requires Valid() && Kinds(w) && m in impls
      modifies this
      ensures Valid() && r !in old(slots) && w == ValueMaps.Remove(old(w), m, k, r)
    {
      if k in impls[m].entries {
        EntryReleasable(V(), w, m, k);
      }
      r := RemoveRaw(m, k);
      w := ValueMaps.Remove(w, m, k, r);
      MirrorsRemove(old(V()), old(w), m, k, r);
    }

    // `SetWeak` on the handle, with callback data that names the map and the key.
    method Install(m: MapId, k: Key, h: Addr)
      requires h in slots && slots[h] in nodes && !nodes[slots[h]].NearDeath?
      modifies `nodes, `data, `nextData
      ensures nextData == old(nextData) + 1 && data == old(data)[old(nextData) := Param(m, k)]
      ensures nodes == old(nodes)[slots[h] := Weak(old(nodes)[slots[h]].obj, old(nextData))]
    {
      data := data[nextData := Param(m, k)];
      nodes := nodes[slots[h] := Weak(nodes[slots[h]].obj, nextData)];
      nextData := nextData + 1;
    }

    method PutRaw(m: MapId, k: Key, h: Addr) returns (o: Loc)
      requires m in impls && impls[m].info.home == m
      requires h in slots && slots[h] in nodes && !nodes[slots[h]].NearDeath?
      requires !impls[m].info.weak ==> nodes[slots[h]].Strong?
      modifies `slots, `nodes, `data, `impls, `nextData
      ensures o == if k in old(impls)[m].entries then old(impls)[m].entries[k] else Null
      ensures V() == AfterInsert(old(V()), m, k, h)
    {
      if impls[m].info.weak {
        Install(m, k, h);
      }
      var v := ClearAndLeak(h);
      o := TraitsSet(m, k, v);
    }

    method SetRaw(m: MapId, k: Key, h: Addr) returns (r: Addr)
      requires CanPut(V(), m, k, h) && impls[m].info.home == m
      modifies `slots, `nodes, `data, `impls, `nextData
      ensures r !in old(slots) && V() == AfterRelease(AfterInsert(old(V()), m, k, h), OldValue(old(V()), m, k), r)
    {
      var weak := impls[m].info.weak;
      var old_value := PutRaw(m, k, h);
      var p := Release(weak, old_value);
      r := Pass(p);
    }

    // The same, on memory that mirrors a world: what the code relies on is there.
    method SetMirrored(m: MapId, k: Key, h: Addr) returns (r: Addr)
      requires Valid() && Kinds(w) && Settable(V(), m, h)
      modifies `slots, `nodes, `data, `impls, `nextData
      ensures r !in old(slots) && CanPut(old(V()), m, k, h)
      ensures V() == AfterRelease(AfterInsert(old(V()), m, k, h), OldValue(old(V()), m, k), r)
    {
      CanPutIf(V(), w, m, k, h);
      r := SetRaw(m, k, h);
    }

    method SetUnique(m: MapId, k: Key, h: Addr) returns (r: Addr)
      requires Valid() && Kinds(w) && Settable(V(), m, h)
      modifies this
      ensures Valid() && CanSet(old(w), m, h, old(nextData), r)
      ensures w == ValueMaps.SetUnique(old(w), m, k, h, old(nextData), r)
    {
      ghost var v := V();
      r := SetMirrored(m, k, h);
      SetDone(v, V(), w, m, k, h, r);
      w := ValueMaps.SetUnique(w, m, k, h, v.nextData, r);
    }

    // `Set(key, value, &reference)`: the reference is the raw cell, which the map keeps.
    method SetWithReference(m: MapId, k: Key, h: Addr) returns (r: Addr, reference: Loc)
      requires Valid() && Kinds(w) && Settable(V(), m, h)
      modifies this
      ensures Valid() && CanSet(old(w), m, h, old(nextData), r)
      ensures w == ValueMaps.SetUnique(old(w), m, k, h, old(nextData), r)
      ensures reference == At(old(w), InHandle(h)) == At(w, InImpl(m, k))
    {
      assert InHandle(h) in w.at;
      reference := slots[h];
      SetKeepsCell(V(), w, m, k, h);
      r := SetUnique(m, k, h);
    }
  }
}
