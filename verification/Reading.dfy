/**
 The operations that only look at a map, and agree with the plain map it stands for.
 */
module Reading {
  import opened Cells
  import opened PlainMaps
  import opened Memory
  import opened Engine

  lemma EntriesAre(v: Mem, w: World, m: MapId)
    requires Mirrors(v, w) && ObjectsAlive(w) && m in v.impls
    ensures v.impls[m].entries.Keys == Contents(w, m).Keys
  {
    forall k ensures k in v.impls[m].entries <==> k in Contents(w, m) {
      assert InImpl(m, k) in w.at <==> k in v.impls[m].entries;
      assert InImpl(m, k) in w.at ==> ObjectOf(w, InImpl(m, k)).Some?;
    }
  }

  lemma EmptyContents(v: Mem, w: World, m: MapId)
    requires Mirrors(v, w) && ObjectsAlive(w) && m in v.impls
    ensures v.impls[m].entries == map[] <==> Contents(w, m) == map[]
  {
    EntriesAre(v, w, m);
    assert v.impls[m].entries == map[] <==> v.impls[m].entries.Keys == {};
    assert Contents(w, m) == map[] <==> Contents(w, m).Keys == {};
  }

  // What a raw cell address taken from the map stands for.
  lemma EntryObject(v: Mem, w: World, m: MapId, k: Key)
    requires Mirrors(v, w) && ObjectsAlive(w) && m in v.impls && k in v.impls[m].entries
    ensures v.impls[m].entries[k] in v.nodes && v.nodes[v.impls[m].entries[k]].obj in w.objects
    ensures k in Contents(w, m) && Contents(w, m)[k] == w.objects[v.nodes[v.impls[m].entries[k]].obj]
    ensures v.impls[m].entries[k] != Null && Deref(w, v.impls[m].entries[k]) == Some(Contents(w, m)[k])
  {
    assert InImpl(m, k) in w.at;
    assert ObjectOf(w, InImpl(m, k)).Some?;
    ContentsAll(w, m);
  }

  method TraitsGet(e: Engine, m: MapId, k: Key) returns (v: Loc)
    requires m in e.impls
    ensures v == if k in e.impls[m].entries then e.impls[m].entries[k] else Null
  {
    if k !in e.impls[m].entries {
      return Null;
    }
    v := e.impls[m].entries[k];
  }

  // `Get`: a new Local for the object, or an empty one.
  method Get(e: Engine, m: MapId, k: Key) returns (a: Option<Address>)
    requires e.Valid() && ObjectsAlive(e.w) && m in e.impls
    ensures a.Some? <==> k in Contents(e.w, m)
    ensures a.Some? ==> a.value in e.w.objects && e.w.objects[a.value] == Contents(e.w, m)[k]
  {
    EntriesAre(e.V(), e.w, m);
    var p := TraitsGet(e, m, k);
    if k in e.impls[m].entries {
      EntryObject(e.V(), e.w, m, k);
    }
    a := if p == Null then None else Some(e.nodes[p].obj);
  }

  method Contains(e: Engine, m: MapId, k: Key) returns (b: bool)
    requires e.Valid() && ObjectsAlive(e.w) && m in e.impls
    ensures b <==> k in Contents(e.w, m)
  {
    EntriesAre(e.V(), e.w, m);
    var p := TraitsGet(e, m, k);
    if k in e.impls[m].entries {
      EntryObject(e.V(), e.w, m, k);
    }
    b := p != Null;
  }

  method Size(e: Engine, m: MapId) returns (n: nat)
    requires e.Valid() && ObjectsAlive(e.w) && m in e.impls
    ensures n == |Contents(e.w, m)|
  {
    EntriesAre(e.V(), e.w, m);
    n := |e.impls[m].entries|;
    assert |e.impls[m].entries.Keys| == |Contents(e.w, m).Keys|;
  }

  // `GetReference`: the raw cell address, which `ReferenceRun` follows through later operations.
  method GetReference(e: Engine, m: MapId, k: Key) returns (v: Loc)
    requires e.Valid() && ObjectsAlive(e.w) && m in e.impls
    ensures v == At(e.w, InImpl(m, k))
    ensures Deref(e.w, v) == Lookup(Contents(e.w, m), k)
  {
    EntriesAre(e.V(), e.w, m);
    v := TraitsGet(e, m, k);
    assert InImpl(m, k) in e.w.at <==> k in e.impls[m].entries;
    if k in e.impls[m].entries {
      EntryObject(e.V(), e.w, m, k);
    }
  }
}
