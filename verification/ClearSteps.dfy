/**
 The steps that `Clear` is made of, on worlds: `Set` and `Remove` by a caller who drops the result,
 releasing and disposing of one entry, and the swap.  For each: that the invariant is kept, what it
 does to the contents of maps, what it leaves alone, and that it is a run of handle and map operations.
 */
module ClearSteps {
  import opened Cells
  import opened Handles
  import opened ValueMaps
  import opened Runs
  import opened Frames
  import opened PlainMaps

  // Outside the maps in `ms`, nothing has changed.
  ghost predicate Outside(w: World, w': World, ms: set<MapId>) {
    && w'.handles == w.handles && w'.objects == w.objects
    && (forall p: Place {:trigger Agree(w, w', p)} :: (p.InImpl? ==> p.m !in ms) ==> Agree(w, w', p))
  }

  lemma OutsideTrans(w: World, w1: World, w2: World, ms: set<MapId>)
    requires Owned(w) && Outside(w, w1, ms) && Outside(w1, w2, ms)
    ensures Outside(w, w2, ms)
  {
    forall p: Place | p.InImpl? ==> p.m !in ms ensures Agree(w, w2, p) {
      assert Agree(w, w1, p) && Agree(w1, w2, p);
    }
  }

  lemma OutsideContents(w: World, w': World, ms: set<MapId>, x: MapId)
    requires Owned(w) && Outside(w, w', ms) && x !in ms
    ensures Contents(w', x) == Contents(w, x)
  {
    ContentsAll(w, x);
    ContentsAll(w', x);
    forall k ensures ObjectOf(w', InImpl(x, k)) == ObjectOf(w, InImpl(x, k)) {
      assert Agree(w, w', InImpl(x, k));
    }
    PlainEqual(Contents(w', x), Contents(w, x));
  }

  /* `Remove`. */

  // A handle that is new in `w` and destroyed in `w'`.
  lemma AgreeGone(w: World, w': World, h: Addr)
    requires Owned(w) && Owned(w') && h !in w.handles && h !in w'.handles
    ensures Agree(w, w', InHandle(h))
  {
  }

  lemma AgreeTrans(w: World, w1: World, w2: World, p: Place)
    requires Agree(w, w1, p) && Agree(w1, w2, p)
    requires p in w.at ==> w.at[p] in w.cells
    ensures Agree(w, w2, p)
  {
  }

  lemma DestroyKeeps(w: World, h: Addr)
    requires Inv(w) && h in w.handles
    ensures Inv(Destroy(w, h))
    ensures forall x :: Contents(Destroy(w, h), x) == Contents(w, x)
    ensures forall p {:trigger Agree(w, Destroy(w, h), p)} :: p != InHandle(h) ==> Agree(w, Destroy(w, h), p)
  {
    InvDestroy(w, h);
    forall x ensures Contents(Destroy(w, h), x) == Contents(w, x) {
      MapRefines(w, OnHandle(Destruct(h)), x);
    }
    forall p | p != InHandle(h) ensures Agree(w, Destroy(w, h), p) {
      AgreeReset(w, h, p);
    }
  }

  lemma RemoveContents(w: World, m: MapId, k: Key, r: Addr, x: MapId)
    requires Inv(w) && m in w.maps && r !in w.handles
    ensures Contents(Remove(w, m, k, r), x) == if x == m then Contents(w, m) - {k} else Contents(w, x)
  {
    MapRefines(w, OnMap(Take(m, k, r)), x);
  }

  lemma DelInv(w: World, m: MapId, k: Key, r: Addr)
    requires Inv(w) && m in w.maps && r !in w.handles
    ensures Inv(Destroy(Remove(w, m, k, r), r))
  {
    InvRemove(w, m, k, r);
    InvDestroy(Remove(w, m, k, r), r);
  }

  lemma DelAgrees(w: World, m: MapId, k: Key, r: Addr, p: Place)
    requires Inv(w) && m in w.maps && r !in w.handles && p != InImpl(m, k)
    ensures Agree(w, Destroy(Remove(w, m, k, r), r), p)
  {
  }

  lemma DelKeeps(w: World, m: MapId, k: Key, r: Addr)
    requires Inv(w) && m in w.maps && r !in w.handles
    ensures Destroy(Remove(w, m, k, r), r).maps == w.maps && Outside(w, Destroy(Remove(w, m, k, r), r), {m})
  {
    var w' := Destroy(Remove(w, m, k, r), r);
    forall p: Place | p.InImpl? ==> p.m !in {m} ensures Agree(w, w', p) {
      DelAgrees(w, m, k, r, p);
    }
  }

  lemma DelContents(w: World, m: MapId, k: Key, r: Addr)
    requires Inv(w) && m in w.maps && r !in w.handles
    ensures Contents(Destroy(Remove(w, m, k, r), r), m) == Contents(w, m) - {k}
  {
    InvRemove(w, m, k, r);
    RemoveContents(w, m, k, r, m);
    DestroyKeeps(Remove(w, m, k, r), r);
  }

  lemma DestroyLeads(w: World, h: Addr, m: MapId)
    requires Inv(w) && h in w.handles
    ensures Leads(w, Destroy(w, h), m, [])
  {
    LeadsStep(w, OnHandle(Destruct(h)), m);
  }

  lemma RemoveLeads(w: World, f: MapId, k: Key, r: Addr, m: MapId)
    requires Inv(w) && f in w.maps && r !in w.handles
    ensures Leads(w, Remove(w, f, k, r), m, if f == m then [Removes(k)] else [])
  {
    LeadsStep(w, OnMap(Take(f, k, r)), m);
  }

  lemma DelLeads(w: World, m: MapId, k: Key, r: Addr)
    requires Inv(w) && m in w.maps && r !in w.handles
    ensures Leads(w, Destroy(Remove(w, m, k, r), r), m, [Removes(k)])
  {
    RemoveLeads(w, m, k, r, m);
    InvRemove(w, m, k, r);
    DestroyLeads(Remove(w, m, k, r), r, m);
    LeadsTrans(w, Remove(w, m, k, r), Destroy(Remove(w, m, k, r), r), m, [Removes(k)], []);
    assert [Removes(k)] + [] == [Removes(k)];
  }

  /* `Set`. */

  // The worlds between the parts of `Set(k, local)`.
  ghost predicate PutSteps(w: World, m: MapId, k: Key, a: Address, h: Addr, l: Loc, d: DataId, r: Addr, w1: World, w2: World) {
    && a in w.objects && h !in w.handles && Available(w, l) && w1 == ResetTo(NewHandle(w, h), h, Some(a), l)
    && CanSet(w1, m, h, d, r) && w2 == SetUnique(w1, m, k, h, d, r)
  }

  lemma PutInv(w: World, m: MapId, k: Key, a: Address, h: Addr, l: Loc, d: DataId, r: Addr, w1: World, w2: World)
    requires Inv(w) && PutSteps(w, m, k, a, h, l, d, r, w1, w2)
    ensures Inv(w1) && Inv(w2)
  {
    InvStep(w, OnHandle(Construct(h, Some(a), l)));
    InvSetUnique(w1, m, k, h, d, r);
  }

  lemma ConstructContents(w: World, a: Address, h: Addr, l: Loc, x: MapId)
    requires Inv(w) && a in w.objects && h !in w.handles && Available(w, l)
    ensures Contents(ResetTo(NewHandle(w, h), h, Some(a), l), x) == Contents(w, x)
  {
    MapRefines(w, OnHandle(Construct(h, Some(a), l)), x);
  }

  lemma SetContents(w: World, m: MapId, k: Key, h: Addr, d: DataId, r: Addr)
    requires Inv(w) && CanSet(w, m, h, d, r)
    ensures Contents(SetUnique(w, m, k, h, d, r), m) == Contents(w, m)[k := w.objects[Referent(w, h).value]]
  {
    MapRefines(w, OnMap(Set(m, k, h, d, r)), m);
  }

  lemma PutContents(w: World, m: MapId, k: Key, a: Address, h: Addr, l: Loc, d: DataId, r: Addr, w1: World, w2: World)
    requires Inv(w) && PutSteps(w, m, k, a, h, l, d, r, w1, w2)
    ensures Contents(w2, m) == Contents(w, m)[k := w.objects[a]]
  {
    PutInv(w, m, k, a, h, l, d, r, w1, w2);
    ConstructContents(w, a, h, l, m);
    SetContents(w1, m, k, h, d, r);
  }

  lemma PutAgrees(w: World, m: MapId, k: Key, a: Address, h: Addr, l: Loc, d: DataId, r: Addr, w1: World, w2: World, p: Place)
    requires Inv(w) && PutSteps(w, m, k, a, h, l, d, r, w1, w2) && p != InImpl(m, k) && p != InHandle(h) && p != InHandle(r)
    ensures Agree(w, w2, p)
  {
    PutInv(w, m, k, a, h, l, d, r, w1, w2);
    AgreeStep(w, OnHandle(Construct(h, Some(a), l)), p);
    AgreeSet(w1, m, k, h, d, r, p);
  }

  lemma TwoGone(w: World, h: Addr, r: Addr, p: Place)
    requires Inv(w) && h in w.handles && r in w.handles && h != r && p != InHandle(h) && p != InHandle(r)
    ensures Inv(Destroy(Destroy(w, h), r)) && Agree(w, Destroy(Destroy(w, h), r), p)
    ensures forall x :: Contents(Destroy(Destroy(w, h), r), x) == Contents(w, x)
  {
    DestroyKeeps(w, h);
    DestroyKeeps(Destroy(w, h), r);
    AgreeTrans(w, Destroy(w, h), Destroy(Destroy(w, h), r), p);
  }

  lemma PutHandles(w: World, m: MapId, k: Key, a: Address, h: Addr, l: Loc, d: DataId, r: Addr, w1: World, w2: World)
    requires Inv(w) && PutSteps(w, m, k, a, h, l, d, r, w1, w2)
    ensures h != r && r !in w.handles && w2.handles == w.handles + {h, r} && w2.maps == w.maps && w2.objects == w.objects
  {
  }

  lemma PutAgreesAll(w: World, m: MapId, k: Key, a: Address, h: Addr, l: Loc, d: DataId, r: Addr, w1: World, w2: World, p: Place)
    requires Inv(w) && PutSteps(w, m, k, a, h, l, d, r, w1, w2) && h in w2.handles && r in w2.handles && p != InImpl(m, k)
    ensures Agree(w, Destroy(Destroy(w2, h), r), p)
  {
    PutInv(w, m, k, a, h, l, d, r, w1, w2);
    var w' := Destroy(Destroy(w2, h), r);
    if p == InHandle(h) || p == InHandle(r) {
      TwoGone(w2, h, r, InImpl(m, k));
      AgreeGone(w, w', p.h);
    } else {
      TwoGone(w2, h, r, p);
      PutAgrees(w, m, k, a, h, l, d, r, w1, w2, p);
      AgreeTrans(w, w2, w', p);
    }
  }

  lemma AddedAndGone(s: set<Addr>, h: Addr, r: Addr)
    requires h !in s && r !in s
    ensures s + {h, r} - {h} - {r} == s
  {
  }

  lemma PutOutside(w: World, m: MapId, k: Key, a: Address, h: Addr, l: Loc, d: DataId, r: Addr, w1: World, w2: World)
    requires Inv(w) && PutSteps(w, m, k, a, h, l, d, r, w1, w2)
    ensures var w' := Destroy(Destroy(w2, h), r); w'.maps == w.maps && Outside(w, w', {m})
  {
    PutHandles(w, m, k, a, h, l, d, r, w1, w2);
    var w' := Destroy(Destroy(w2, h), r);
    AddedAndGone(w.handles, h, r);
    forall p: Place | p.InImpl? ==> p.m !in {m} ensures Agree(w, w', p) {
      PutAgreesAll(w, m, k, a, h, l, d, r, w1, w2, p);
    }
  }

  lemma PutKeeps(w: World, m: MapId, k: Key, a: Address, h: Addr, l: Loc, d: DataId, r: Addr, w1: World, w2: World)
    requires Inv(w) && PutSteps(w, m, k, a, h, l, d, r, w1, w2)
    ensures var w' := Destroy(Destroy(w2, h), r); Inv(w') && Contents(w', m) == Contents(w, m)[k := w.objects[a]]
  {
    PutHandles(w, m, k, a, h, l, d, r, w1, w2);
    PutInv(w, m, k, a, h, l, d, r, w1, w2);
    PutContents(w, m, k, a, h, l, d, r, w1, w2);
    TwoGone(w2, h, r, InImpl(m, k));
  }

  lemma ConstructLeads(w: World, a: Address, h: Addr, l: Loc, m: MapId)
    requires Inv(w) && a in w.objects && h !in w.handles && Available(w, l)
    ensures Leads(w, ResetTo(NewHandle(w, h), h, Some(a), l), m, [])
  {
    LeadsStep(w, OnHandle(Construct(h, Some(a), l)), m);
  }

  lemma SetLeads(w: World, m: MapId, k: Key, h: Addr, d: DataId, r: Addr)
    requires Inv(w) && CanSet(w, m, h, d, r)
    ensures Leads(w, SetUnique(w, m, k, h, d, r), m, [Sets(k)])
  {
    LeadsStep(w, OnMap(Set(m, k, h, d, r)), m);
  }

  lemma TwoLead(w: World, h: Addr, r: Addr, m: MapId)
    requires Inv(w) && h in w.handles && r in w.handles && h != r
    ensures Leads(w, Destroy(Destroy(w, h), r), m, [])
  {
    InvDestroy(w, h);
    DestroyLeads(w, h, m);
    DestroyLeads(Destroy(w, h), r, m);
    LeadsTrans(w, Destroy(w, h), Destroy(Destroy(w, h), r), m, [], []);
  }

  lemma PutLeads(w: World, m: MapId, k: Key, a: Address, h: Addr, l: Loc, d: DataId, r: Addr, w1: World, w2: World)
    requires Inv(w) && PutSteps(w, m, k, a, h, l, d, r, w1, w2)
    ensures Leads(w, Destroy(Destroy(w2, h), r), m, [Sets(k)])
  {
    PutHandles(w, m, k, a, h, l, d, r, w1, w2);
    PutInv(w, m, k, a, h, l, d, r, w1, w2);
    ConstructLeads(w, a, h, l, m);
    SetLeads(w1, m, k, h, d, r);
    TwoLead(w2, h, r, m);
    LeadsAround(w, w1, w2, Destroy(Destroy(w2, h), r), m, [Sets(k)]);
  }

  /* One entry, with whatever happens between its release and the end of `Dispose`. */

  lemma DisposedAgrees(w: World, m: MapId, f: MapId, k: Key, r: Addr, w2: World, p: Place)
    requires Inv(w) && r !in w.handles && f in w.maps && Inv(w2) && (p.InImpl? ==> p.m !in {m, f})
    requires p != InHandle(r) ==> Agree(Remove(w, f, k, r), w2, p)
    ensures Agree(w, Destroy(w2, r), p)
  {
    if p == InHandle(r) {
      InvDestroy(w2, r);
      AgreeGone(w, Destroy(w2, r), r);
    } else {
      AgreeRemove(w, f, k, r, p);
      AgreeReset(w2, r, p);
      AgreeTrans(w, Remove(w, f, k, r), w2, p);
      AgreeTrans(w, w2, Destroy(w2, r), p);
    }
  }

  lemma DisposedOutside(w: World, m: MapId, f: MapId, k: Key, r: Addr, w2: World)
    requires Inv(w) && r !in w.handles && f in w.maps && Inv(w2)
    requires Outside(Remove(w, f, k, r), w2, {m})
    ensures Outside(w, Destroy(w2, r), {m, f})
  {
    assert Destroy(w2, r).handles == w.handles;
    forall p: Place | p.InImpl? ==> p.m !in {m, f} ensures Agree(w, Destroy(w2, r), p) {
      assert Agree(Remove(w, f, k, r), w2, p);
      DisposedAgrees(w, m, f, k, r, w2, p);
    }
  }

  lemma DisposedContents(w: World, m: MapId, f: MapId, k: Key, r: Addr, w2: World)
    requires Inv(w) && r !in w.handles && r in w2.handles && f in w.maps && m != f && Inv(w2)
    requires Outside(Remove(w, f, k, r), w2, {m})
    ensures Contents(Destroy(w2, r), f) == Contents(w, f) - {k} && Contents(Destroy(w2, r), m) == Contents(w2, m)
    ensures Contents(Remove(w, f, k, r), m) == Contents(w, m)
  {
    InvRemove(w, f, k, r);
    RemoveContents(w, f, k, r, f);
    RemoveContents(w, f, k, r, m);
    OutsideContents(Remove(w, f, k, r), w2, {m}, f);
    DestroyKeeps(w2, r);
  }

  lemma DisposedLeads(w: World, m: MapId, f: MapId, k: Key, r: Addr, w2: World, es: seq<Edit>)
    requires Inv(w) && f in w.maps && f != m && r !in w.handles && r in w2.handles && Leads(Remove(w, f, k, r), w2, m, es)
    ensures Leads(w, Destroy(w2, r), m, es)
  {
    RemoveLeads(w, f, k, r, m);
    LeadsInv(Remove(w, f, k, r), w2, m, es);
    DestroyLeads(w2, r, m);
    LeadsAround(w, Remove(w, f, k, r), w2, Destroy(w2, r), m, es);
  }

  /* The swap. */

  lemma SwapContents(w: World, m: MapId, f: MapId)
    requires Inv(w) && m in w.maps && w.maps[m].home == m && f !in w.maps
    ensures Contents(SwapOut(w, m, f), f) == Contents(w, m) && Contents(SwapOut(w, m, f), m) == map[]
  {
    MapRefines(w, OnMap(BeginClear(m, f)), m);
    MapRefines(w, OnMap(BeginClear(m, f)), f);
  }

  lemma RoundOutside(w: World, m: MapId, f: MapId, wn: World)
    requires Inv(w) && m in w.maps && f !in w.maps && Outside(SwapOut(w, m, f), wn, {m, f})
    requires forall k :: InImpl(f, k) !in wn.at
    ensures Outside(w, wn.(maps := wn.maps - {f}), {m})
  {
    var w1, w' := SwapOut(w, m, f), wn.(maps := wn.maps - {f});
    forall p: Place | p.InImpl? ==> p.m !in {m} ensures Agree(w, w', p) {
      if p.InImpl? && p.m == f {
        assert p !in w.at;
        assert InImpl(f, p.k) !in wn.at;
      } else {
        AgreeSwap(w, m, f, p);
        assert Agree(w1, wn, p);
        AgreeTrans(w, w1, wn, p);
      }
    }
  }

  lemma DropContents(w: World, f: MapId, m: MapId)
    requires forall k :: InImpl(f, k) !in w.at
    ensures Contents(w, f) == map[] && Contents(w.(maps := w.maps - {f}), m) == Contents(w, m)
  {
  }

  lemma SwapLeads(w: World, m: MapId, f: MapId)
    requires Inv(w) && m in w.maps && w.maps[m].home == m && f !in w.maps
    ensures Leads(w, SwapOut(w, m, f), m, [])
  {
    LeadsStep(w, OnMap(BeginClear(m, f)), m);
  }

  lemma EndLeads(w: World, f: MapId, m: MapId)
    requires Inv(w) && f in w.maps && w.maps[f].home != f && (forall k :: InImpl(f, k) !in w.at)
    ensures Leads(w, w.(maps := w.maps - {f}), m, [])
  {
    LeadsStep(w, OnMap(EndClear(f)), m);
  }

  lemma RoundLeads(w: World, m: MapId, f: MapId, wn: World, es: seq<Edit>)
    requires Inv(w) && m in w.maps && w.maps[m].home == m && f !in w.maps
    requires Leads(SwapOut(w, m, f), wn, m, es) && wn.maps == SwapOut(w, m, f).maps && (forall k :: InImpl(f, k) !in wn.at)
    ensures Leads(w, wn.(maps := wn.maps - {f}), m, es)
  {
    SwapLeads(w, m, f);
    LeadsInv(SwapOut(w, m, f), wn, m, es);
    EndLeads(wn, f, m);
    LeadsAround(w, SwapOut(w, m, f), wn, wn.(maps := wn.maps - {f}), m, es);
  }
}
