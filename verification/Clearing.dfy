/**
 `Clear`, with a `Dispose` that calls back into the map while it is being cleared.
 */
module Clearing {
  import opened Cells
  import opened Handles
  import opened ValueMaps
  import opened Runs
  import opened PlainMaps
  import opened Memory
  import opened Engine
  import opened ClearSteps
  import opened Accounts
  import opened ClearedData
  import opened Reading

  ghost predicate Home(w: World, m: MapId) {
    m in w.maps && w.maps[m].home == m
  }

  lemma KindsConstruct(w: World, h: Addr, a: Address, l: Loc)
    requires Owned(w) && Kinds(w) && h !in w.handles && Available(w, l)
    ensures Kinds(ResetTo(NewHandle(w, h), h, Some(a), l))
  {
  }

  // A new handle for the Local.
  method MakePersistent(e: Engine, a: Address) returns (h: Addr, ghost l: Loc)
    requires e.Valid() && Kinds(e.w)
    modifies e
    ensures e.Valid() && Kinds(e.w) && h !in old(e.w).handles && Available(old(e.w), l)
    ensures e.w == ResetTo(NewHandle(old(e.w), h), h, Some(a), l)
  {
    h := e.NewEmpty();
    l := e.ResetTo(h, Some(a));
    KindsConstruct(old(e.w), h, a, l);
  }

  // The new handle can be put into the map.
  lemma PersistentSettable(v: Mem, w: World, m: MapId, h: Addr, a: Address, l: Loc)
    requires Mirrors(v, ResetTo(NewHandle(w, h), h, Some(a), l)) && l != Null && m in v.impls && v.impls[m].info.home == m
    ensures h in v.slots && Settable(v, m, h)
  {
    assert InHandle(h) in ResetTo(NewHandle(w, h), h, Some(a), l).at;
  }

  // `Set(key, Local)`, by a caller who drops the result.
  method SetAndDrop(e: Engine, m: MapId, k: Key, a: Address)
    returns (ghost h: Addr, ghost l: Loc, ghost d: DataId, ghost r: Addr, ghost w1: World, ghost w2: World)
    requires e.Valid() && Kinds(e.w) && Home(e.w, m) && a in e.w.objects
    modifies e
    ensures PutSteps(old(e.w), m, k, a, h, l, d, r, w1, w2)
    ensures e.Valid() && e.w == Destroy(Destroy(w2, h), r)
  {
    var persistent;
    persistent, l := MakePersistent(e, a);
    h, d, w1 := persistent, e.nextData, e.w;
    PersistentSettable(e.V(), old(e.w), m, h, a, l);
    var res := e.SetUnique(m, k, persistent);
    r, w2 := res, e.w;
    DropBoth(e, persistent, res);
  }

  method DropBoth(e: Engine, h: Addr, r: Addr)
    requires e.Valid() && h in e.w.handles && r in e.w.handles && h != r
    modifies e
    ensures e.Valid() && e.w == Destroy(Destroy(old(e.w), h), r)
  {
    e.Destroy(h);
    e.Destroy(r);
  }

  // `Remove(key)`, by a caller who drops the result.
  method RemoveAndDrop(e: Engine, m: MapId, k: Key) returns (ghost r: Addr)
    requires e.Valid() && Kinds(e.w) && m in e.impls
    modifies e
    ensures r !in old(e.w).handles && e.Valid() && e.w == Destroy(Remove(old(e.w), m, k, r), r)
  {
    var res := e.Remove(m, k);
    r := res;
    assert res in e.slots;
    e.Destroy(res);
  }

  /* The swap. */

  function SwappedImpls(impls: map<MapId, Impl>, m: MapId, f: MapId): map<MapId, Impl>
    requires m in impls
  {
    impls[f := impls[m]][m := impls[m].(entries := map[])]
  }

  lemma ImplsSwap(impls: map<MapId, Impl>, maps: map<MapId, MapInfo>, at: map<Place, Loc>, at': map<Place, Loc>, m: MapId, f: MapId)
    requires ImplsRep(impls, maps, at) && m in impls && f !in impls
    requires forall x, k {:trigger InImpl(x, k)} :: SwappedAt(at, at', m, f, InImpl(x, k))
    ensures ImplsRep(SwappedImpls(impls, m, f), maps[f := maps[m]], at')
  {
  }

  lemma SlotsSwap(slots: map<Addr, Loc>, w: World, m: MapId, f: MapId)
    requires SlotsRep(slots, w.handles, w.at) && Owned(w) && m in w.maps && f !in w.maps
    ensures SlotsRep(slots, w.handles, SwapOut(w, m, f).at)
  {
  }

  lemma MirrorsSwap(v: Mem, w: World, m: MapId, f: MapId)
    requires Mirrors(v, w) && m in v.impls && f !in v.impls
    ensures Mirrors(v.(impls := SwappedImpls(v.impls, m, f)), SwapOut(w, m, f))
  {
    forall x, k ensures SwappedAt(w.at, SwapOut(w, m, f).at, m, f, InImpl(x, k)) {
      SwapOutAt(w, m, f, InImpl(x, k));
    }
    ImplsSwap(v.impls, w.maps, w.at, SwapOut(w, m, f).at, m, f);
    SlotsSwap(v.slots, w, m, f);
    OwnedSwapOut(w, m, f);
  }

  // `Traits::Swap(impl_, impl)` with a new local backing map.
  method Swap(e: Engine, m: MapId) returns (f: MapId)
    requires e.Valid() && m in e.impls
    modifies e
    ensures f !in old(e.impls) && e.Valid() && e.w == SwapOut(old(e.w), m, f)
  {
    FreshNat(e.impls.Keys, 0);
    f :| f >= 0 && f !in e.impls;
    MirrorsSwap(e.V(), e.w, m, f);
    e.impls := SwappedImpls(e.impls, m, f);
    e.w := SwapOut(e.w, m, f);
  }

  // The local backing map goes out of scope, with no entry left to release.
  method DropImpl(e: Engine, f: MapId)
    requires e.Valid() && f in e.impls && e.impls[f].entries == map[]
    modifies e
    ensures e.Valid() && e.w == old(e.w).(maps := old(e.w).maps - {f})
    ensures forall k :: InImpl(f, k) !in e.w.at
  {
    MirrorsDrop(e.V(), e.w, f);
    e.impls := e.impls - {f};
    e.w := e.w.(maps := e.w.maps - {f});
  }

  lemma MirrorsDrop(v: Mem, w: World, f: MapId)
    requires Mirrors(v, w) && f in v.impls && v.impls[f].entries == map[]
    ensures Mirrors(v.(impls := v.impls - {f}), w.(maps := w.maps - {f}))
    ensures forall k :: InImpl(f, k) !in w.at
  {
    forall k ensures InImpl(f, k) !in w.at {
    }
    OwnedFrame(w, w.(maps := w.maps - {f}));
  }

  /* The embedder's reactions. */

  method ReactPut(e: Engine, m: MapId, script: seq<Reaction>) returns (ghost b: multiset<Pair>)
    requires e.Valid() && Inv(e.w) && Home(e.w, m) && Live(script, e.w.objects) && script != [] && script[0].Put?
    modifies e
    ensures e.Valid() && Inv(e.w) && Accounted(old(e.w), m, script, e.w, script[1..], multiset{}, b)
  {
    ghost var w := e.w;
    assert script[0] in script;
    ghost var h, l, d, r, w1, w2 := SetAndDrop(e, m, script[0].k, script[0].a);
    b := PutAccounted(w, m, script, h, l, d, r, w1, w2);
  }

  lemma PutAccounted(w: World, m: MapId, script: seq<Reaction>, h: Addr, l: Loc, d: DataId, r: Addr, w1: World, w2: World)
    returns (b: multiset<Pair>)
    requires Inv(w) && Live(script, w.objects) && script != [] && script[0].Put?
    requires PutSteps(w, m, script[0].k, script[0].a, h, l, d, r, w1, w2)
    ensures Inv(Destroy(Destroy(w2, h), r))
    ensures Accounted(w, m, script, Destroy(Destroy(w2, h), r), script[1..], multiset{}, b)
  {
    PutKeeps(w, m, script[0].k, script[0].a, h, l, d, r, w1, w2);
    PutOutside(w, m, script[0].k, script[0].a, h, l, d, r, w1, w2);
    PutLeads(w, m, script[0].k, script[0].a, h, l, d, r, w1, w2);
    b := Back(w, m, script[0].k);
    AccountedPut(w, m, script, Destroy(Destroy(w2, h), r));
  }

  method ReactDel(e: Engine, m: MapId, script: seq<Reaction>) returns (ghost b: multiset<Pair>)
    requires e.Valid() && Inv(e.w) && Home(e.w, m) && Live(script, e.w.objects) && script != [] && script[0].Del?
    modifies e
    ensures e.Valid() && Inv(e.w) && Accounted(old(e.w), m, script, e.w, script[1..], multiset{}, b)
  {
    ghost var w := e.w;
    ghost var r := RemoveAndDrop(e, m, script[0].k);
    b := DelAccounted(w, m, script, r);
  }

  lemma DelAccounted(w: World, m: MapId, script: seq<Reaction>, r: Addr) returns (b: multiset<Pair>)
    requires Inv(w) && m in w.maps && r !in w.handles && Live(script, w.objects) && script != [] && script[0].Del?
    ensures Inv(Destroy(Remove(w, m, script[0].k, r), r))
    ensures Accounted(w, m, script, Destroy(Remove(w, m, script[0].k, r), r), script[1..], multiset{}, b)
  {
    DelInv(w, m, script[0].k, r);
    DelKeeps(w, m, script[0].k, r);
    DelContents(w, m, script[0].k, r);
    DelLeads(w, m, script[0].k, r);
    b := Back(w, m, script[0].k);
    AccountedDel(w, m, script, Destroy(Remove(w, m, script[0].k, r), r));
  }

  // One call the embedder makes on the map from within `Dispose`.
  method ReactOne(e: Engine, m: MapId, script: seq<Reaction>) returns (rest: seq<Reaction>, ghost d: multiset<Pair>, ghost b: multiset<Pair>)
    requires e.Valid() && Inv(e.w) && Home(e.w, m) && Live(script, e.w.objects) && script != [] && !script[0].Done?
    modifies e
    ensures e.Valid() && Inv(e.w) && Accounted(old(e.w), m, script, e.w, rest, d, b) && |rest| < |script| && Called(script, rest, |d|)
    ensures script[0].Again? ==> Contents(e.w, m) == map[]
    decreases |script|, 0
  {
    rest, d := script[1..], multiset{};
    match script[0]
    case Put(_, _) => b := ReactPut(e, m, script);
    case Del(_) => b := ReactDel(e, m, script);
    case Again =>
      ghost var w := e.w;
      AccountedSkip(w, m, script);
      SuffixOf(script[1..], script, w.objects);
      rest, d, b := Clear(e, m, script[1..]);
      AccountedTrans(w, m, script, w, script[1..], multiset{}, multiset{}, e.w, rest, d, b);
      assert multiset{} + d == d && multiset{} + b == b;
  }

  // All that one call of `Dispose` does before it lets its value go.
  method React(e: Engine, m: MapId, script: seq<Reaction>) returns (rest: seq<Reaction>, ghost d: multiset<Pair>, ghost b: multiset<Pair>)
    requires e.Valid() && Inv(e.w) && Home(e.w, m) && Live(script, e.w.objects)
    modifies e
    ensures e.Valid() && Inv(e.w) && Accounted(old(e.w), m, script, e.w, rest, d, b) && Called(script, rest, |d| + 1)
    ensures |rest| == |script| ==> e.w == old(e.w)
    decreases |script|, 1
  {
    ghost var w := e.w;
    d, b, rest := multiset{}, multiset{}, script;
    AccountedNone(w, m, script);
    while rest != [] && !rest[0].Done?
      invariant e.Valid() && Inv(e.w) && Home(e.w, m) && Live(rest, e.w.objects)
      invariant Accounted(w, m, script, e.w, rest, d, b) && Called(script, rest, |d|)
      invariant |rest| == |script| ==> e.w == w
      decreases |rest|
    {
      ghost var w1, rest1, d1, b1 := e.w, rest, d, b;
      ghost var d2, b2;
      rest, d2, b2 := ReactOne(e, m, rest);
      AccountedTrans(w, m, script, w1, rest1, d1, b1, e.w, rest, d2, b2);
      CalledTrans(script, rest1, |d1|, rest, |d2|);
      SuffixOf(rest, rest1, w1.objects);
      d, b := d + d2, b + b2;
    }
    if rest != [] {
      AccountedReturn(w, m, script, e.w, rest, d, b);
      rest := rest[1..];
    }
  }

  // The body of the inner loop. What is left in `f` is the part the iterator has not passed.
  method DisposeNext(e: Engine, m: MapId, f: MapId, script: seq<Reaction>)
    returns (rest: seq<Reaction>, ghost d: multiset<Pair>, ghost b: multiset<Pair>)
    requires e.Valid() && Inv(e.w) && Home(e.w, m) && Live(script, e.w.objects)
    requires f in e.impls && f != m && e.impls[f].entries != map[]
    modifies e
    ensures e.Valid() && Inv(e.w) && AccountedIn(old(e.w), m, f, script, e.w, rest, d, b) && Called(script, rest, |d|)
    ensures |Contents(e.w, f)| < |Contents(old(e.w), f)|
    ensures |rest| == |script| ==> Contents(e.w, m) == Contents(old(e.w), m)
    decreases |script|, 2
  {
    ghost var w := e.w;
    EntriesAre(e.V(), w, f);
    var k :| k in e.impls[f].entries;
    var value := e.Remove(f, k);
    InvRemove(w, f, k, value);
    rest, d, b := React(e, m, script);
    ghost var w2 := e.w;
    e.Destroy(value);
    DisposedAll(w, m, f, k, value, script, w2, rest, d, b);
    d := d + multiset{(k, Contents(w, f)[k])};
  }

  lemma DisposedAll(w: World, m: MapId, f: MapId, k: Key, r: Addr, script: seq<Reaction>, w2: World, rest: seq<Reaction>,
                    d: multiset<Pair>, b: multiset<Pair>)
    requires Inv(w) && r !in w.handles && f in w.maps && m != f && k in Contents(w, f) && Live(script, w.objects) && Inv(w2)
    requires Remove(w, f, k, r).objects == w.objects && Accounted(Remove(w, f, k, r), m, script, w2, rest, d, b)
    ensures Inv(Destroy(w2, r))
    ensures AccountedIn(w, m, f, script, Destroy(w2, r), rest, d + multiset{(k, Contents(w, f)[k])}, b)
    ensures |Contents(Destroy(w2, r), f)| < |Contents(w, f)|
    ensures w2 == Remove(w, f, k, r) ==> Contents(Destroy(w2, r), m) == Contents(w, m)
  {
    DisposedOne(w, m, f, k, r, script, w2, rest, d, b);
    assert w2 == Remove(w, f, k, r) ==> Contents(w2, m) == Contents(w, m) by {
      RemoveContents(w, f, k, r, m);
    }
    InvDestroy(w2, r);
    FewerKeys(Contents(w, f), k);
  }

  lemma FewerKeys(c: Plain, k: Key)
    requires k in c
    ensures |c - {k}| < |c|
  {
  }

  // One round of the outer loop.
  method Round(e: Engine, m: MapId, script: seq<Reaction>) returns (rest: seq<Reaction>, ghost d: multiset<Pair>, ghost b: multiset<Pair>)
    requires e.Valid() && Inv(e.w) && Home(e.w, m) && Live(script, e.w.objects)
    modifies e
    ensures e.Valid() && Inv(e.w) && Accounted(old(e.w), m, script, e.w, rest, d, b) && Called(script, rest, |d|)
    ensures |rest| == |script| ==> e.impls[m].entries == map[]
    decreases |script|, 4
  {
    ghost var w := e.w;
    var f := Swap(e, m);
    ghost var w1 := e.w;
    InvSwapOut(w, m, f);
    SwapContents(w, m, f);
    rest, d, b := DisposeEach(e, m, f, script);
    ghost var wn := e.w;
    DropImpl(e, f);
    InvDropped(wn, f);
    RoundDone(w, m, f, script, wn, rest, d, b);
    EmptyContents(e.V(), e.w, m);
  }

  lemma InvDropped(w: World, f: MapId)
    requires Inv(w) && (forall k :: InImpl(f, k) !in w.at)
    ensures Inv(w.(maps := w.maps - {f}))
  {
    InvFrame(w, w.(maps := w.maps - {f}));
  }

  // The inner loop.
  method DisposeEach(e: Engine, m: MapId, f: MapId, script: seq<Reaction>)
    returns (rest: seq<Reaction>, ghost d: multiset<Pair>, ghost b: multiset<Pair>)
    requires e.Valid() && Inv(e.w) && Home(e.w, m) && Live(script, e.w.objects) && f in e.impls && f != m
    modifies e
    ensures e.Valid() && Inv(e.w) && AccountedIn(old(e.w), m, f, script, e.w, rest, d, b) && Called(script, rest, |d|)
    ensures f in e.impls && e.impls[f].entries == map[]
    ensures |rest| == |script| ==> Contents(e.w, m) == Contents(old(e.w), m)
    decreases |script|, 3
  {
    ghost var w := e.w;
    d, b, rest := multiset{}, multiset{}, script;
    AccountedInNone(w, m, f, script);
    while e.impls[f].entries != map[]
      invariant e.Valid() && Inv(e.w) && Live(rest, e.w.objects)
      invariant AccountedIn(w, m, f, script, e.w, rest, d, b) && Called(script, rest, |d|)
      invariant |rest| == |script| ==> Contents(e.w, m) == Contents(w, m)
      decreases |Contents(e.w, f)|
    {
      ghost var w1, rest1, d1, b1 := e.w, rest, d, b;
      ghost var d2, b2;
      rest, d2, b2 := DisposeNext(e, m, f, rest);
      AccountedInTrans(w, m, f, script, w1, rest1, d1, b1, e.w, rest, d2, b2);
      CalledTrans(script, rest1, |d1|, rest, |d2|);
      SuffixOf(rest, rest1, w1.objects);
      d, b := d + d2, b + b2;
    }
  }

  method Clear(e: Engine, m: MapId, script: seq<Reaction>) returns (rest: seq<Reaction>, ghost d: multiset<Pair>, ghost b: multiset<Pair>)
    requires e.Valid() && Inv(e.w) && Home(e.w, m) && Live(script, e.w.objects)
    modifies e
    ensures e.Valid() && Inv(e.w) && Accounted(old(e.w), m, script, e.w, rest, d, b) && Called(script, rest, |d|)
    ensures e.impls[m].entries == map[] && Contents(e.w, m) == map[]
    ensures forall x :: AfterClear(old(e.w), e.w, m, x)
    decreases |script|, 5
  {
    ghost var w := e.w;
    d, b, rest := multiset{}, multiset{}, script;
    AccountedNone(w, m, script);
    while e.impls[m].entries != map[]
      invariant e.Valid() && Inv(e.w) && Home(e.w, m) && Live(rest, e.w.objects)
      invariant Accounted(w, m, script, e.w, rest, d, b) && Called(script, rest, |d|)
      decreases |rest|, |e.impls[m].entries|
    {
      ghost var w1, rest1, d1, b1 := e.w, rest, d, b;
      ghost var d2, b2;
      rest, d2, b2 := Round(e, m, rest);
      AccountedTrans(w, m, script, w1, rest1, d1, b1, e.w, rest, d2, b2);
      CalledTrans(script, rest1, |d1|, rest, |d2|);
      SuffixOf(rest, rest1, w1.objects);
      d, b := d + d2, b + b2;
    }
    EmptyContents(e.V(), e.w, m);
    ClearDisposes(w, e.w, m, Asked(script, rest));
  }

  /** The destructor of a map: everything in it is disposed of, and the map is gone. */
  method DestroyMap(e: Engine, m: MapId, script: seq<Reaction>) returns (rest: seq<Reaction>, ghost d: multiset<Pair>, ghost b: multiset<Pair>)
    requires e.Valid() && Inv(e.w) && AtRest(e.w, m) && Live(script, e.w.objects)
    modifies e
    ensures e.Valid() && Inv(e.w) && m !in e.impls && e.w.maps == old(e.w).maps - {m} && Called(script, rest, |d|)
    ensures Suffix(rest, script) && Leads(old(e.w), e.w, m, Asked(script, rest)) && forall x :: AfterClear(old(e.w), e.w, m, x)
    ensures exists w1 :: Accounted(old(e.w), m, script, w1, rest, d, b) && Contents(w1, m) == map[] && e.w == w1.(maps := e.w.maps)
  {
    ghost var w := e.w;
    rest, d, b := Clear(e, m, script);
    ghost var w1 := e.w;
    DropImpl(e, m);
    DropLeads(w, w1, m, Asked(script, rest));
  }

  lemma DropStep(w: World, m: MapId)
    requires Inv(w) && AtRest(w, m) && (forall k :: InImpl(m, k) !in w.at)
    ensures Leads(w, w.(maps := w.maps - {m}), m, []) && Inv(w.(maps := w.maps - {m}))
  {
    LeadsStep(w, OnMap(DropMap(m)), m);
  }

  lemma DropLeads(w: World, w1: World, m: MapId, es: seq<Edit>)
    requires Leads(w, w1, m, es) && AtRest(w1, m) && (forall k :: InImpl(m, k) !in w1.at) && (forall x :: AfterClear(w, w1, m, x))
    ensures var w' := w1.(maps := w1.maps - {m}); Leads(w, w', m, es) && Inv(w') && forall x :: AfterClear(w, w', m, x)
  {
    LeadsInv(w, w1, m, es);
    DropStep(w1, m);
    var w' := w1.(maps := w1.maps - {m});
    LeadsTrans(w, w1, w', m, es, []);
    assert es + [] == es;
    forall x ensures AfterClear(w, w', m, x) {
      assert AfterClear(w, w1, m, x);
    }
  }
}
