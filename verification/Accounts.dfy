/**
 Accounts of what goes into and comes out of a map while it is being cleared: every pair of a key
 and an object that was in the map, or put into it meanwhile, is disposed of or handed back once.
 */
module Accounts {
  import opened Cells
  import opened Handles
  import opened ValueMaps
  import opened Runs
  import opened PlainMaps
  import opened ClearSteps
  import opened Sequences

  /* What the embedder's `Dispose` does, over all its calls: any finite list of calls on the map. */

  datatype Reaction =
    | Put(k: Key, a: Address)  // Set(k, local)
    | Del(k: Key)              // Remove(k)
    | Again                    // Clear()
    | Done                     // this call of Dispose returns

  type Pair = (Key, ObjectId)

  ghost function Items(w: World, m: MapId): multiset<Pair> {
    multiset(Contents(w, m).Items)
  }

  // The script only puts objects that are live.
  predicate Live(script: seq<Reaction>, objects: map<Address, ObjectId>) {
    forall r :: r in script && r.Put? ==> r.a in objects
  }

  // The pairs that the script inserts.
  function Added(script: seq<Reaction>, objects: map<Address, ObjectId>): multiset<Pair>
    requires Live(script, objects)
  {
    if script == [] then multiset{}
    else
      assert script[0] in script;
      (if script[0].Put? then multiset{(script[0].k, objects[script[0].a])} else multiset{}) + Added(script[1..], objects)
  }

  // The keys that the script sets or removes.
  function Keys(script: seq<Reaction>): set<Key> {
    set r | r in script && (r.Put? || r.Del?) :: r.k
  }

  predicate Suffix(rest: seq<Reaction>, script: seq<Reaction>) {
    |rest| <= |script| && rest == script[|script| - |rest|..]
  }

  lemma SuffixOf(rest: seq<Reaction>, script: seq<Reaction>, objects: map<Address, ObjectId>)
    requires Suffix(rest, script) && Live(script, objects)
    ensures Live(rest, objects) && Keys(rest) <= Keys(script)
  {
  }

  lemma SuffixTrans(a: seq<Reaction>, b: seq<Reaction>, c: seq<Reaction>)
    requires Suffix(a, b) && Suffix(b, c)
    ensures Suffix(a, c)
  {
  }

  /* Calls of `Dispose`. */

  // The calls of `Dispose` that the script answers: each ends with a `Done`.
  function Calls(script: seq<Reaction>): nat {
    Count((r: Reaction) => r.Done?, script)
  }

  // `n` calls of `Dispose` took the script to `rest`. When a script has run out, further calls do nothing but let go of the value.
  ghost predicate Called(script: seq<Reaction>, rest: seq<Reaction>, n: nat) {
    Calls(script) - Calls(rest) <= n && (rest != [] ==> Calls(script) - Calls(rest) == n)
  }

  lemma CalledTrans(script: seq<Reaction>, rest1: seq<Reaction>, n1: nat, rest2: seq<Reaction>, n2: nat)
    requires Called(script, rest1, n1) && Called(rest1, rest2, n2) && Suffix(rest2, rest1)
    ensures Called(script, rest2, n1 + n2)
  {
  }

  /* Calls on the map from within `Dispose`. */

  function Request(r: Reaction): seq<Edit> {
    match r
    case Put(k, _) => [Sets(k)]
    case Del(k) => [Removes(k)]
    case _ => []
  }

  function Requests(script: seq<Reaction>): seq<Edit> {
    FlatMap(Request, script)
  }

  // What the script asked for on its way to `rest`.
  function Asked(script: seq<Reaction>, rest: seq<Reaction>): seq<Edit> {
    if |rest| >= |script| then [] else Requests(script[..|script| - |rest|])
  }

  lemma AskedTrans(script: seq<Reaction>, rest1: seq<Reaction>, rest2: seq<Reaction>)
    requires Suffix(rest1, script) && Suffix(rest2, rest1)
    ensures Asked(script, rest2) == Asked(script, rest1) + Asked(rest1, rest2)
  {
    var a, b := script[..|script| - |rest1|], rest1[..|rest1| - |rest2|];
    assert a + b == script[..|script| - |rest2|];
    FlatMapConcat(Request, a, b);
  }

  lemma AskedOne(script: seq<Reaction>)
    requires script != []
    ensures Suffix(script[1..], script) && Asked(script, script[1..]) == Request(script[0])
  {
    assert script[..1] == [script[0]];
    FlatMapOne(Request, script[0]);
  }

  /* Accounts. */

  // From `w` to `w'`, by handle and map operations only, with the calls on map `m` that the script asked for: what was
  // in the map or put into it is still in it, or was disposed of (`d`), or was handed back to the caller of `Set` or `Remove` (`b`).
  ghost predicate Accounted(w: World, m: MapId, script: seq<Reaction>, w': World, rest: seq<Reaction>,
                            d: multiset<Pair>, b: multiset<Pair>)
    requires Live(script, w.objects)
  {
    && Suffix(rest, script) && Leads(w, w', m, Asked(script, rest))
    && w'.maps == w.maps && Outside(w, w', {m})
    && (forall p :: p in b ==> p.0 in Keys(script))
    && (SuffixOf(rest, script, w.objects);
        d + b + (Items(w', m) + Added(rest, w.objects)) == Items(w, m) + Added(script, w.objects))
  }

  lemma Sums(d1: multiset<Pair>, b1: multiset<Pair>, d2: multiset<Pair>, b2: multiset<Pair>,
             x: multiset<Pair>, y: multiset<Pair>, z: multiset<Pair>)
    requires d1 + b1 + y == x && d2 + b2 + z == y
    ensures d1 + d2 + (b1 + b2) + z == x
  {
  }

  lemma AccountedTrans(w: World, m: MapId, script: seq<Reaction>, w1: World, rest1: seq<Reaction>, d1: multiset<Pair>, b1: multiset<Pair>,
                       w2: World, rest2: seq<Reaction>, d2: multiset<Pair>, b2: multiset<Pair>)
    requires Owned(w) && Live(script, w.objects) && Accounted(w, m, script, w1, rest1, d1, b1)
    requires Live(rest1, w1.objects) && Accounted(w1, m, rest1, w2, rest2, d2, b2)
    ensures Accounted(w, m, script, w2, rest2, d1 + d2, b1 + b2)
  {
    OutsideTrans(w, w1, w2, {m});
    AskedTrans(script, rest1, rest2);
    LeadsTrans(w, w1, w2, m, Asked(script, rest1), Asked(rest1, rest2));
    SuffixTrans(rest2, rest1, script);
    SuffixOf(rest1, script, w.objects);
    SuffixOf(rest2, rest1, w.objects);
    Sums(d1, b1, d2, b2, Items(w, m) + Added(script, w.objects), Items(w1, m) + Added(rest1, w.objects),
         Items(w2, m) + Added(rest2, w.objects));
  }

  lemma AccountedNone(w: World, m: MapId, script: seq<Reaction>)
    requires Inv(w) && Live(script, w.objects)
    ensures Accounted(w, m, script, w, script, multiset{}, multiset{})
  {
    LeadsNone(w, m);
  }

  lemma AccountedReturn(w: World, m: MapId, script: seq<Reaction>, w': World, rest: seq<Reaction>, d: multiset<Pair>, b: multiset<Pair>)
    requires Live(script, w.objects) && Accounted(w, m, script, w', rest, d, b) && rest != [] && rest[0].Done?
    ensures Accounted(w, m, script, w', rest[1..], d, b)
  {
    SuffixOf(rest, script, w.objects);
    AskedOne(rest);
    AskedTrans(script, rest, rest[1..]);
    assert Asked(script, rest) + [] == Asked(script, rest);
  }

  lemma ItemsDel(c: Plain, k: Key)
    ensures multiset((c - {k}).Items) + (if k in c then multiset{(k, c[k])} else multiset{}) == multiset(c.Items)
  {
    forall p ensures (multiset((c - {k}).Items) + (if k in c then multiset{(k, c[k])} else multiset{}))[p] == multiset(c.Items)[p]
    {
      assert p in (c - {k}).Items <==> p.0 in c - {k} && (c - {k})[p.0] == p.1;
      assert p in c.Items <==> p.0 in c && c[p.0] == p.1;
    }
  }

  lemma ItemsPut(c: Plain, k: Key, o: ObjectId)
    ensures multiset(c[k := o].Items) + (if k in c then multiset{(k, c[k])} else multiset{}) == multiset(c.Items) + multiset{(k, o)}
  {
    ItemsDel(c, k);
    ItemsDel(c[k := o], k);
    assert c[k := o] - {k} == c - {k};
  }

  /* One reaction. */

  // What replacing or removing the entry under `k` hands back.
  ghost function Back(w: World, m: MapId, k: Key): multiset<Pair> {
    if k in Contents(w, m) then multiset{(k, Contents(w, m)[k])} else multiset{}
  }

  lemma SumsOne(b: multiset<Pair>, x: multiset<Pair>, y: multiset<Pair>, added: multiset<Pair>, rest: multiset<Pair>)
    requires y + b == x + added
    ensures multiset{} + b + (y + rest) == x + (added + rest)
  {
    assert multiset{} + b + (y + rest) == (y + b) + rest;
  }

  lemma AccountedPut(w: World, m: MapId, script: seq<Reaction>, w': World)
    requires Live(script, w.objects) && script != [] && script[0].Put? && script[0].a in w.objects
    requires Leads(w, w', m, [Sets(script[0].k)]) && w'.maps == w.maps && Outside(w, w', {m})
    requires Contents(w', m) == Contents(w, m)[script[0].k := w.objects[script[0].a]]
    ensures Accounted(w, m, script, w', script[1..], multiset{}, Back(w, m, script[0].k))
  {
    assert script[0] in script;
    AskedOne(script);
    var added := multiset{(script[0].k, w.objects[script[0].a])};
    ItemsPut(Contents(w, m), script[0].k, w.objects[script[0].a]);
    SumsOne(Back(w, m, script[0].k), Items(w, m), Items(w', m), added, Added(script[1..], w.objects));
  }

  lemma AccountedDel(w: World, m: MapId, script: seq<Reaction>, w': World)
    requires Live(script, w.objects) && script != [] && script[0].Del?
    requires Leads(w, w', m, [Removes(script[0].k)]) && w'.maps == w.maps && Outside(w, w', {m})
    requires Contents(w', m) == Contents(w, m) - {script[0].k}
    ensures Accounted(w, m, script, w', script[1..], multiset{}, Back(w, m, script[0].k))
  {
    assert script[0] in script;
    AskedOne(script);
    ItemsDel(Contents(w, m), script[0].k);
    SumsOne(Back(w, m, script[0].k), Items(w, m), Items(w', m), multiset{}, Added(script[1..], w.objects));
  }

  lemma AccountedSkip(w: World, m: MapId, script: seq<Reaction>)
    requires Inv(w) && Live(script, w.objects) && script != [] && (script[0].Done? || script[0].Again?)
    ensures Accounted(w, m, script, w, script[1..], multiset{}, multiset{})
  {
    LeadsNone(w, m);
    AskedOne(script);
  }

  /* One entry of the local backing map. */

  // Like `Accounted`, while the entries being cleared are in the local backing map `f`.
  ghost predicate AccountedIn(w: World, m: MapId, f: MapId, script: seq<Reaction>, w': World, rest: seq<Reaction>,
                              d: multiset<Pair>, b: multiset<Pair>)
    requires Live(script, w.objects)
  {
    && Suffix(rest, script) && Leads(w, w', m, Asked(script, rest))
    && w'.maps == w.maps && Outside(w, w', {m, f})
    && (forall p :: p in b ==> p.0 in Keys(script))
    && (SuffixOf(rest, script, w.objects);
        d + b + (Items(w', f) + (Items(w', m) + Added(rest, w.objects))) == Items(w, f) + (Items(w, m) + Added(script, w.objects)))
  }

  lemma SumsDisposed(d: multiset<Pair>, b: multiset<Pair>, x: multiset<Pair>, f: multiset<Pair>, f': multiset<Pair>, y: multiset<Pair>, z: multiset<Pair>)
    requires d + b + z == y && f' + x == f
    ensures d + x + b + (f' + z) == f + y
  {
  }

  lemma DisposedAccounts(w: World, m: MapId, f: MapId, k: Key, script: seq<Reaction>, w1: World, w2: World, w': World, rest: seq<Reaction>,
                         d: multiset<Pair>, b: multiset<Pair>)
    requires Live(script, w.objects) && w1.objects == w.objects && w1.maps == w.maps && Accounted(w1, m, script, w2, rest, d, b)
    requires k in Contents(w, f) && Contents(w', f) == Contents(w, f) - {k}
    requires Contents(w1, m) == Contents(w, m) && Contents(w', m) == Contents(w2, m)
    requires Leads(w, w', m, Asked(script, rest)) && w'.maps == w2.maps && Outside(w, w', {m, f})
    ensures AccountedIn(w, m, f, script, w', rest, d + multiset{(k, Contents(w, f)[k])}, b)
  {
    SuffixOf(rest, script, w.objects);
    ItemsDel(Contents(w, f), k);
    SumsDisposed(d, b, multiset{(k, Contents(w, f)[k])}, Items(w, f), Items(w', f),
                 Items(w, m) + Added(script, w.objects), Items(w2, m) + Added(rest, w.objects));
  }

  lemma DisposedOne(w: World, m: MapId, f: MapId, k: Key, r: Addr, script: seq<Reaction>, w2: World, rest: seq<Reaction>,
                    d: multiset<Pair>, b: multiset<Pair>)
    requires Inv(w) && r !in w.handles && f in w.maps && m != f && k in Contents(w, f) && Live(script, w.objects) && Inv(w2)
    requires Remove(w, f, k, r).objects == w.objects && Accounted(Remove(w, f, k, r), m, script, w2, rest, d, b)
    ensures AccountedIn(w, m, f, script, Destroy(w2, r), rest, d + multiset{(k, Contents(w, f)[k])}, b)
    ensures Contents(Destroy(w2, r), f) == Contents(w, f) - {k} && Contents(Destroy(w2, r), m) == Contents(w2, m)
  {
    DisposedLeads(w, m, f, k, r, w2, Asked(script, rest));
    DisposedOutside(w, m, f, k, r, w2);
    DisposedContents(w, m, f, k, r, w2);
    DisposedAccounts(w, m, f, k, script, Remove(w, f, k, r), w2, Destroy(w2, r), rest, d, b);
  }

  lemma AccountedInNone(w: World, m: MapId, f: MapId, script: seq<Reaction>)
    requires Inv(w) && Live(script, w.objects)
    ensures AccountedIn(w, m, f, script, w, script, multiset{}, multiset{})
  {
    LeadsNone(w, m);
  }

  lemma AccountedInTrans(w: World, m: MapId, f: MapId, script: seq<Reaction>, w1: World, rest1: seq<Reaction>, d1: multiset<Pair>, b1: multiset<Pair>,
                         w2: World, rest2: seq<Reaction>, d2: multiset<Pair>, b2: multiset<Pair>)
    requires Owned(w) && Live(script, w.objects) && AccountedIn(w, m, f, script, w1, rest1, d1, b1)
    requires Live(rest1, w1.objects) && AccountedIn(w1, m, f, rest1, w2, rest2, d2, b2)
    ensures AccountedIn(w, m, f, script, w2, rest2, d1 + d2, b1 + b2)
  {
    OutsideTrans(w, w1, w2, {m, f});
    AskedTrans(script, rest1, rest2);
    LeadsTrans(w, w1, w2, m, Asked(script, rest1), Asked(rest1, rest2));
    SuffixTrans(rest2, rest1, script);
    SuffixOf(rest1, script, w.objects);
    SuffixOf(rest2, rest1, w.objects);
    Sums(d1, b1, d2, b2, Items(w, f) + (Items(w, m) + Added(script, w.objects)), Items(w1, f) + (Items(w1, m) + Added(rest1, w.objects)),
         Items(w2, f) + (Items(w2, m) + Added(rest2, w.objects)));
  }

  /* One round of `Clear`: swap, dispose of all entries, drop the local backing map. */

  lemma RoundAccounts(w: World, m: MapId, f: MapId, script: seq<Reaction>, w1: World, wn: World, w': World, rest: seq<Reaction>,
                      d: multiset<Pair>, b: multiset<Pair>)
    requires Live(script, w.objects) && w1.objects == w.objects && AccountedIn(w1, m, f, script, wn, rest, d, b)
    requires Contents(w1, f) == Contents(w, m) && Contents(w1, m) == map[]
    requires Contents(wn, f) == map[] && Contents(w', m) == Contents(wn, m)
    requires Leads(w, w', m, Asked(script, rest)) && w'.maps == w.maps && Outside(w, w', {m})
    ensures Accounted(w, m, script, w', rest, d, b)
  {
    SuffixOf(rest, script, w.objects);
    SumsRound(d, b, Items(wn, m) + Added(rest, w.objects), Items(w, m), Added(script, w.objects));
  }

  lemma PutAndDrop(maps: map<MapId, MapInfo>, f: MapId, info: MapInfo)
    requires f !in maps
    ensures maps[f := info] - {f} == maps
  {
  }

  lemma SumsRound(d: multiset<Pair>, b: multiset<Pair>, x: multiset<Pair>, y: multiset<Pair>, z: multiset<Pair>)
    requires d + b + (multiset{} + x) == y + (multiset{} + z)
    ensures d + b + x == y + z
  {
    assert multiset{} + x == x && multiset{} + z == z;
  }

  lemma RoundDone(w: World, m: MapId, f: MapId, script: seq<Reaction>, wn: World, rest: seq<Reaction>, d: multiset<Pair>, b: multiset<Pair>)
    requires Inv(w) && m in w.maps && w.maps[m].home == m && f !in w.maps && Live(script, w.objects)
    requires AccountedIn(SwapOut(w, m, f), m, f, script, wn, rest, d, b)
    requires forall k :: InImpl(f, k) !in wn.at
    ensures Accounted(w, m, script, wn.(maps := wn.maps - {f}), rest, d, b)
    ensures Contents(wn.(maps := wn.maps - {f}), m) == Contents(wn, m)
  {
    var w' := wn.(maps := wn.maps - {f});
    var w1 := SwapOut(w, m, f);
    assert Outside(w, w', {m}) by {
      RoundOutside(w, m, f, wn);
    }
    assert Contents(w1, f) == Contents(w, m) && Contents(w1, m) == map[] by {
      SwapContents(w, m, f);
    }
    DropContents(wn, f, m);
    RoundLeads(w, m, f, wn, Asked(script, rest));
    PutAndDrop(w.maps, f, w.maps[m]);
    RoundAccounts(w, m, f, script, w1, wn, w', rest, d, b);
  }

  /**
   When the map has been cleared, an entry under a key that `Dispose` did not set or remove has been
   disposed of exactly once, with its own key and object, and nothing else under that key was.
   */
  lemma DisposedExactlyOnce(w: World, m: MapId, script: seq<Reaction>, w': World, rest: seq<Reaction>, d: multiset<Pair>, b: multiset<Pair>,
                            k: Key, o: ObjectId)
    requires Live(script, w.objects) && Accounted(w, m, script, w', rest, d, b) && Contents(w', m) == map[] && k !in Keys(script)
    ensures d[(k, o)] == if k in Contents(w, m) && Contents(w, m)[k] == o then 1 else 0
  {
    SuffixOf(rest, script, w.objects);
    AddedKeys(script, w.objects, (k, o));
    AddedKeys(rest, w.objects, (k, o));
    assert (k, o) !in b;
    assert (k, o) in Contents(w, m).Items <==> k in Contents(w, m) && Contents(w, m)[k] == o;
    assert (d + b + (Items(w', m) + Added(rest, w.objects)))[(k, o)] == (Items(w, m) + Added(script, w.objects))[(k, o)];
  }

  lemma {:induction false} AddedKeys(script: seq<Reaction>, objects: map<Address, ObjectId>, p: Pair)
    requires Live(script, objects) && p.0 !in Keys(script)
    ensures p !in Added(script, objects)
  {
    if script != [] {
      assert script[0] in script;
      AddedKeys(script[1..], objects, p);
    }
  }

  /**
   While the script lasts, `Dispose` is called once for each entry that was in the map or was put into
   it, less those handed back.
   */
  lemma OneCallEach(w: World, m: MapId, script: seq<Reaction>, w': World, rest: seq<Reaction>, d: multiset<Pair>, b: multiset<Pair>)
    requires Live(script, w.objects) && Accounted(w, m, script, w', rest, d, b) && Contents(w', m) == map[]
    requires Called(script, rest, |d|) && rest != []
    ensures Live(rest, w.objects)
    ensures Calls(script) - Calls(rest) + |b| + |Added(rest, w.objects)| == |Contents(w, m)| + |Added(script, w.objects)|
  {
    SuffixOf(rest, script, w.objects);
    assert Items(w', m) == multiset{};
    ItemsCount(Contents(w, m));
    assert |d + b + (Items(w', m) + Added(rest, w.objects))| == |d| + |b| + |Added(rest, w.objects)|;
  }

  lemma {:induction false} ItemsCount(c: Plain)
    ensures |multiset(c.Items)| == |c|
    decreases |c|
  {
    if c == map[] {
      assert c.Items == {};
    } else {
      var k :| k in c;
      ItemsCount(c - {k});
      ItemsDel(c, k);
      assert (c - {k}).Keys == c.Keys - {k};
    }
  }

  /** When nothing was handed back, exactly the entries of the map and those put into it have been disposed of, each once. */
  lemma AllDisposed(w: World, m: MapId, script: seq<Reaction>, w': World, rest: seq<Reaction>, d: multiset<Pair>, b: multiset<Pair>)
    requires Live(script, w.objects) && Accounted(w, m, script, w', rest, d, b) && Contents(w', m) == map[]
    requires b == multiset{} && rest == []
    ensures d == Items(w, m) + Added(script, w.objects)
  {
  }
}
