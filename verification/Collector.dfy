/**
 A garbage collection as the code runs it: dead weak nodes are reset or queued, survivors move,
 and the first-pass callbacks of the value maps run one after the other.
 */
module Collector {
  import opened Cells
  import opened Collection
  import opened Memory
  import opened Sweep
  import opened Engine

  /* The list of pending callbacks: nodes with their callback data. */

  function Firsts(pending: seq<(Loc, DataId)>): set<Loc> {
    set p | p in pending :: p.0
  }

  ghost predicate Distinct(pending: seq<(Loc, DataId)>) {
    forall i, j :: 0 <= i < j < |pending| ==> pending[i].0 != pending[j].0
  }

  // `pending` lists the dead weak nodes in `done`, each once, with its callback data.
  ghost predicate Lists(v: Mem, dead: set<Address>, done: set<Loc>, pending: seq<(Loc, DataId)>) {
    && Distinct(pending)
    && Firsts(pending) == (set l | l in done && WeakDies(v, dead, l))
    && (forall p :: p in pending ==> WeakDies(v, dead, p.0) && p.1 == v.nodes[p.0].param)
  }

  lemma ListsWeak(v: Mem, dead: set<Address>, done: set<Loc>, pending: seq<(Loc, DataId)>, l: Loc)
    requires Lists(v, dead, done, pending) && l !in done && WeakDies(v, dead, l)
    ensures Lists(v, dead, done + {l}, pending + [(l, v.nodes[l].param)])
  {
    forall i | 0 <= i < |pending| ensures pending[i].0 != l {
      assert pending[i] in pending;
      assert pending[i].0 in Firsts(pending);
    }
    var p := (l, v.nodes[l].param);
    forall x | x in Firsts(pending) + {l} ensures x in Firsts(pending + [p]) {
      if x == l {
        assert p in pending + [p];
      } else {
        var q :| q in pending && q.0 == x;
        assert q in pending + [p];
      }
    }
    assert Firsts(pending + [p]) == Firsts(pending) + {l};
  }

  lemma NextPending(pending: seq<(Loc, DataId)>, i: nat)
    requires Distinct(pending) && i < |pending|
    ensures pending[i].0 in Firsts(pending[i..])
    ensures Firsts(pending[i + 1..]) == Firsts(pending[i..]) - {pending[i].0}
  {
  }

  method IterateWeakRootsForPhantomHandles(e: Engine, dead: set<Address>) returns (pending: seq<(Loc, DataId)>)
    requires BackPointers(e.V()) && forall l :: l in e.nodes && e.nodes[l].Phantom? ==> e.nodes[l].back in e.slots
    modifies e`nodes, e`slots
    ensures e.nodes == MarkedNodes(old(e.V()), dead, old(e.nodes).Keys)
    ensures e.slots == MarkedSlots(old(e.V()), dead, old(e.nodes).Keys)
    ensures Lists(old(e.V()), dead, old(e.nodes).Keys, pending)
  {
    ghost var v := e.V();
    ghost var done: set<Loc> := {};
    var todo := e.nodes.Keys;
    pending := [];
    while todo != {}
      invariant todo !! done && todo + done == v.nodes.Keys
      invariant e.nodes == MarkedNodes(v, dead, done) && e.slots == MarkedSlots(v, dead, done)
      invariant Lists(v, dead, done, pending)
      decreases todo
    {
      var l :| l in todo;
      pending := ResetWeakNodeIfDead(e, dead, l, pending, v, done);
      todo := todo - {l};
      done := done + {l};
    }
  }

  method ResetWeakNodeIfDead(e: Engine, dead: set<Address>, l: Loc, pending0: seq<(Loc, DataId)>, ghost v: Mem, ghost done: set<Loc>)
    returns (pending: seq<(Loc, DataId)>)
    requires BackPointers(v) && forall l :: l in v.nodes && v.nodes[l].Phantom? ==> v.nodes[l].back in v.slots
    requires l in v.nodes && l !in done
    requires e.nodes == MarkedNodes(v, dead, done) && e.slots == MarkedSlots(v, dead, done) && Lists(v, dead, done, pending0)
    modifies e`nodes, e`slots
    ensures e.nodes == MarkedNodes(v, dead, done + {l}) && e.slots == MarkedSlots(v, dead, done + {l})
    ensures Lists(v, dead, done + {l}, pending)
  {
    pending := pending0;
    var n := e.nodes[l];
    if n.Phantom? && n.obj in dead {
      MarkPhantom(v, dead, done, l);
      e.slots := e.slots[n.back := Null];
      e.nodes := e.nodes - {l};
    } else if n.Weak? && n.obj in dead {
      MarkWeak(v, dead, done, l);
      ListsWeak(v, dead, done, pending0, l);
      pending := pending + [(l, n.param)];
      e.nodes := e.nodes[l := NearDeath(n.param)];
    } else {
      MarkOther(v, dead, done, l);
    }
  }

  /* First-pass callbacks. */

  // `Traits::Dispose` is handed the value, and lets it go.
  method DropValue(e: Engine, r: Addr)
    requires r in e.slots && (e.slots[r] != Null ==> e.slots[r] in e.nodes)
    modifies e`nodes, e`slots
    ensures e.slots == old(e.slots) - {r} && e.nodes == old(e.nodes) - {old(e.slots)[r]}
    requires Null !in e.nodes
  {
    if e.slots[r] != Null {
      e.DisposeGlobal(e.slots[r]);
    }
    e.slots := e.slots - {r};
  }

  // The entry that callback data `d` names, and the node in it.
  ghost predicate Names(v: Mem, d: DataId, l: Loc) {
    d in v.data && var m, k := v.data[d].home, v.data[d].key;
    && m in v.impls && k in v.impls[m].entries && v.impls[m].entries[k] == l && v.impls[m].info.weak
    && Null !in v.nodes && l in v.nodes && v.nodes[l] == NearDeath(d)
  }

  // `PersistentValueMap::WeakCallback`.
  method WeakCallback(e: Engine, d: DataId, ghost l: Loc)
    requires Names(e.V(), d, l)
    modifies e`nodes, e`slots, e`impls, e`data
    ensures e.nodes == old(e.nodes) - {l} && e.slots == old(e.slots) && e.data == old(e.data) - {d}
    ensures e.impls == Without(old(e.impls), old(e.data)[d].home, old(e.data)[d].key)
  {
    var m, k := e.data[d].home, e.data[d].key;
    var value := e.RemoveRaw(m, k);
    DropValue(e, value);
    e.DisposeCallbackData(d);
  }

  // `RemoveWeak`: the handle built on the entry's cell is reset, and goes away.
  method RemoveWeak(e: Engine, m: MapId, k: Key)
    requires m in e.impls && k in e.impls[m].entries && e.impls[m].entries[k] in e.nodes && Null !in e.nodes
    modifies e`nodes, e`slots, e`impls
    ensures e.nodes == old(e.nodes) - {old(e.impls)[m].entries[k]} && e.slots == old(e.slots)
    ensures e.impls == Without(old(e.impls), m, k)
  {
    var v := e.TraitsRemove(m, k);
    var p := e.Adopt(v);
    e.DisposeGlobal(e.slots[p]);
    e.slots := e.slots[p := Null];
    e.slots := e.slots - {p};
  }

  // `GlobalValueMap::OnWeakCallback`. The result says that a second-pass callback was asked for.
  method OnWeakCallback(e: Engine, d: DataId, ghost l: Loc) returns (again: bool)
    requires Names(e.V(), d, l)
    modifies e`nodes, e`slots, e`impls
    ensures e.nodes == old(e.nodes) - {l} && e.slots == old(e.slots) && again
    ensures e.impls == Without(old(e.impls), e.data[d].home, e.data[d].key)
  {
    RemoveWeak(e, e.data[d].home, e.data[d].key);
    again := true;
  }

  // `PendingPhantomCallback::Invoke` in the first pass: whichever callback the map class installed.
  method InvokeFirst(e: Engine, d: DataId, ghost l: Loc) returns (again: bool)
    requires Names(e.V(), d, l)
    modifies e`nodes, e`slots, e`impls, e`data
    ensures e.nodes == old(e.nodes) - {l} && e.slots == old(e.slots)
    ensures e.impls == Without(old(e.impls), old(e.data)[d].home, old(e.data)[d].key)
    ensures again <==> old(e.impls)[old(e.data)[d].home].info.kind == GlobalMap
    ensures e.data == if again then old(e.data) else old(e.data) - {d}
  {
    again := false;
    match e.impls[e.data[d].home].info.kind
    case PersistentMap => WeakCallback(e, d, l);
    case GlobalMap => again := OnWeakCallback(e, d, l);
  }

  // The memory when the callbacks of the nodes in `gone` have run.
  ghost predicate Called(u: Mem, v: Mem, nodes: map<Loc, Node>, gone: set<Loc>) {
    && u.nodes == nodes - gone
    && u.impls == CalledImpls(v, gone)
    && BooksCalled(u, v, GoneData(v, gone, PersistentMap), GoneData(v, gone, GlobalMap))
  }

  ghost predicate BooksCalled(u: Mem, v: Mem, disposed: set<DataId>, queued: set<DataId>) {
    u.data == v.data - disposed && multiset(u.second) == multiset(v.second) + multiset(queued)
  }

  ghost predicate NearDeaths(v: Mem, dead: set<Address>, nodes: map<Loc, Node>) {
    && Null !in nodes
    && (forall l :: l in DeadWeak(v, dead) ==> l in nodes && nodes[l] == NearDeath(v.nodes[l].param) && UnderKey(v, l))
  }

  lemma NamesIt(u: Mem, v: Mem, nodes: map<Loc, Node>, gone: set<Loc>, dead: set<Address>, l: Loc)
    requires NearDeaths(v, dead, nodes) && Called(u, v, nodes, gone) && l in DeadWeak(v, dead) && l !in gone
    ensures Names(u, v.nodes[l].param, l) && u.data[v.nodes[l].param] == v.data[v.nodes[l].param]
    ensures u.impls[v.data[v.nodes[l].param].home].info.kind == KindOf(v, l)
  {
  }

  lemma CalledNone(v: Mem)
    ensures Called(v, v, v.nodes, {})
  {
    forall m | m in v.impls ensures CalledImpls(v, {})[m] == v.impls[m] {
      assert CalledImpls(v, {})[m].entries == v.impls[m].entries;
    }
  }

  lemma BooksOne(u: Mem, u': Mem, v: Mem, disposed: set<DataId>, queued: set<DataId>, d: DataId, kind: Kind)
    requires BooksCalled(u, v, disposed, queued) && d !in queued
    requires u'.data == if kind == GlobalMap then u.data else u.data - {d}
    requires u'.second == if kind == GlobalMap then u.second + [d] else u.second
    ensures BooksCalled(u', v, disposed + if kind == PersistentMap then {d} else {}, queued + if kind == GlobalMap then {d} else {})
  {
  }

  lemma CalledOne(u: Mem, u': Mem, v: Mem, nodes: map<Loc, Node>, gone: set<Loc>, l: Loc)
    requires UnderKey(v, l) && Called(u, v, nodes, gone) && l !in gone
    requires v.data[v.nodes[l].param].home in u.impls
    requires var d := v.nodes[l].param;
      && u'.nodes == u.nodes - {l} && u'.impls == Without(u.impls, v.data[d].home, v.data[d].key)
      && u'.data == (if KindOf(v, l) == GlobalMap then u.data else u.data - {d})
      && u'.second == (if KindOf(v, l) == GlobalMap then u.second + [d] else u.second)
    ensures Called(u', v, nodes, gone + {l})
  {
    CallStep(v, gone, l);
    GoneStep(v, gone, l, PersistentMap);
    GoneStep(v, gone, l, GlobalMap);
    BooksOne(u, u', v, GoneData(v, gone, PersistentMap), GoneData(v, gone, GlobalMap), v.nodes[l].param, KindOf(v, l));
    assert nodes - gone - {l} == nodes - (gone + {l});
  }

  method InvokeFirstPassWeakCallbacks(e: Engine, pending: seq<(Loc, DataId)>, ghost v: Mem, ghost dead: set<Address>)
    requires Lists(v, dead, v.nodes.Keys, pending) && NearDeaths(v, dead, e.nodes)
    requires e.impls == v.impls && e.data == v.data && e.second == v.second
    modifies e`nodes, e`slots, e`impls, e`data, e`second
    ensures Called(e.V(), v, old(e.nodes), DeadWeak(v, dead)) && e.slots == old(e.slots)
  {
    ghost var nodes := e.nodes;
    ghost var gone: set<Loc> := {};
    CalledNone(v);
    for i := 0 to |pending|
      invariant gone <= DeadWeak(v, dead) && Firsts(pending[i..]) == DeadWeak(v, dead) - gone
      invariant Called(e.V(), v, nodes, gone) && e.slots == old(e.slots)
    {
      NextPending(pending, i);
      var (l, d) := pending[i];
      assert pending[i] in pending;
      NamesIt(e.V(), v, nodes, gone, dead, l);
      ghost var u := e.V();
      var again := InvokeFirst(e, d, l);
      assert l !in e.nodes;  // CHECK: the callback has reset the handle
      if again {
        e.second := e.second + [d];
      }
      CalledOne(u, e.V(), v, nodes, gone, l);
      gone := gone + {l};
    }
    assert pending[|pending|..] == [] && Firsts([]) == {};
    assert gone == DeadWeak(v, dead);
  }

  /* The collection as a whole. */

  method CollectRaw(e: Engine, dead: set<Address>, reloc: map<Address, Address>, ghost w: World)
    requires Mirrors(e.V(), w) && Kinds(w) && forall m :: m in w.maps ==> w.maps[m].home == m
    modifies e`nodes, e`slots, e`impls, e`data, e`second
    ensures e.V() == Swept(old(e.V()), dead, reloc, e.second)
    ensures multiset(e.second) == multiset(old(e.second)) + multiset(GoneData(old(e.V()), DeadWeak(old(e.V()), dead), GlobalMap))
  {
    ghost var v := e.V();
    ReadyToCollect(v, w, dead, reloc);
    var pending := IterateWeakRootsForPhantomHandles(e, dead);
    e.nodes := MovedNodes(e.nodes, reloc);
    InvokeFirstPassWeakCallbacks(e, pending, v, dead);
  }

  lemma ReadyToCollect(v: Mem, w: World, dead: set<Address>, reloc: map<Address, Address>)
    requires Mirrors(v, w) && Kinds(w) && (forall m :: m in w.maps ==> w.maps[m].home == m)
    ensures BackPointers(v) && (forall l :: l in v.nodes && v.nodes[l].Phantom? ==> v.nodes[l].back in v.slots)
    ensures NearDeaths(v, dead, MovedNodes(MarkedNodes(v, dead, v.nodes.Keys), reloc))
  {
    BackPointersIf(v, w);
    forall l | l in DeadWeak(v, dead) ensures UnderKey(v, l) {
      UnderKeyIf(v, w, l);
    }
  }

  /** A collection up to the second pass: exactly `Collection.Collect`. */
  method CollectGarbage(e: Engine, dead: set<Address>, reloc: map<Address, Address>)
    requires e.Valid() && Kinds(e.w) && CanCollect(e.w, dead, reloc)
    modifies e
    ensures e.Valid() && e.w == Collect(old(e.w), dead, reloc)
  {
    ghost var v, w := e.V(), e.w;
    CollectRaw(e, dead, reloc, w);
    MirrorsCollect(v, w, dead, reloc, e.second);
    e.w := Collect(w, dead, reloc);
  }
}
