/**
 The second pass as the code runs it. A callback may run a collection, which queues more callbacks;
 the pass under way runs those too, since a second pass that the inner collection starts gives up at once.
 */
module Callbacks {
  import opened Cells
  import opened Handles
  import opened Collection
  import opened Runs
  import opened Memory
  import opened Sequences
  import opened Engine
  import Collector

  // What the callbacks do, in order, after they have disposed their own data.
  datatype Act = Collects(dead: set<Address>, reloc: map<Address, Address>) | Returns

  // The heap allows the act on `v`, and it leads to `v'`.
  ghost predicate Acts(v: World, act: Act, v': World) {
    match act
    case Collects(dead, reloc) => CanCollect(v, dead, reloc) && v' == Collect(v, dead, reloc)
    case Returns => v' == v
  }

  // The states before, between and after the acts, if no second-pass callback ran meanwhile.
  ghost predicate Follow(script: seq<Act>, vs: seq<World>) {
    && |vs| == |script| + 1
    && (forall i {:trigger script[i]} :: 0 <= i < |script| ==> Acts(vs[i], script[i], vs[i + 1]))
  }

  lemma NextAct(script: seq<Act>, vs: seq<World>, n: nat)
    requires Follow(script, vs) && n < |script|
    ensures Acts(vs[n], script[n], vs[n + 1])
  {
  }

  // The callbacks that have returned when the first `n` acts are done.
  function Returned(script: seq<Act>, n: nat): nat
    requires n <= |script|
  {
    Count((act: Act) => act.Returns?, script[..n])
  }

  lemma ReturnedNext(script: seq<Act>, n: nat)
    requires n < |script|
    ensures Returned(script, n + 1) == Returned(script, n) + if script[n].Returns? then 1 else 0
  {
    assert script[..n + 1] == script[..n] + [script[n]] && [script[n]][1..] == [];
    CountConcat((act: Act) => act.Returns?, script[..n], [script[n]]);
  }

  // The callbacks in a run.
  function Invoked(ops: seq<Op>): nat {
    Count((op: Op) => op.RunSecondPass?, ops)
  }

  lemma InvokedConcat(a: seq<Op>, b: seq<Op>)
    ensures Invoked(a + b) == Invoked(a) + Invoked(b)
  {
    CountConcat((op: Op) => op.RunSecondPass?, a, b);
  }

  lemma InvokedOne(ops: seq<Op>, op: Op)
    ensures Invoked(ops + [op]) == Invoked(ops) + if op.RunSecondPass? then 1 else 0
    ensures Invoked([op] + ops) == Invoked(ops) + if op.RunSecondPass? then 1 else 0
  {
    InvokedConcat(ops, [op]);
    InvokedConcat([op], ops);
    assert [op][1..] == [];
  }

  // `calls` callbacks took the script from `start` to `n`. When a script has run out, further callbacks do nothing more.
  predicate Consumed(script: seq<Act>, start: nat, n: nat, calls: nat) {
    && start <= n <= |script|
    && Returned(script, n) - Returned(script, start) <= calls
    && (n < |script| ==> Returned(script, n) - Returned(script, start) == calls)
  }

  // The callback returns, unless the script has run out.
  function Past(script: seq<Act>, n: nat): nat {
    if n < |script| then n + 1 else n
  }

  lemma ConsumedTrans(script: seq<Act>, a: nat, b: nat, c: nat, m: nat, n: nat)
    requires Consumed(script, a, b, m) && Consumed(script, b, c, n)
    ensures Consumed(script, a, c, m + n)
  {
  }

  /* Second-pass callbacks and collections commute, as far as the state after the last callback goes. */

  // The same heap, handles and maps; the books of callback data may differ.
  predicate SameHeap(u: World, v: World) {
    u.cells == v.cells && u.at == v.at && u.handles == v.handles && u.maps == v.maps && u.objects == v.objects
  }

  lemma SameDying(u: World, v: World, dead: set<Address>, kind: Kind)
    requires SameHeap(u, v)
    ensures DyingData(u, dead, kind) == DyingData(v, dead, kind)
  {
  }

  lemma SameCells(u: World, v: World, dead: set<Address>, reloc: map<Address, Address>)
    requires SameHeap(u, v)
    ensures CollectCells(u, dead, reloc) == CollectCells(v, dead, reloc) && CollectAt(u, dead) == CollectAt(v, dead)
  {
  }

  lemma SameCollect(u: World, v: World, dead: set<Address>, reloc: map<Address, Address>)
    requires SameHeap(u, v) && CanCollect(u, dead, reloc)
    ensures CanCollect(v, dead, reloc) && SameHeap(Collect(u, dead, reloc), Collect(v, dead, reloc))
  {
    SameCells(u, v, dead, reloc);
  }

  // The books when the data in `gone` has been disposed of, and that in `queued` has been queued, and all callbacks have run.
  function Settled(b: Books, gone: set<DataId>, queued: set<DataId>): Books {
    b.(data := b.data - gone - queued - (set d | d in b.second), second := multiset{},
       collected := b.collected + multiset(gone) + multiset(queued) + b.second)
  }

  lemma SettledData(data: map<DataId, Data>, gone: set<DataId>, queued: set<DataId>, second: multiset<DataId>)
    ensures data - gone - (set d | d in second + multiset(queued)) == data - gone - queued - (set d | d in second)
  {
    assert (set d | d in second + multiset(queued)) == (set d | d in second) + queued;
  }

  lemma SettledCollect(w: World, dead: set<Address>, reloc: map<Address, Address>, gone: set<DataId>, queued: set<DataId>)
    requires CanCollect(w, dead, reloc) && gone == DyingData(w, dead, PersistentMap) && queued == DyingData(w, dead, GlobalMap)
    ensures Drained(Collect(w, dead, reloc)).books == Settled(w.books, gone, queued)
  {
    var b := w.books;
    SettledData(b.data, gone, queued, b.second);
    assert b.collected + multiset(gone) + (b.second + multiset(queued)) == b.collected + multiset(gone) + multiset(queued) + b.second;
  }

  lemma SettledDrained(w: World, gone: set<DataId>, queued: set<DataId>)
    ensures Settled(Drained(w).books, gone, queued) == Settled(w.books, gone, queued)
  {
    var b, s := w.books, set d | d in w.books.second;
    assert b.data - s - gone - queued == b.data - gone - queued - s;
    assert b.collected + b.second + multiset(gone) + multiset(queued) + multiset{} == b.collected + multiset(gone) + multiset(queued) + b.second;
  }

  lemma DrainedFirst(w: World, dead: set<Address>, reloc: map<Address, Address>)
    requires CanCollect(w, dead, reloc)
    ensures CanCollect(Drained(w), dead, reloc) && Drained(Collect(w, dead, reloc)) == Drained(Collect(Drained(w), dead, reloc))
  {
    var v := Drained(w);
    SameCollect(w, v, dead, reloc);
    SameDying(w, v, dead, PersistentMap);
    SameDying(w, v, dead, GlobalMap);
    var gone, queued := DyingData(w, dead, PersistentMap), DyingData(w, dead, GlobalMap);
    SettledCollect(w, dead, reloc, gone, queued);
    SettledCollect(v, dead, reloc, gone, queued);
    SettledDrained(w, gone, queued);
  }

  lemma DrainedCollects(u: World, v: World, dead: set<Address>, reloc: map<Address, Address>)
    requires Drained(u) == Drained(v) && CanCollect(v, dead, reloc)
    ensures CanCollect(u, dead, reloc) && Drained(Collect(u, dead, reloc)) == Drained(Collect(v, dead, reloc))
  {
    assert SameHeap(Drained(v), v) && SameHeap(v, u);
    SameCollect(v, u, dead, reloc);
    DrainedFirst(u, dead, reloc);
    DrainedFirst(v, dead, reloc);
  }

  /* The code. */

  lemma BooksSecond(data: map<DataId, Param>, second: seq<DataId>, nextData: DataId, b: Books, d: DataId)
    requires BooksRep(data, second + [d], nextData, b)
    ensures BooksRep(data - {d}, second, nextData, b.(second := b.second - multiset{d}, data := b.data - {d}, collected := b.collected + multiset{d}))
  {
  }

  lemma MirrorsSecond(v: Mem, v': Mem, w: World, d: DataId)
    requires Mirrors(v, w) && v.second == v'.second + [d] && v' == v.(second := v'.second, data := v.data - {d})
    ensures Mirrors(v', SecondPass(w, d))
  {
    BooksSecond(v.data, v'.second, v.nextData, w.books, d);
    OwnedFrame(w, SecondPass(w, d));
  }

  lemma QueuedIsLive(v: Mem, w: World, d: DataId)
    requires Mirrors(v, w) && Conserved(w.books) && d in v.second
    ensures d in w.books.second && d in v.data
  {
    assert d in multiset(v.second);
  }

  // The last callback is taken off the queue; it runs `SecondWeakCallback`, that is `DisposeWeak`.
  method PopAndDispose(e: Engine) returns (d: DataId)
    requires e.second != [] && e.second[|e.second| - 1] in e.data
    modifies e`second, e`data
    ensures old(e.second) == e.second + [d] && e.data == old(e.data) - {d}
  {
    d := e.second[|e.second| - 1];
    e.second := e.second[..|e.second| - 1];
    e.DisposeCallbackData(d);
  }

  method InvokeSecond(e: Engine) returns (d: DataId)
    requires e.Valid() && Conserved(e.w.books) && e.second != []
    modifies e
    ensures e.Valid() && d in old(e.w).books.second && e.w == SecondPass(old(e.w), d) && |e.second| < |old(e.second)|
  {
    ghost var v := e.V();
    QueuedIsLive(v, e.w, e.second[|e.second| - 1]);
    d := PopAndDispose(e);
    MirrorsSecond(v, e.V(), e.w, d);
    e.w := SecondPass(e.w, d);
  }

  // The same state once all queued callbacks have run.
  ghost predicate Settles(w: World, v: World) {
    SameHeap(w, v) && SettledBooks(w.books) == SettledBooks(v.books)
  }

  ghost function SettledBooks(b: Books): Books {
    b.(second := multiset{}, data := b.data - (set d | d in b.second), collected := b.collected + b.second)
  }

  lemma SettlesIff(w: World, v: World)
    ensures Settles(w, v) <==> Drained(w) == Drained(v)
  {
  }

  lemma SettlesTrans(u: World, v: World, w: World)
    requires Settles(u, v) && Settles(v, w)
    ensures Settles(u, w)
  {
  }

  lemma SettlesAfterOne(w: World, d: DataId)
    requires Inv(w) && d in w.books.second
    ensures Settles(SecondPass(w, d), w)
  {
    DrainedAfterOne(w, d);
    SettlesIff(SecondPass(w, d), w);
  }

  lemma SettlesCollect(w: World, v: World, dead: set<Address>, reloc: map<Address, Address>)
    requires Settles(w, v) && CanCollect(v, dead, reloc)
    ensures CanCollect(w, dead, reloc) && Settles(Collect(w, dead, reloc), Collect(v, dead, reloc))
  {
    SettlesIff(w, v);
    DrainedCollects(w, v, dead, reloc);
    SettlesIff(Collect(w, dead, reloc), Collect(v, dead, reloc));
  }

  lemma SettlesDrained(w: World, v: World)
    requires Settles(w, v) && w.books.second == multiset{}
    ensures w == Drained(v)
  {
    SettlesIff(w, v);
    DrainedNone(w);
  }

  // A collection that a callback runs, where the script alone leads from `v` to `v'`.
  method InnerCollection(e: Engine, act: Act, ghost v: World, ghost v': World) returns (ghost op: Op)
    requires e.Valid() && Inv(e.w) && act.Collects? && Acts(v, act, v') && Settles(e.w, v)
    modifies e
    ensures e.Valid() && Inv(e.w) && op.Gc? && Via(old(e.w), [op], e.w) && Settles(e.w, v')
  {
    ghost var w := e.w;
    op := Gc(act.dead, act.reloc);
    SettlesCollect(w, v, act.dead, act.reloc);
    Collector.CollectGarbage(e, act.dead, act.reloc);
    ViaStep(w, op);
  }

  // Collections alone lead from `w` to `w'`, and the script from `start` to `n`.
  ghost predicate Collected(w: World, ops: seq<Op>, w': World, script: seq<Act>, start: nat, n: nat) {
    && Via(w, ops, w') && Inv(w') && Invoked(ops) == 0
    && start <= n <= |script| && Returned(script, n) == Returned(script, start)
  }

  lemma CollectedNone(w: World, script: seq<Act>, n: nat)
    requires Inv(w) && n <= |script|
    ensures Collected(w, [], w, script, n, n)
  {
    ViaNone(w);
  }

  lemma CollectedCons(w: World, op: Op, w1: World, more: seq<Op>, w2: World, script: seq<Act>, start: nat, n: nat)
    requires Inv(w) && op.Gc? && Via(w, [op], w1) && start < |script| && script[start].Collects?
    requires Collected(w1, more, w2, script, start + 1, n)
    ensures Collected(w, [op] + more, w2, script, start, n)
  {
    ReturnedNext(script, start);
    ViaTrans(w, [op], w1, more, w2);
    InvokedOne(more, op);
  }

  // The collections of one callback, which may queue further callbacks.
  method InnerCollections(e: Engine, script: seq<Act>, start: nat, ghost vs: seq<World>) returns (n: nat, ghost ops: seq<Op>)
    requires e.Valid() && Inv(e.w) && start <= |script| && Follow(script, vs) && Settles(e.w, vs[start])
    modifies e
    ensures e.Valid() && Collected(old(e.w), ops, e.w, script, start, n) && Settles(e.w, vs[n])
    ensures n < |script| ==> script[n].Returns?
    ensures n == start ==> e.second == old(e.second)
    decreases |script| - start
  {
    ghost var w := e.w;
    if start == |script| || script[start].Returns? {
      CollectedNone(w, script, start);
      return start, [];
    }
    NextAct(script, vs, start);
    ghost var op := InnerCollection(e, script[start], vs[start], vs[start + 1]);
    ghost var w1 := e.w;
    ghost var more;
    n, more := InnerCollections(e, script, start + 1, vs);
    CollectedCons(w, op, w1, more, e.w, script, start, n);
    ops := [op] + more;
  }

  lemma CallbackReturns(script: seq<Act>, start: nat, n: nat, vs: seq<World>, w: World)
    requires start <= n <= |script| && Returned(script, n) == Returned(script, start) && (n < |script| ==> script[n].Returns?)
    requires Follow(script, vs) && Settles(w, vs[n])
    ensures Past(script, n) <= |script| && (Past(script, n) == start ==> n == start)
    ensures Consumed(script, start, Past(script, n), 1) && Settles(w, vs[Past(script, n)])
  {
    if n < |script| {
      ReturnedNext(script, n);
    }
  }

  // What a callback does besides disposing its data.
  method InCallback(e: Engine, script: seq<Act>, start: nat, ghost vs: seq<World>) returns (n: nat, ghost ops: seq<Op>)
    requires e.Valid() && Inv(e.w) && start <= |script| && Follow(script, vs) && Settles(e.w, vs[start])
    modifies e
    ensures e.Valid() && Via(old(e.w), ops, e.w) && Inv(e.w) && Invoked(ops) == 0 && Consumed(script, start, n, 1)
    ensures Settles(e.w, vs[n])
    ensures n == start ==> e.second == old(e.second)
  {
    n, ops := InnerCollections(e, script, start, vs);
    CallbackReturns(script, start, n, vs, e.w);
    n := Past(script, n);
  }

  /**
   Every queued callback runs, and so does every callback queued meanwhile. Whatever collections the callbacks
   run, the outcome is that of those collections alone, with all callbacks run afterwards, each once.
   */
  method InvokeSecondPassPhantomCallbacks(e: Engine, script: seq<Act>, ghost vs: seq<World>) returns (n: nat, ghost ops: seq<Op>)
    requires e.Valid() && Inv(e.w) && Follow(script, vs) && vs[0] == e.w
    modifies e
    ensures e.Valid() && e.second == [] && n <= |script| && e.w == Drained(vs[n])
    ensures Via(old(e.w), ops, e.w) && Inv(e.w) && Consumed(script, 0, n, Invoked(ops))
  {
    ghost var w := e.w;
    n, ops := 0, [];
    ViaNone(w);
    while e.second != []
      invariant e.Valid() && Inv(e.w) && Via(w, ops, e.w) && Consumed(script, 0, n, Invoked(ops)) && Settles(e.w, vs[n])
      decreases |script| - n, |e.second|
    {
      ghost var w1 := e.w;
      var d := InvokeSecond(e);
      ghost var w2, op := e.w, RunSecondPass(d);
      ViaStep(w1, op);
      SettlesAfterOne(w1, d);
      SettlesTrans(w2, w1, vs[n]);
      ghost var n0, more := n, [];
      n, more := InCallback(e, script, n, vs);
      ViaTrans(w1, [op], w2, more, e.w);
      ViaTrans(w, ops, w1, [op] + more, e.w);
      ConsumedTrans(script, 0, n0, n, Invoked(ops), 1);
      InvokedOne(more, op);
      InvokedConcat(ops, [op] + more);
      ops := ops + ([op] + more);
    }
    SettlesDrained(e.w, vs[n]);
  }
}
