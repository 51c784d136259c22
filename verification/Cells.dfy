/**
 The storage cells behind persistent handles, and who owns them.

 V8 keeps one node per global handle.  Embedder memory refers to a node by its raw
 address, from one of two places: the `location_` word of a `Global`/`Persistent`, or
 an integer in the backing map of a `PersistentValueMap`/`GlobalValueMap`.  A `World`
 is a snapshot of all of that memory.
 */
module Cells {

  datatype Option<+T> = None | Some(value: T)

  // Address of a node (an `Address*`); 0 is nullptr.
  type Loc = nat
  const Null: Loc := 0

  // Address of a handle's `location_` word (an `Address**`).
  type Addr = nat

  // Tagged address of a JavaScript object; a moving collector changes it.
  type Address = nat

  // Identity of a JavaScript object, which moving does not change.
  type ObjectId = nat

  type MapId = nat
  type DataId = nat
  type Key(==, !new)

  // An in-use node. WEAK without a callback (`Phantom`) stores the address of the handle
  // to reset; WEAK with a callback stores the callback data. A node the collector found
  // dead is NEAR_DEATH until its first-pass callback has run.
  datatype Node =
    | Strong(obj: Address)
    | Weak(obj: Address, param: DataId)
    | Phantom(obj: Address, back: Addr)
    | NearDeath(param: DataId)

  // A word of embedder memory that can hold the address of a node.
  datatype Place = InHandle(h: Addr) | InImpl(m: MapId, k: Key)

  // A node, and (as bookkeeping) the place that took it last.
  datatype Cell = Cell(node: Node, owner: Place)

  // Which class template a map is, and thereby which weak callback it installs.
  datatype Kind = PersistentMap | GlobalMap

  // A backing map. `home` is the map object its entries were set on: this one itself,
  // except for the local backing map that `Clear` swaps entries into.
  datatype MapInfo = MapInfo(kind: Kind, weak: bool, home: MapId)

  // Live callback data: what it decodes to, and the cell it was installed on.
  datatype Data = Data(home: MapId, key: Key, cell: Loc)

  datatype Books = Books(
    data: map<DataId, Data>,     // callback data not yet disposed
    second: multiset<DataId>,    // queued second-pass callbacks
    created: set<DataId>,        // all callback data ever created
    released: multiset<DataId>,  // disposals by Release
    collected: multiset<DataId>  // disposals by a weak callback
  )

  datatype World = World(
    cells: map<Loc, Cell>,
    at: map<Place, Loc>,            // the words that are not null
    handles: set<Addr>,             // handles that exist, empty or not
    maps: map<MapId, MapInfo>,
    books: Books,
    objects: map<Address, ObjectId> // which object lives at an address
  )

  function At(w: World, p: Place): Loc {
    if p in w.at then w.at[p] else Null
  }

  predicate Exists(w: World, p: Place) {
    match p
    case InHandle(h) => h in w.handles
    case InImpl(m, _) => m in w.maps
  }

  // The three things any operation does to a cell.

  function Alloc(w: World, p: Place, l: Loc, n: Node): World {
    w.(cells := w.cells[l := Cell(n, p)], at := w.at[p := l])
  }

  function Free(w: World, p: Place): World
    requires p in w.at
  {
    w.(cells := w.cells - {w.at[p]}, at := w.at - {p})
  }

  function Transfer(w: World, p: Place, q: Place, n: Node): World
    requires p in w.at
  {
    Alloc(w.(at := w.at - {p}), q, w.at[p], n)
  }

  /* Ownership: live cells and non-null places are in bijection. */

  ghost predicate OwnerHolds(w: World, l: Loc)
    requires l in w.cells
  {
    w.cells[l].owner in w.at && w.at[w.cells[l].owner] == l
  }

  ghost predicate Owned(w: World) {
    && Null !in w.cells
    && (forall p :: p in w.at ==> Exists(w, p) && w.at[p] in w.cells && w.cells[w.at[p]].owner == p)
    && (forall l {:trigger OwnerHolds(w, l)} :: l in w.cells ==> OwnerHolds(w, l))
  }

  // The node is of the kind its owner is for.
  ghost predicate Fits(w: World, l: Loc, c: Cell) {
    match c.owner
    case InHandle(h) => c.node.Strong? || (c.node.Phantom? && c.node.back == h)
    case InImpl(m, k) =>
      m in w.maps &&
      if w.maps[m].weak
      then c.node.Weak? && c.node.param in w.books.data && w.books.data[c.node.param] == Data(w.maps[m].home, k, l)
      else c.node.Strong?
  }

  ghost predicate Kinds(w: World) {
    forall l {:trigger w.cells[l]} :: l in w.cells ==> Fits(w, l, w.cells[l])
  }

  // The callback data is waiting for its cell to be removed or to die.
  ghost predicate Waiting(b: Books, d: DataId) {
    d in b.data && b.second[d] == 0
  }

  ghost predicate Installed(w: World, l: Loc, d: DataId) {
    l in w.cells && w.cells[l].node.Weak? && w.cells[l].node.param == d
  }

  // Waiting callback data belongs to exactly one weak cell; other live data is queued once.
  ghost predicate DataPlaced(w: World) {
    && (forall d {:trigger Waiting(w.books, d)} :: Waiting(w.books, d) ==> Installed(w, w.books.data[d].cell, d))
    && (forall l {:trigger w.cells[l]} :: l in w.cells && w.cells[l].node.Weak? ==> w.books.second[w.cells[l].node.param] == 0)
  }

  // Callback data is live, or was disposed exactly once.
  ghost predicate Conserved(b: Books) {
    && (forall d {:trigger d in b.created} {:trigger d in b.data} {:trigger b.released[d]} {:trigger b.collected[d]} ::
          b.released[d] + b.collected[d] + (if d in b.data then 1 else 0) == (if d in b.created then 1 else 0))
    && (forall d :: b.second[d] <= 1)
    && (forall d :: d in b.second ==> d in b.data)
  }

  predicate Same(a: Address, b: Address) {
    a == b
  }

  // No two addresses hold the same object.
  ghost predicate Apart(objects: map<Address, ObjectId>) {
    forall a, b {:trigger Same(a, b)} :: a in objects && b in objects && objects[a] == objects[b] ==> Same(a, b)
  }

  // Live cells refer to live objects.
  ghost predicate ObjectsAlive(w: World) {
    && (forall l {:trigger w.cells[l]} :: l in w.cells ==> !w.cells[l].node.NearDeath? && w.cells[l].node.obj in w.objects)
    && Apart(w.objects)
  }

  ghost predicate Inv(w: World) {
    Owned(w) && Kinds(w) && DataPlaced(w) && Conserved(w.books) && ObjectsAlive(w)
  }

  // The object a place refers to, if it is not null.
  ghost function ObjectOf(w: World, p: Place): Option<ObjectId> {
    if p in w.at && w.at[p] in w.cells && !w.cells[w.at[p]].node.NearDeath? && w.cells[w.at[p]].node.obj in w.objects
    then Some(w.objects[w.cells[w.at[p]].node.obj])
    else None
  }

  lemma OwnedAlloc(w: World, p: Place, l: Loc, n: Node)
    requires Owned(w) && Exists(w, p) && p !in w.at && l != Null && l !in w.cells
    ensures Owned(Alloc(w, p, l, n))
  {
    var w' := Alloc(w, p, l, n);
    forall x | x in w'.cells ensures OwnerHolds(w', x) {
      assert x != l ==> OwnerHolds(w, x);
    }
  }

  lemma OwnedFree(w: World, p: Place)
    requires Owned(w) && p in w.at
    ensures Owned(Free(w, p))
  {
    var w' := Free(w, p);
    forall x | x in w'.cells ensures OwnerHolds(w', x) {
      assert OwnerHolds(w, x);
    }
  }

  lemma OwnedTransfer(w: World, p: Place, q: Place, n: Node)
    requires Owned(w) && Exists(w, q) && p in w.at && q !in w.at
    ensures Owned(Transfer(w, p, q, n))
  {
    var w' := Transfer(w, p, q, n);
    forall x | x in w'.cells ensures OwnerHolds(w', x) {
      assert OwnerHolds(w, x);
    }
  }

  // The object address in the cell of a place, if it has one.
  function NodeObject(w: World, p: Place): Option<Address> {
    if p in w.at && w.at[p] in w.cells && !w.cells[w.at[p]].node.NearDeath? then Some(w.cells[w.at[p]].node.obj) else None
  }

  // There is always an address that is not in use.
  lemma {:induction false} FreshNat(s: set<nat>, from: nat)
    ensures exists n: nat :: n >= from && n !in s
    decreases s
  {
    if from in s {
      FreshNat(s - {from}, from + 1);
      var n: nat :| n >= from + 1 && n !in s - {from};
      assert n !in s;
    } else {
      assert from !in s;
    }
  }
}
