/**
 The same heap of objects laid out in memory with full pointers or with compressed ones, and the
 inline readers of the API.  Every reader is proved to compute what the objects themselves say, so
 the readers agree in all configurations.
 */
module TaggedHeap {
  import opened Words
  import opened Smi
  import opened Bytes

  /* The heap as objects. */

  type Id = nat

  datatype Value = Small(i: int) | Ref(id: Id)

  // `shape` is the object's map (hidden class), which is itself an object.
  datatype Obj =
    | Shape(shape: Id, instanceType: nat)
    | Oddball(shape: Id, kind: int)
    | JSObject(shape: Id, fields: seq<Value>)
    | Context(shape: Id, data: Id)
    | DataArray(shape: Id, slots: seq<Value>)
    | Plain(shape: Id)

  type Heap = map<Id, Obj>

  const ODDBALL_TYPE := 0x83
  const FIRST_NONSTRING_TYPE := 0x80
  const JS_SPECIAL_API_OBJECT_TYPE := 0x410
  const JS_OBJECT_TYPE := 0x421
  const LAST_JS_API_OBJECT_TYPE := 0x80A
  const UNDEFINED_KIND := 5
  const NULL_KIND := 3

  // A value the heap can hold: an integer that is a Smi in this configuration, or an object.
  predicate Good(c: Config, h: Heap, v: Value)
    requires Supported(c)
  {
    match v
    case Small(i) => IsSmall(c, i)
    case Ref(id) => id in h
  }

  predicate IsSmall(c: Config, i: int)
    requires Supported(c)
  {
    IsInt32(i) && IsValidSmi(c, i)
  }

  predicate HasShape(h: Heap, id: Id) {
    id in h && h[id].shape in h && h[h[id].shape].Shape?
  }

  ghost predicate ClosedAt(c: Config, h: Heap, id: Id)
    requires Supported(c)
  {
    HasShape(h, id) &&
    match h[id]
    case Shape(_, t) => t < TWO16
    case Oddball(_, kind) => Good(c, h, Small(kind))
    case JSObject(_, fields) => forall i :: 0 <= i < |fields| ==> Good(c, h, fields[i])
    case Context(_, data) => data in h && h[data].DataArray?
    case DataArray(_, slots) => forall i :: 0 <= i < |slots| ==> Good(c, h, slots[i])
    case Plain(_) => true
  }

  function TypeOf(h: Heap, id: Id): nat
    requires HasShape(h, id)
  {
    h[h[id].shape].instanceType
  }

  // The types that promise internal fields at a fixed offset.
  predicate FieldType(t: nat) {
    t == JS_SPECIAL_API_OBJECT_TYPE || JS_OBJECT_TYPE <= t <= LAST_JS_API_OBJECT_TYPE
  }

  // References lead to objects, shapes to shapes, exactly the oddballs have the oddball type, and
  // objects of the field types are JavaScript objects. (Other JavaScript objects may have any other type.)
  ghost predicate WellFormed(c: Config, h: Heap)
    requires Supported(c)
  {
    forall id {:trigger HasShape(h, id)} :: id in h ==>
      && ClosedAt(c, h, id)
      && (TypeOf(h, id) == ODDBALL_TYPE <==> h[id].Oddball?)
      && (FieldType(TypeOf(h, id)) ==> h[id].JSObject?)
  }

  predicate IsOddball(h: Heap, v: Value, kind: int) {
    v.Ref? && v.id in h && h[v.id].Oddball? && h[v.id].kind == kind
  }

  predicate IsString(h: Heap, v: Value) {
    v.Ref? && HasShape(h, v.id) && TypeOf(h, v.id) < FIRST_NONSTRING_TYPE
  }

  /* The heap in memory. */

  function InstanceTypeOffset(c: Config): nat { c.taggedSize + 4 }
  function OddballKindOffset(c: Config): nat { 4 * c.taggedSize + 8 }
  function JSObjectHeaderSize(c: Config): nat { 3 * c.taggedSize }
  function EmbedderDataArrayHeaderSize(c: Config): nat { 2 * c.taggedSize }
  function EmbedderDataOffset(c: Config): nat { 6 * c.taggedSize }

  // An object's tagged address. A compressed heap lies in one aligned cage at `base`.
  ghost predicate PlacedAt(c: Config, place: map<Id, nat>, base: nat, id: Id) {
    && id in place && HasHeapObjectTag(place[id]) && IsWord(c, place[id])
    && (Compressed(c) ==> InCage(base, place[id]))
  }

  predicate InCage(base: nat, p: nat) {
    base % TWO32 == 0 && base < TWO64 && base <= p < base + TWO32
  }

  function Where(place: map<Id, nat>, id: Id): nat {
    if id in place then place[id] else 0
  }

  function ValueWord(c: Config, place: map<Id, nat>, v: Value): nat
    requires Supported(c)
  {
    match v
    case Small(i) => IntToSmi(c, i)
    case Ref(id) => Where(place, id)
  }

  // A tagged field holds as many low bytes of the word as fit.
  ghost predicate Holds(c: Config, mem: seq<byte>, a: nat, w: nat) {
    Load(mem, a, c.taggedSize) == w % Pow256(c.taggedSize)
  }

  ghost predicate Slots(c: Config, mem: seq<byte>, place: map<Id, nat>, start: nat, values: seq<Value>)
    requires Supported(c)
  {
    forall i :: 0 <= i < |values| ==> Holds(c, mem, start + c.pointerSize * i, ValueWord(c, place, values[i]))
  }

  // The object `o` is at address `p`.
  ghost predicate Laid(c: Config, mem: seq<byte>, place: map<Id, nat>, p: nat, o: Obj)
    requires Supported(c)
  {
    && Holds(c, mem, p, Where(place, o.shape))
    && match o
       case Shape(_, t) => Load(mem, p + InstanceTypeOffset(c), 2) == t
       case Oddball(_, kind) => Holds(c, mem, p + OddballKindOffset(c), IntToSmi(c, kind))
       case JSObject(_, fields) => Slots(c, mem, place, p + JSObjectHeaderSize(c), fields)
       case Context(_, data) => Holds(c, mem, p + EmbedderDataOffset(c), Where(place, data))
       case DataArray(_, slots) => Slots(c, mem, place, p + EmbedderDataArrayHeaderSize(c), slots)
       case Plain(_) => true
  }

  ghost predicate ImageAt(c: Config, mem: seq<byte>, h: Heap, place: map<Id, nat>, base: nat, id: Id)
    requires Supported(c) && id in h
  {
    PlacedAt(c, place, base, id) && Laid(c, mem, place, place[id] - 1, h[id])
  }

  // The memory holds the heap.
  ghost predicate Image(c: Config, mem: seq<byte>, h: Heap, place: map<Id, nat>, base: nat)
    requires Supported(c)
  {
    forall id {:trigger ImageAt(c, mem, h, place, base, id)} :: id in h ==> ImageAt(c, mem, h, place, base, id)
  }

  /* The readers. */

  function CageBase(p: nat): nat {
    p - p % TWO32
  }

  function DecompressTaggedField(p: nat, value: nat): nat {
    (CageBase(p) + value) % TWO64
  }

  function ReadTaggedPointerField(c: Config, mem: seq<byte>, p: nat, offset: nat): nat
    requires p > 0
  {
    if Compressed(c) then DecompressTaggedField(p, Load(mem, p + offset - 1, 4)) else Load(mem, p + offset - 1, c.pointerSize)
  }

  function ReadTaggedSignedField(c: Config, mem: seq<byte>, p: nat, offset: nat): nat
    requires p > 0
  {
    if Compressed(c) then Load(mem, p + offset - 1, 4) else Load(mem, p + offset - 1, c.pointerSize)
  }

  // Reads a whole slot; with compression, its low 32 bits are decompressed.
  function ReadSlot(c: Config, mem: seq<byte>, p: nat, offset: nat): nat
    requires p > 0
  {
    var value := Load(mem, p + offset - 1, c.pointerSize);
    if Compressed(c) then DecompressTaggedField(p, value % TWO32) else value
  }

  function GetInstanceType(c: Config, mem: seq<byte>, p: nat): nat
    requires p > 0
  {
    var shape := ReadTaggedPointerField(c, mem, p, 0);
    if shape == 0 then 0 else Load(mem, shape + InstanceTypeOffset(c) - 1, 2)
  }

  function GetOddballKind(c: Config, mem: seq<byte>, p: nat): int
    requires Supported(c) && p > 0
  {
    var w := ReadTaggedSignedField(c, mem, p, OddballKindOffset(c));
    if IsWord(c, w) then SmiToInt(c, w) else 0
  }

  function QuickIsUndefined(c: Config, mem: seq<byte>, w: nat): bool
    requires Supported(c)
  {
    if !HasHeapObjectTag(w) then false
    else if GetInstanceType(c, mem, w) != ODDBALL_TYPE then false
    else GetOddballKind(c, mem, w) == UNDEFINED_KIND
  }

  function QuickIsNull(c: Config, mem: seq<byte>, w: nat): bool
    requires Supported(c)
  {
    if !HasHeapObjectTag(w) then false
    else if GetInstanceType(c, mem, w) != ODDBALL_TYPE then false
    else GetOddballKind(c, mem, w) == NULL_KIND
  }

  function QuickIsNullOrUndefined(c: Config, mem: seq<byte>, w: nat): bool
    requires Supported(c)
  {
    if !HasHeapObjectTag(w) then false
    else if GetInstanceType(c, mem, w) != ODDBALL_TYPE then false
    else var kind := GetOddballKind(c, mem, w); kind == NULL_KIND || kind == UNDEFINED_KIND
  }

  function QuickIsString(c: Config, mem: seq<byte>, w: nat): bool {
    if !HasHeapObjectTag(w) then false else GetInstanceType(c, mem, w) < FIRST_NONSTRING_TYPE
  }

  function CanHaveInternalField(instanceType: int): bool {
    instanceType == JS_SPECIAL_API_OBJECT_TYPE || UnsignedInRange(instanceType, JS_OBJECT_TYPE, LAST_JS_API_OBJECT_TYPE, TWO32)
  }

  datatype FastPath = NotTaken | Taken(value: nat)

  function GetInternalField(c: Config, mem: seq<byte>, p: nat, index: nat): FastPath
    requires p > 0
  {
    if CanHaveInternalField(GetInstanceType(c, mem, p))
    then Taken(ReadSlot(c, mem, p, JSObjectHeaderSize(c) + c.pointerSize * index))
    else NotTaken
  }

  function GetEmbedderData(c: Config, mem: seq<byte>, ctx: nat, index: nat): nat
    requires ctx > 0
  {
    var data := ReadTaggedPointerField(c, mem, ctx, EmbedderDataOffset(c));
    if data == 0 then 0 else ReadSlot(c, mem, data, EmbedderDataArrayHeaderSize(c) + c.pointerSize * index)
  }

  /* What they compute. */

  lemma FromCage(base: nat, p: nat, x: nat)
    requires InCage(base, p) && x < TWO32
    ensures DecompressTaggedField(p, x) == base + x
  {
  }

  /** Decompression undoes truncation for every address in the cage, from any object in it. */
  lemma Decompress(base: nat, p: nat, q: nat)
    requires InCage(base, p) && InCage(base, q)
    ensures DecompressTaggedField(p, q % TWO32) == q
  {
  }

  // The part of a word that a field holds: all of it, or the low 32 bits.
  lemma Held(c: Config, mem: seq<byte>, a: nat, w: nat)
    requires Supported(c) && Holds(c, mem, a, w) && IsWord(c, w)
    ensures if Compressed(c) then Load(mem, a, 4) == Load(mem, a, 8) % TWO32 == w % TWO32 else Load(mem, a, c.pointerSize) == w
  {
    Sizes();
    if Compressed(c) {
      LoadLow(mem, a);
    }
  }

  lemma ReadPointer(c: Config, mem: seq<byte>, place: map<Id, nat>, base: nat, id: Id, offset: nat, target: Id)
    requires Supported(c) && PlacedAt(c, place, base, id) && PlacedAt(c, place, base, target)
    requires Holds(c, mem, place[id] - 1 + offset, place[target])
    ensures ReadTaggedPointerField(c, mem, place[id], offset) == place[target]
  {
    Held(c, mem, place[id] - 1 + offset, place[target]);
    if Compressed(c) {
      Decompress(base, place[id], place[target]);
    }
  }

  // A word stands for a value: the address of the object, or an encoding of the integer.
  ghost predicate Decodes(c: Config, place: map<Id, nat>, v: Value, w: nat)
    requires Supported(c)
  {
    match v
    case Small(i) => IsWord(c, w) && w % 2 == 0 && SmiToInt(c, w) == i
    case Ref(id) => id in place && w == place[id]
  }

  lemma SmallIsValid(c: Config, i: int)
    requires Supported(c) && IsSmall(c, i)
    ensures IsInt32(i) && IsValidSmi(c, i) && SmiToInt(c, IntToSmi(c, i)) == i && IntToSmi(c, i) % 2 == 0
  {
    RoundTrip(c, i);
    NeverHeapObject(c, i);
  }

  lemma ReadSlotRef(c: Config, mem: seq<byte>, place: map<Id, nat>, base: nat, id: Id, offset: nat, t: Id)
    requires Supported(c) && PlacedAt(c, place, base, id) && PlacedAt(c, place, base, t)
    requires Holds(c, mem, place[id] - 1 + offset, place[t])
    ensures ReadSlot(c, mem, place[id], offset) == place[t]
  {
    Held(c, mem, place[id] - 1 + offset, place[t]);
    if Compressed(c) {
      Decompress(base, place[id], place[t]);
    }
  }

  lemma ReadSlotSmall(c: Config, mem: seq<byte>, place: map<Id, nat>, base: nat, id: Id, offset: nat, i: int)
    requires Supported(c) && PlacedAt(c, place, base, id) && IsSmall(c, i)
    requires Holds(c, mem, place[id] - 1 + offset, IntToSmi(c, i))
    ensures Decodes(c, place, Small(i), ReadSlot(c, mem, place[id], offset))
  {
    Held(c, mem, place[id] - 1 + offset, IntToSmi(c, i));
    SmallIsValid(c, i);
    if Compressed(c) {
      FromCage(base, place[id], IntToSmi(c, i) % TWO32);
      SurvivesCompression(c, i, base);
    }
  }

  lemma ReadSlotValue(c: Config, mem: seq<byte>, h: Heap, place: map<Id, nat>, base: nat, id: Id, offset: nat, v: Value)
    requires Supported(c) && PlacedAt(c, place, base, id) && Good(c, h, v) && (v.Ref? ==> PlacedAt(c, place, base, v.id))
    requires Holds(c, mem, place[id] - 1 + offset, ValueWord(c, place, v))
    ensures Decodes(c, place, v, ReadSlot(c, mem, place[id], offset))
  {
    match v
    case Ref(t) => ReadSlotRef(c, mem, place, base, id, offset, t);
    case Small(i) => ReadSlotSmall(c, mem, place, base, id, offset, i);
  }

  lemma SlotRead(c: Config, mem: seq<byte>, h: Heap, place: map<Id, nat>, base: nat, id: Id, start: nat, values: seq<Value>, index: nat)
    requires Supported(c) && PlacedAt(c, place, base, id) && Slots(c, mem, place, place[id] - 1 + start, values) && index < |values|
    requires Good(c, h, values[index]) && (values[index].Ref? ==> PlacedAt(c, place, base, values[index].id))
    ensures Decodes(c, place, values[index], ReadSlot(c, mem, place[id], start + c.pointerSize * index))
  {
    ReadSlotValue(c, mem, h, place, base, id, start + c.pointerSize * index, values[index]);
  }

  lemma InstanceTypeRead(c: Config, mem: seq<byte>, h: Heap, place: map<Id, nat>, base: nat, id: Id)
    requires Supported(c) && WellFormed(c, h) && Image(c, mem, h, place, base) && id in h
    ensures HasShape(h, id) && PlacedAt(c, place, base, id) && GetInstanceType(c, mem, place[id]) == TypeOf(h, id)
  {
    assert HasShape(h, id);
    var shape := h[id].shape;
    assert ImageAt(c, mem, h, place, base, id) && ImageAt(c, mem, h, place, base, shape);
    ReadPointer(c, mem, place, base, id, 0, shape);
  }

  lemma ReadSmallField(c: Config, mem: seq<byte>, p: nat, offset: nat, i: int)
    requires Supported(c) && p > 0 && IsSmall(c, i) && Holds(c, mem, p - 1 + offset, IntToSmi(c, i))
    ensures IsWord(c, ReadTaggedSignedField(c, mem, p, offset)) && SmiToInt(c, ReadTaggedSignedField(c, mem, p, offset)) == i
  {
    Held(c, mem, p - 1 + offset, IntToSmi(c, i));
    SmallIsValid(c, i);
    if Compressed(c) {
      SurvivesCompression(c, i, 0);
    }
  }

  lemma OddballKindRead(c: Config, mem: seq<byte>, h: Heap, place: map<Id, nat>, base: nat, id: Id)
    requires Supported(c) && WellFormed(c, h) && Image(c, mem, h, place, base) && id in h && h[id].Oddball?
    ensures PlacedAt(c, place, base, id) && GetOddballKind(c, mem, place[id]) == h[id].kind
  {
    assert HasShape(h, id);
    assert ImageAt(c, mem, h, place, base, id);
    ReadSmallField(c, mem, place[id], OddballKindOffset(c), h[id].kind);
  }

  /**
   On any word that stands for a value, the quick checks say what the value is, whatever the pointer
   size, the width of small integers, and whether pointers are compressed.
   */
  lemma QuickChecks(c: Config, mem: seq<byte>, h: Heap, place: map<Id, nat>, base: nat, v: Value, w: nat)
    requires Supported(c) && WellFormed(c, h) && Image(c, mem, h, place, base) && Good(c, h, v) && Decodes(c, place, v, w)
    ensures QuickIsUndefined(c, mem, w) <==> IsOddball(h, v, UNDEFINED_KIND)
    ensures QuickIsNull(c, mem, w) <==> IsOddball(h, v, NULL_KIND)
    ensures QuickIsNullOrUndefined(c, mem, w) <==> IsOddball(h, v, UNDEFINED_KIND) || IsOddball(h, v, NULL_KIND)
    ensures QuickIsString(c, mem, w) <==> IsString(h, v)
  {
    match v
    case Small(_) => EvenIsNotHeapObject(w);
    case Ref(id) => QuickRefChecks(c, mem, h, place, base, id);
  }

  lemma EvenIsNotHeapObject(w: nat)
    requires w % 2 == 0
    ensures !HasHeapObjectTag(w)
  {
  }

  lemma QuickRefChecks(c: Config, mem: seq<byte>, h: Heap, place: map<Id, nat>, base: nat, id: Id)
    requires Supported(c) && WellFormed(c, h) && Image(c, mem, h, place, base) && id in h
    ensures PlacedAt(c, place, base, id)
    ensures QuickIsUndefined(c, mem, place[id]) <==> IsOddball(h, Ref(id), UNDEFINED_KIND)
    ensures QuickIsNull(c, mem, place[id]) <==> IsOddball(h, Ref(id), NULL_KIND)
    ensures QuickIsNullOrUndefined(c, mem, place[id]) <==> IsOddball(h, Ref(id), UNDEFINED_KIND) || IsOddball(h, Ref(id), NULL_KIND)
    ensures QuickIsString(c, mem, place[id]) <==> IsString(h, Ref(id))
  {
    InstanceTypeRead(c, mem, h, place, base, id);
    assert HasShape(h, id);
    if h[id].Oddball? {
      OddballKindRead(c, mem, h, place, base, id);
    }
  }

  /** The unsigned range trick selects exactly the special API objects and the types from JSObject to the last API object. */
  lemma InternalFieldTypes(t: nat)
    requires t < TWO16
    ensures CanHaveInternalField(t) <==> FieldType(t)
  {
  }

  lemma FieldSlotRead(c: Config, mem: seq<byte>, h: Heap, place: map<Id, nat>, base: nat, id: Id, index: nat)
    requires Supported(c) && WellFormed(c, h) && Image(c, mem, h, place, base) && id in h && h[id].JSObject? && index < |h[id].fields|
    ensures PlacedAt(c, place, base, id)
    ensures Decodes(c, place, h[id].fields[index], ReadSlot(c, mem, place[id], JSObjectHeaderSize(c) + c.pointerSize * index))
  {
    assert HasShape(h, id);
    assert ImageAt(c, mem, h, place, base, id);
    var v := h[id].fields[index];
    assert v.Ref? ==> ImageAt(c, mem, h, place, base, v.id);
    SlotRead(c, mem, h, place, base, id, JSObjectHeaderSize(c), h[id].fields, index);
  }

  /** On any object, `GetInternalField` takes the fast path exactly for the field types, and then returns the field's value. */
  lemma InternalFieldRead(c: Config, mem: seq<byte>, h: Heap, place: map<Id, nat>, base: nat, id: Id, index: nat)
    requires Supported(c) && WellFormed(c, h) && Image(c, mem, h, place, base) && id in h
    requires h[id].JSObject? ==> index < |h[id].fields|
    ensures PlacedAt(c, place, base, id) && HasShape(h, id)
    ensures var r := GetInternalField(c, mem, place[id], index);
      && (r.Taken? <==> FieldType(TypeOf(h, id)))
      && (r.Taken? ==> h[id].JSObject? && Decodes(c, place, h[id].fields[index], r.value))
  {
    InstanceTypeRead(c, mem, h, place, base, id);
    assert HasShape(h, id) && HasShape(h, h[id].shape);
    InternalFieldTypes(TypeOf(h, id));
    if FieldType(TypeOf(h, id)) {
      FieldSlotRead(c, mem, h, place, base, id, index);
    }
  }

  lemma DataPointerRead(c: Config, mem: seq<byte>, h: Heap, place: map<Id, nat>, base: nat, id: Id)
    requires Supported(c) && Image(c, mem, h, place, base) && id in h && h[id].Context? && h[id].data in h
    ensures PlacedAt(c, place, base, id) && PlacedAt(c, place, base, h[id].data)
    ensures ReadTaggedPointerField(c, mem, place[id], EmbedderDataOffset(c)) == place[h[id].data]
  {
    assert ImageAt(c, mem, h, place, base, id) && ImageAt(c, mem, h, place, base, h[id].data);
    ReadPointer(c, mem, place, base, id, EmbedderDataOffset(c), h[id].data);
  }

  lemma DataSlotRead(c: Config, mem: seq<byte>, h: Heap, place: map<Id, nat>, base: nat, id: Id, index: nat)
    requires Supported(c) && WellFormed(c, h) && Image(c, mem, h, place, base) && id in h && h[id].DataArray? && index < |h[id].slots|
    ensures PlacedAt(c, place, base, id)
    ensures Decodes(c, place, h[id].slots[index], ReadSlot(c, mem, place[id], EmbedderDataArrayHeaderSize(c) + c.pointerSize * index))
  {
    assert HasShape(h, id);
    assert ImageAt(c, mem, h, place, base, id);
    var v := h[id].slots[index];
    assert v.Ref? ==> ImageAt(c, mem, h, place, base, v.id);
    SlotRead(c, mem, h, place, base, id, EmbedderDataArrayHeaderSize(c), h[id].slots, index);
  }

  /** `GetEmbedderData` returns the value in the context's data array. */
  lemma EmbedderDataRead(c: Config, mem: seq<byte>, h: Heap, place: map<Id, nat>, base: nat, id: Id, index: nat)
    requires Supported(c) && WellFormed(c, h) && Image(c, mem, h, place, base)
    requires id in h && h[id].Context? && h[id].data in h && h[h[id].data].DataArray? && index < |h[h[id].data].slots|
    ensures PlacedAt(c, place, base, id) && Decodes(c, place, h[h[id].data].slots[index], GetEmbedderData(c, mem, place[id], index))
  {
    DataPointerRead(c, mem, h, place, base, id);
    DataSlotRead(c, mem, h, place, base, h[id].data, index);
  }

  // Two words, read in two configurations, give the same answers to every check.
  predicate SameAnswers(c: Config, mem: seq<byte>, w: nat, c': Config, mem': seq<byte>, w': nat)
    requires Supported(c) && Supported(c')
  {
    && QuickIsUndefined(c, mem, w) == QuickIsUndefined(c', mem', w')
    && QuickIsNull(c, mem, w) == QuickIsNull(c', mem', w')
    && QuickIsNullOrUndefined(c, mem, w) == QuickIsNullOrUndefined(c', mem', w')
    && QuickIsString(c, mem, w) == QuickIsString(c', mem', w')
  }

  lemma AnswersAgree(c: Config, mem: seq<byte>, place: map<Id, nat>, base: nat, w: nat,
                     c': Config, mem': seq<byte>, place': map<Id, nat>, base': nat, w': nat, h: Heap, v: Value)
    requires Supported(c) && Supported(c') && WellFormed(c, h) && WellFormed(c', h)
    requires Image(c, mem, h, place, base) && Image(c', mem', h, place', base')
    requires Good(c, h, v) && Good(c', h, v) && Decodes(c, place, v, w) && Decodes(c', place', v, w')
    ensures SameAnswers(c, mem, w, c', mem', w')
  {
    QuickChecks(c, mem, h, place, base, v, w);
    QuickChecks(c', mem', h, place', base', v, w');
  }

  /**
   A heap and its compressed image agree: the fast path of `GetInternalField` is taken in both or in
   neither, and what it returns answers every check alike.
   */
  lemma ConfigurationsAgree(c: Config, mem: seq<byte>, place: map<Id, nat>, base: nat,
                            c': Config, mem': seq<byte>, place': map<Id, nat>, base': nat, h: Heap, id: Id, index: nat)
    requires Supported(c) && Supported(c') && WellFormed(c, h) && WellFormed(c', h)
    requires Image(c, mem, h, place, base) && Image(c', mem', h, place', base')
    requires id in h && (h[id].JSObject? ==> index < |h[id].fields|)
    ensures PlacedAt(c, place, base, id) && PlacedAt(c', place', base', id)
    ensures var r, r' := GetInternalField(c, mem, place[id], index), GetInternalField(c', mem', place'[id], index);
      && r.Taken? == r'.Taken?
      && (r.Taken? ==> SameAnswers(c, mem, r.value, c', mem', r'.value))
  {
    InternalFieldRead(c, mem, h, place, base, id, index);
    InternalFieldRead(c', mem', h, place', base', id, index);
    var r, r' := GetInternalField(c, mem, place[id], index), GetInternalField(c', mem', place'[id], index);
    if r.Taken? {
      AnswersAgree(c, mem, place, base, r.value, c', mem', place', base', r'.value, h, h[id].fields[index]);
    }
  }

  /** The same for values read by `GetEmbedderData`. */
  lemma ConfigurationsAgreeOnData(c: Config, mem: seq<byte>, place: map<Id, nat>, base: nat,
                                  c': Config, mem': seq<byte>, place': map<Id, nat>, base': nat, h: Heap, id: Id, index: nat)
    requires Supported(c) && Supported(c') && WellFormed(c, h) && WellFormed(c', h)
    requires Image(c, mem, h, place, base) && Image(c', mem', h, place', base')
    requires id in h && h[id].Context? && h[id].data in h && h[h[id].data].DataArray? && index < |h[h[id].data].slots|
    ensures PlacedAt(c, place, base, id) && PlacedAt(c', place', base', id)
    ensures SameAnswers(c, mem, GetEmbedderData(c, mem, place[id], index), c', mem', GetEmbedderData(c', mem', place'[id], index))
  {
    EmbedderDataRead(c, mem, h, place, base, id, index);
    EmbedderDataRead(c', mem', h, place', base', id, index);
    assert HasShape(h, h[id].data);
    AnswersAgree(c, mem, place, base, GetEmbedderData(c, mem, place[id], index),
                 c', mem', place', base', GetEmbedderData(c', mem', place'[id], index), h, h[h[id].data].slots[index]);
  }
}
