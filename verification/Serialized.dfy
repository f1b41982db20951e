/** Record keys as the linked nodes they are. An address stands for a pointer to a key,
    a slice number for the array behind a composite id; both may be shared. */
module KeyMemory {
  import opened Ordering
  import opened Values
  import T = Table

  datatype Id = Atom(value: Value) | Composite(slice: nat)

  /** One key. Only its id may be assigned by whoever holds a pointer to it. */
  datatype Cell = Cell(collection: string, id: Id, parent: Option<nat>)

  datatype Memory = Memory(cells: seq<Cell>, slices: seq<seq<Value>>)

  /** Something that can be overwritten: the id of a key, the array of a composite id. */
  datatype Location = IdOf(cell: nat) | FieldsOf(slice: nat)

  predicate IdIn(m: Memory, id: Id) {
    id.Composite? ==> id.slice < |m.slices|
  }

  /** A key is made after its parent, so chains end. */
  predicate Sound(m: Memory) {
    forall a | 0 <= a < |m.cells| ::
      IdIn(m, m.cells[a].id) && (m.cells[a].parent.Some? ==> m.cells[a].parent.value < a)
  }

  function IdValue(m: Memory, id: Id): Value
    requires IdIn(m, id)
  {
    match id
    case Atom(v) => v
    case Composite(slice) => Arr(m.slices[slice])
  }

  /** What a key and its parents say. */
  function KeyAt(m: Memory, a: nat): T.Key
    requires Sound(m) && a < |m.cells|
    decreases a
  {
    var cell := m.cells[a];
    T.Key(cell.collection, IdValue(m, cell.id), if cell.parent.None? then None else Some(KeyAt(m, cell.parent.value)))
  }

  function SliceOf(id: Id): set<Location> {
    if id.Composite? then {FieldsOf(id.slice)} else {}
  }

  /** Everything a write to which could change what the key says. */
  function Reach(m: Memory, a: nat): set<Location>
    requires Sound(m) && a < |m.cells|
    decreases a
  {
    var cell := m.cells[a];
    {IdOf(a)} + SliceOf(cell.id) + if cell.parent.None? then {} else Reach(m, cell.parent.value)
  }

  function WithId(m: Memory, a: nat, id: Id): Memory
    requires a < |m.cells|
  {
    m.(cells := m.cells[a := m.cells[a].(id := id)])
  }

  function WithFields(m: Memory, slice: nat, fields: seq<Value>): Memory
    requires slice < |m.slices|
  {
    m.(slices := m.slices[slice := fields])
  }

  predicate InMemory(m: Memory, at: Location) {
    match at
    case IdOf(a) => a < |m.cells|
    case FieldsOf(slice) => slice < |m.slices|
  }

  predicate SameAt(m: Memory, m': Memory, at: Location) {
    && InMemory(m, at) && InMemory(m', at)
    && match at
       case IdOf(a) => m.cells[a] == m'.cells[a]
       case FieldsOf(slice) => m.slices[slice] == m'.slices[slice]
  }

  /** Keys are only added: collections and parents stay. */
  predicate Grows(m: Memory, m': Memory) {
    && |m.cells| <= |m'.cells| && |m.slices| <= |m'.slices|
    && forall a | 0 <= a < |m.cells| ::
         m'.cells[a].collection == m.cells[a].collection && m'.cells[a].parent == m.cells[a].parent
  }

  lemma {:induction false} ReachIsInMemory(m: Memory, a: nat)
    requires Sound(m) && a < |m.cells|
    ensures forall at | at in Reach(m, a) :: InMemory(m, at)
    decreases a
  {
    if m.cells[a].parent.Some? {
      ReachIsInMemory(m, m.cells[a].parent.value);
    }
  }

  /** A chain nobody wrote to says what it said. */
  lemma {:induction false} ChainStands(m: Memory, m': Memory, a: nat)
    requires Sound(m) && Sound(m') && a < |m.cells| && Grows(m, m')
    requires forall at | at in Reach(m, a) :: SameAt(m, m', at)
    ensures KeyAt(m', a) == KeyAt(m, a) && Reach(m', a) == Reach(m, a)
    decreases a
  {
    assert SameAt(m, m', IdOf(a));
    var id := m.cells[a].id;
    if id.Composite? {
      assert SameAt(m, m', FieldsOf(id.slice));
    }
    if m.cells[a].parent.Some? {
      ChainStands(m, m', m.cells[a].parent.value);
    }
  }

  /** Assigning an id changes what a key says exactly when it is the id of a key on its
      chain, and another id than it had. */
  lemma {:induction false} AssignShowsIff(m: Memory, b: nat, id: Id, a: nat)
    requires Sound(m) && a < |m.cells| && b < |m.cells| && IdIn(m, id)
    ensures Sound(WithId(m, b, id))
    ensures KeyAt(WithId(m, b, id), a) == KeyAt(m, a) <==> IdOf(b) !in Reach(m, a) || IdValue(m, id) == IdValue(m, m.cells[b].id)
    ensures Reach(WithId(m, b, id), a) <= Reach(m, a) + (if IdOf(b) in Reach(m, a) then SliceOf(id) else {})
    ensures IdOf(b) !in Reach(m, a) ==> Reach(WithId(m, b, id), a) == Reach(m, a)
    decreases a
  {
    if m.cells[a].parent.Some? {
      AssignShowsIff(m, b, id, m.cells[a].parent.value);
    }
    if a < b {
      ChainIsBelow(m, a, b);
    }
  }

  lemma {:induction false} ChainIsBelow(m: Memory, a: nat, b: nat)
    requires Sound(m) && a < |m.cells| && a < b
    ensures IdOf(b) !in Reach(m, a)
    decreases a
  {
    if m.cells[a].parent.Some? {
      ChainIsBelow(m, m.cells[a].parent.value, b);
    }
  }

  /** Overwriting an array changes what a key says exactly when a composite id on its
      chain uses it, and the fields differ. */
  lemma {:induction false} RefillShowsIff(m: Memory, slice: nat, fields: seq<Value>, a: nat)
    requires Sound(m) && a < |m.cells| && slice < |m.slices|
    ensures Sound(WithFields(m, slice, fields))
    ensures KeyAt(WithFields(m, slice, fields), a) == KeyAt(m, a) <==> FieldsOf(slice) !in Reach(m, a) || fields == m.slices[slice]
    ensures Reach(WithFields(m, slice, fields), a) == Reach(m, a)
    decreases a
  {
    if m.cells[a].parent.Some? {
      RefillShowsIff(m, slice, fields, m.cells[a].parent.value);
    }
  }

  /** A key made of nothing that was there in m. */
  predicate Fresh(m: Memory, at: Location) {
    !InMemory(m, at)
  }

  predicate Extends(m: Memory, m': Memory) {
    m.cells <= m'.cells && m.slices <= m'.slices
  }

  lemma ExtensionStands(m: Memory, m': Memory, a: nat)
    requires Sound(m) && Sound(m') && a < |m.cells| && Extends(m, m')
    ensures KeyAt(m', a) == KeyAt(m, a) && Reach(m', a) == Reach(m, a)
  {
    ReachIsInMemory(m, a);
    forall at | at in Reach(m, a)
      ensures SameAt(m, m', at)
    {
    }
    ChainStands(m, m', a);
  }

  /** The memory all keys live in. */
  class KeyHeap {
    var memory: Memory

    constructor ()
      ensures memory == Memory([], [])
    {
      memory := Memory([], []);
    }

    method NewKey(collection: string, id: Id, parent: Option<nat>) returns (a: nat)
      requires Sound(memory) && IdIn(memory, id) && (parent.Some? ==> parent.value < |memory.cells|)
      modifies this
      ensures Sound(memory) && a == |old(memory).cells|
      ensures memory == old(memory).(cells := old(memory).cells + [Cell(collection, id, parent)])
    {
      a := |memory.cells|;
      memory := memory.(cells := memory.cells + [Cell(collection, id, parent)]);
    }

    method NewSlice(fields: seq<Value>) returns (slice: nat)
      requires Sound(memory)
      modifies this
      ensures Sound(memory) && slice == |old(memory).slices|
      ensures memory == old(memory).(slices := old(memory).slices + [fields])
    {
      slice := |memory.slices|;
      memory := memory.(slices := memory.slices + [fields]);
    }

    /** Whoever holds a key may assign its id. */
    method Assign(a: nat, id: Id)
      requires Sound(memory) && a < |memory.cells| && IdIn(memory, id)
      modifies this
      ensures Sound(memory) && memory == WithId(old(memory), a, id)
    {
      memory := WithId(memory, a, id);
    }

    /** Whoever holds an array may overwrite it. */
    method Refill(slice: nat, fields: seq<Value>)
      requires Sound(memory) && slice < |memory.slices|
      modifies this
      ensures Sound(memory) && memory == WithFields(old(memory), slice, fields)
    {
      memory := WithFields(memory, slice, fields);
    }

    /** cloneRecordKey: an equal chain that shares no key and no array. */
    method Clone(a: nat) returns (copy: nat)
      requires Sound(memory) && a < |memory.cells|
      modifies this
      ensures Sound(memory) && Extends(old(memory), memory) && copy < |memory.cells|
      ensures KeyAt(memory, copy) == KeyAt(old(memory), a)
      ensures forall at | at in Reach(memory, copy) :: Fresh(old(memory), at)
      decreases a
    {
      var cell := memory.cells[a];
      ghost var m0 := memory;
      var up: Option<nat> := None;
      if cell.parent.Some? {
        var p := Clone(cell.parent.value);
        up := Some(p);
      }
      ghost var m1 := memory;
      var id := cell.id;
      if id.Composite? {
        var slice := NewSlice(memory.slices[id.slice]);
        id := Composite(slice);
      }
      copy := NewKey(cell.collection, id, up);
      if up.Some? {
        ExtensionStands(m1, memory, up.value);
      }
    }
  }
}

/** The simple engine: one JSON document an id, enumerated in no order. */
module Serialized {
  import opened Ordering
  import opened Values
  import T = Table
  import PathUpdate
  import opened KeyMemory

  /** A stored record: its document, normalised by the trip through JSON, and its key,
      as the engine holds it (a pointer) or as a reader sees it (what the chain says). */
  datatype Entry<K> = Entry(doc: Value, key: K)

  type Held = map<string, Entry<nat>>

  type Docs = map<string, Entry<T.Key>>

  datatype Failure = AlreadyExists | NotFound | NotSerializable | UnknownFields | NotAnObject | NotAMap(segment: string) | UndefinedCollection | GeneratorFailed | TooManyAttempts

  /** The unknown-field check of a collection with a schema type; none without. */
  type Check = Option<Value -> bool>

  predicate Accepts(check: Check, doc: Value) {
    check.Some? ==> check.value(doc)
  }

  function Stored<K>(check: Check, t: map<string, Entry<K>>, id: string, key: K, data: Option<Value>, overwrite: bool): Result<map<string, Entry<K>>, Failure> {
    if !overwrite && id in t then Err(AlreadyExists)
    else if data.None? then Err(NotSerializable)
    else if !Accepts(check, Norm(data.value)) then Err(UnknownFields)
    else Ok(t[id := Entry(Norm(data.value), key)])
  }

  function Updated<K>(check: Check, t: map<string, Entry<K>>, id: string, updates: seq<PathUpdate.Update>): Result<map<string, Entry<K>>, Failure> {
    if id !in t then Err(NotFound)
    else if !t[id].doc.Obj? then Err(NotAnObject)
    else
      match PathUpdate.ApplyAll(t[id].doc.fields, updates)
      case Err(segment) => Err(NotAMap(segment))
      case Ok(next) =>
        if !Accepts(check, Norm(Obj(next))) then Err(UnknownFields)
        else Ok(t[id := Entry(Norm(Obj(next)), t[id].key)])
  }

  /** Every stored pointer points at a key. */
  predicate Pointing(m: Memory, t: Held) {
    forall id | id in t :: t[id].key < |m.cells|
  }

  /** The records as they are seen. */
  function Seen(m: Memory, t: Held): Docs
    requires Sound(m) && Pointing(m, t)
  {
    map id | id in t :: Entry(t[id].doc, KeyAt(m, t[id].key))
  }

  predicate Readable(doc: Value) {
    doc.Obj? || doc.Nil?
  }

  function RowOf(t: Docs, id: string): T.Row
    requires id in t && Readable(t[id].doc)
  {
    T.Row(id, if t[id].doc.Obj? then t[id].doc.fields else map[], Some(t[id].key))
  }

  /** Some listing of all rows: each once, in any order. */
  ghost predicate Lists(t: Docs, rows: seq<T.Row>) {
    && (forall id | id in t :: Readable(t[id].doc))
    && Distinct(rows)
    && (forall r :: r in rows <==> r.id in t && r == RowOf(t, r.id))
  }

  /** Any two listings are permutations of each other, with distinct ids: what order
      the engine enumerates in cannot matter to a query that forgets it. */
  lemma ListingsPermute(t: Docs, a: seq<T.Row>, b: seq<T.Row>)
    requires Lists(t, a) && Lists(t, b)
    ensures multiset(a) == multiset(b)
    ensures forall r, s | r in a && s in a && r.id == s.id :: r == s
  {
    forall r
      ensures multiset(a)[r] == multiset(b)[r]
    {
      MultisetOfDistinct(a, r);
      MultisetOfDistinct(b, r);
      assert r in multiset(a) <==> r in a;
      assert r in multiset(b) <==> r in b;
    }
  }

  class SerializedEngine {
    const collection: string
    const check: Check
    var records: map<string, Value>
    var keys: map<string, nat>
    ghost var contents: Held   // the two maps in one

    ghost predicate Valid()
      reads this
    {
      && records.Keys == keys.Keys == contents.Keys
      && forall id | id in keys :: contents[id] == Entry(records[id], keys[id])
    }

    constructor (collection: string, check: Check)
      ensures Valid() && contents == map[]
      ensures this.collection == collection && this.check == check
    {
      this.collection, this.check := collection, check;
      records, keys, contents := map[], map[], map[];
    }

    /** Take over a whole copy. */
    method Fill(records: map<string, Value>, keys: map<string, nat>, ghost contents: Held)
      requires records.Keys == keys.Keys == contents.Keys
      requires forall id | id in keys :: contents[id] == Entry(records[id], keys[id])
      modifies this
      ensures Valid() && this.contents == contents
    {
      this.records, this.keys, this.contents := records, keys, contents;
    }

    method Exists(id: string) returns (found: bool)
      requires Valid()
      ensures found <==> id in contents
    {
      found := id in records;
    }

    /** The engine keeps the pointer it is given. */
    method Store(id: string, key: nat, data: Option<Value>, overwrite: bool) returns (err: Option<Failure>)
      requires Valid()
      modifies this
      ensures Valid()
      ensures match Stored(check, old(contents), id, key, data, overwrite)
              case Err(e) => err == Some(e) && contents == old(contents)
              case Ok(t) => err == None && contents == t
      ensures err == Some(AlreadyExists) <==> !overwrite && id in old(contents)
      ensures err == None ==> data.Some? && contents == old(contents)[id := Entry(Norm(data.value), key)]
    {
      if !overwrite && id in records {
        return Some(AlreadyExists);
      }
      if data.None? {
        return Some(NotSerializable);
      }
      var doc := Norm(data.value);
      if check.Some? && !check.value(doc) {
        return Some(UnknownFields);
      }
      records, keys, contents := records[id := doc], keys[id := key], contents[id := Entry(doc, key)];
      err := None;
    }

    method Delete(id: string)
      requires Valid()
      modifies this
      ensures Valid() && contents == old(contents) - {id}
    {
      records := records - {id};
      keys := keys - {id};
      contents := contents - {id};
    }

    /** The updates run on a decoded copy: when one fails, whatever the earlier ones
        did to the copy is not stored. */
    method Update(id: string, updates: seq<PathUpdate.Update>) returns (err: Option<Failure>)
      requires Valid()
      modifies this
      ensures Valid()
      ensures match Updated(check, old(contents), id, updates)
              case Err(e) => err == Some(e) && contents == old(contents)
              case Ok(t) => err == None && contents == t
      ensures err == Some(NotFound) <==> id !in old(contents)
      ensures err == None ==> id in contents && contents == old(contents)[id := Entry(contents[id].doc, old(contents)[id].key)]
    {
      if id !in records {
        return Some(NotFound);
      }
      if !records[id].Obj? {
        return Some(NotAnObject);
      }
      var data, failed := PathUpdate.ApplyUpdates(records[id].fields, updates);
      PathUpdate.FailedListLeavesPrefix(records[id].fields, updates);
      if failed.Some? {
        return Some(NotAMap(failed.value));
      }
      assert updates[..|updates|] == updates;
      var next := Norm(Obj(data));
      if check.Some? && !check.value(next) {
        return Some(UnknownFields);
      }
      records, contents := records[id := next], contents[id := Entry(next, contents[id].key)];
      err := None;
    }

    /** rows: in whatever order ids come out of the map. */
    method Rows(heap: KeyHeap) returns (ids: seq<string>, err: Option<Failure>, ghost rows: seq<T.Row>)
      requires Valid() && Sound(heap.memory) && Pointing(heap.memory, contents)
      ensures err.None? <==> forall id | id in contents :: Readable(contents[id].doc)
      ensures err.None? ==>
                && Lists(Seen(heap.memory, contents), rows) && |rows| == |ids|
                && forall i | 0 <= i < |ids| :: rows[i].id == ids[i]
    {
      ids, err, rows := [], None, [];
      ghost var t := Seen(heap.memory, contents);
      assert forall id | id in contents :: t[id].doc == contents[id].doc;
      var pending := records.Keys;
      while pending != {}
        invariant pending <= records.Keys
        invariant forall id | id in contents && id !in pending :: Readable(contents[id].doc)
        invariant |rows| == |ids| && forall i | 0 <= i < |ids| :: rows[i].id == ids[i]
        invariant Distinct(rows)
        invariant forall r :: r in rows <==> r.id in t && r.id !in pending && r == RowOf(t, r.id)
      {
        var id :| id in pending;
        if !records[id].Obj? && !records[id].Nil? {
          assert !Readable(contents[id].doc);
          return ids, Some(NotAnObject), rows;
        }
        pending := pending - {id};
        ids := ids + [id];
        rows := rows + [RowOf(t, id)];
      }
    }
  }
}
