/** Databases on serialized engines: their operations, checkpoints and branches. */
module Branching {
  import opened Ordering
  import opened Values
  import T = Table
  import PathUpdate
  import opened KeyMemory
  import opened Serialized

  // ---- Databases as values ----------------------------------------------------------------

  /** Everything a branch inherits besides records. checks has the unknown-field check
      of every collection in the schema; a closed schema allows no other collection.
      keyId prints the id a record is stored under. */
  datatype Config = Config(
    checks: map<string, Value -> bool>,
    closed: bool,
    keyId: T.Key -> string,
    noReadsAfterWrites: bool)

  /** The records of every collection. A collection never touched is empty. */
  type Store = map<string, Held>

  function DocsIn(s: Store, collection: string): Held {
    if collection in s then s[collection] else map[]
  }

  function CheckOf(config: Config, collection: string): Check {
    if collection in config.checks then Some(config.checks[collection]) else None
  }

  predicate Allows(config: Config, collection: string) {
    config.closed ==> collection in config.checks
  }

  predicate StorePointing(m: Memory, s: Store) {
    forall c | c in s :: Pointing(m, s[c])
  }

  /** What everyone sees in a database. */
  function SeenIn(m: Memory, s: Store): map<string, Docs>
    requires Sound(m) && StorePointing(m, s)
  {
    map c | c in s :: Seen(m, s[c])
  }

  /** The operations of a session. node is the key the caller passes, by pointer.
      Generate is Insert with an id generator; generator gives what each attempt yields. */
  datatype DbOp =
    | Put(node: nat, data: Option<Value>, overwrite: bool)
    | Generate(node: nat, generator: nat -> Option<Value>, data: Option<Value>)
    | Patch(node: nat, updates: seq<PathUpdate.Update>)
    | Remove(node: nat)

  datatype Outcome = Outcome(store: Store, memory: Memory, err: Option<Failure>)

  const MAX_ATTEMPTS: nat := 100

  predicate HasNode(m: Memory, node: nat) {
    Sound(m) && node < |m.cells|
  }

  function StorageId(config: Config, m: Memory, node: nat): string
    requires HasNode(m, node)
  {
    config.keyId(KeyAt(m, node))
  }

  /** session.save */
  function Saved(config: Config, s: Store, m: Memory, node: nat, data: Option<Value>, overwrite: bool): Outcome
    requires HasNode(m, node)
  {
    var c := m.cells[node].collection;
    if !Allows(config, c) then Outcome(s, m, Some(UndefinedCollection))
    else
      match Stored(CheckOf(config, c), DocsIn(s, c), StorageId(config, m, node), node, data, overwrite)
      case Err(e) => Outcome(s[c := DocsIn(s, c)], m, Some(e))
      case Ok(t) => Outcome(s[c := t], m, None)
  }

  /** session.UpdateRecord */
  function Patched(config: Config, s: Store, m: Memory, node: nat, updates: seq<PathUpdate.Update>): Outcome
    requires HasNode(m, node)
  {
    var c := m.cells[node].collection;
    if !Allows(config, c) then Outcome(s, m, Some(UndefinedCollection))
    else
      match Updated(CheckOf(config, c), DocsIn(s, c), StorageId(config, m, node), updates)
      case Err(e) => Outcome(s[c := DocsIn(s, c)], m, Some(e))
      case Ok(t) => Outcome(s[c := t], m, None)
  }

  lemma PatchedIs(config: Config, s: Store, m: Memory, node: nat, updates: seq<PathUpdate.Update>, docs: Held, err: Option<Failure>)
    requires HasNode(m, node) && Allows(config, m.cells[node].collection)
    requires var c := m.cells[node].collection;
             match Updated(CheckOf(config, c), DocsIn(s, c), StorageId(config, m, node), updates)
             case Err(e) => err == Some(e) && docs == DocsIn(s, c)
             case Ok(t) => err == None && docs == t
    ensures Patched(config, s, m, node, updates) == Outcome(s[m.cells[node].collection := docs], m, err)
  {
  }

  /** session.Delete */
  function Removed(config: Config, s: Store, m: Memory, node: nat): Outcome
    requires HasNode(m, node)
  {
    var c := m.cells[node].collection;
    Outcome(s[c := DocsIn(s, c) - {StorageId(config, m, node)}], m, None)
  }

  /** InsertWithIdGenerator from attempt i on: ids are assigned to the caller's key
      until one is free; the key keeps the last, or nil. */
  function Generated(config: Config, s: Store, m: Memory, op: DbOp, i: nat): Outcome
    requires HasNode(m, op.node) && op.Generate? && i <= MAX_ATTEMPTS
    decreases MAX_ATTEMPTS - i
  {
    var none := WithId(m, op.node, Atom(Nil));
    if i == MAX_ATTEMPTS then Outcome(s, none, Some(TooManyAttempts))
    else if op.generator(i).None? then Outcome(s, none, Some(GeneratorFailed))
    else
      var m' := WithId(m, op.node, Atom(op.generator(i).value));
      var c := m.cells[op.node].collection;
      var s' := s[c := DocsIn(s, c)];
      assert HasNode(m', op.node);
      if StorageId(config, m', op.node) in DocsIn(s, c) then Generated(config, s', m', op, i + 1)
      else Saved(config, s', m', op.node, op.data, false)
  }

  /** One operation on a database. Touching a collection registers its engine. */
  function Applied(config: Config, s: Store, m: Memory, op: DbOp): Outcome
    requires HasNode(m, op.node)
  {
    match op
    case Put(node, data, overwrite) => Saved(config, s, m, node, data, overwrite)
    case Generate(_, _, _) => Generated(config, s, m, op, 0)
    case Patch(node, updates) => Patched(config, s, m, node, updates)
    case Remove(node) => Removed(config, s, m, node)
  }

  /** At most the id of one key was assigned. */
  predicate OnlyIdMoved(m: Memory, m': Memory, node: nat) {
    && node < |m.cells| == |m'.cells|
    && m'.cells[node].id.Atom? && m' == WithId(m, node, m'.cells[node].id)
  }

  lemma {:induction false} GeneratedMemory(config: Config, s: Store, m: Memory, op: DbOp, i: nat)
    requires HasNode(m, op.node) && op.Generate? && i <= MAX_ATTEMPTS
    ensures OnlyIdMoved(m, Generated(config, s, m, op, i).memory, op.node)
    decreases MAX_ATTEMPTS - i
  {
    if i < MAX_ATTEMPTS && op.generator(i).Some? {
      var m' := WithId(m, op.node, Atom(op.generator(i).value));
      var c := m.cells[op.node].collection;
      if StorageId(config, m', op.node) in DocsIn(s, c) {
        GeneratedMemory(config, s[c := DocsIn(s, c)], m', op, i + 1);
      }
    }
  }

  /** The pointers an operation leaves in the store are those it had and the one it was
      passed. */
  predicate FromStoreOr(s: Store, s': Store, node: nat) {
    forall c, id | c in s' && id in s'[c] :: s'[c][id].key == node || (c in s && id in s[c] && s[c][id].key == s'[c][id].key)
  }

  lemma {:induction false} GeneratedPointers(config: Config, s: Store, m: Memory, op: DbOp, i: nat)
    requires HasNode(m, op.node) && op.Generate? && i <= MAX_ATTEMPTS
    ensures FromStoreOr(s, Generated(config, s, m, op, i).store, op.node)
    decreases MAX_ATTEMPTS - i
  {
    if i < MAX_ATTEMPTS && op.generator(i).Some? {
      var m' := WithId(m, op.node, Atom(op.generator(i).value));
      var c := m.cells[op.node].collection;
      if StorageId(config, m', op.node) in DocsIn(s, c) {
        GeneratedPointers(config, s[c := DocsIn(s, c)], m', op, i + 1);
      }
    }
  }

  /** An operation writes to no key but the one it was passed, and to that only when it
      generates an id. */
  lemma OperationTouches(config: Config, s: Store, m: Memory, op: DbOp)
    requires HasNode(m, op.node)
    ensures var r := Applied(config, s, m, op);
            && (if op.Generate? then OnlyIdMoved(m, r.memory, op.node) else r.memory == m)
            && FromStoreOr(s, r.store, op.node)
  {
    if op.Generate? {
      GeneratedMemory(config, s, m, op, 0);
      GeneratedPointers(config, s, m, op, 0);
    }
  }

  // ---- What a reader's view depends on -----------------------------------------------------------

  predicate Has(s: Store, c: string, id: string) {
    c in s && id in s[c]
  }

  /** A stored key's chain passes through at. */
  ghost predicate Reaches(m: Memory, s: Store, at: Location)
    requires Sound(m) && StorePointing(m, s)
  {
    exists c, id :: Has(s, c, id) && at in Reach(m, s[c][id].key)
  }

  lemma SeenSame(m: Memory, s: Store, m': Memory, s': Store)
    requires Sound(m) && StorePointing(m, s) && Sound(m') && StorePointing(m', s')
    requires s'.Keys == s.Keys && forall c | c in s :: s'[c].Keys == s[c].Keys
    requires forall c, id | Has(s, c, id) :: s'[c][id].doc == s[c][id].doc
    ensures SeenIn(m', s') == SeenIn(m, s) <==> forall c, id | Has(s, c, id) :: KeyAt(m', s'[c][id].key) == KeyAt(m, s[c][id].key)
  {
    if forall c, id | Has(s, c, id) :: KeyAt(m', s'[c][id].key) == KeyAt(m, s[c][id].key) {
      forall c | c in s
        ensures Seen(m', s'[c]) == Seen(m, s[c])
      {
        forall id | id in s[c]
          ensures Seen(m', s'[c])[id] == Seen(m, s[c])[id]
        {
          assert Has(s, c, id);
        }
      }
    } else {
      var c, id :| Has(s, c, id) && KeyAt(m', s'[c][id].key) != KeyAt(m, s[c][id].key);
      assert Seen(m', s'[c])[id] != Seen(m, s[c])[id];
      assert SeenIn(m', s')[c] != SeenIn(m, s)[c];
    }
  }

  /** Memory that stood still where a store reaches shows what it showed. */
  lemma StoreStands(m: Memory, m': Memory, s: Store)
    requires Sound(m) && StorePointing(m, s) && Sound(m') && Grows(m, m')
    requires forall at | Reaches(m, s, at) :: SameAt(m, m', at)
    ensures StorePointing(m', s) && SeenIn(m', s) == SeenIn(m, s)
    ensures forall at :: Reaches(m', s, at) <==> Reaches(m, s, at)
  {
    forall c, id | Has(s, c, id)
      ensures KeyAt(m', s[c][id].key) == KeyAt(m, s[c][id].key) && Reach(m', s[c][id].key) == Reach(m, s[c][id].key)
    {
      var a := s[c][id].key;
      forall at | at in Reach(m, a)
        ensures SameAt(m, m', at)
      {
        assert Reaches(m, s, at);
      }
      ChainStands(m, m', a);
    }
    SeenSame(m, s, m', s);
    forall at
      ensures Reaches(m', s, at) <==> Reaches(m, s, at)
    {
      if c, id :| Has(s, c, id) && at in Reach(m', s[c][id].key) {
        assert at in Reach(m, s[c][id].key);
      }
      if c, id :| Has(s, c, id) && at in Reach(m, s[c][id].key) {
        assert at in Reach(m', s[c][id].key);
      }
    }
  }

  /** Assigning the id of a key is seen exactly when a stored chain passes through the
      key and the id differs from the one it had. */
  lemma AssignSeenIff(m: Memory, s: Store, b: nat, id': Id)
    requires Sound(m) && StorePointing(m, s) && b < |m.cells| && IdIn(m, id')
    ensures Sound(WithId(m, b, id')) && StorePointing(WithId(m, b, id'), s)
    ensures SeenIn(WithId(m, b, id'), s) == SeenIn(m, s) <==> !Reaches(m, s, IdOf(b)) || IdValue(m, id') == IdValue(m, m.cells[b].id)
    ensures forall at | Reaches(WithId(m, b, id'), s, at) :: Reaches(m, s, at) || (Reaches(m, s, IdOf(b)) && at in SliceOf(id'))
  {
    var m' := WithId(m, b, id');
    forall c, id | Has(s, c, id)
      ensures KeyAt(m', s[c][id].key) == KeyAt(m, s[c][id].key) <==>
              IdOf(b) !in Reach(m, s[c][id].key) || IdValue(m, id') == IdValue(m, m.cells[b].id)
      ensures Reach(m', s[c][id].key) <= Reach(m, s[c][id].key) + (if IdOf(b) in Reach(m, s[c][id].key) then SliceOf(id') else {})
    {
      AssignShowsIff(m, b, id', s[c][id].key);
    }
    SeenSame(m, s, m', s);
    if Reaches(m, s, IdOf(b)) {
      var c, id :| Has(s, c, id) && IdOf(b) in Reach(m, s[c][id].key);
    }
    forall at | Reaches(m', s, at)
      ensures Reaches(m, s, at) || (Reaches(m, s, IdOf(b)) && at in SliceOf(id'))
    {
      var c, id :| Has(s, c, id) && at in Reach(m', s[c][id].key);
      assert at in Reach(m, s[c][id].key) || IdOf(b) in Reach(m, s[c][id].key);
    }
  }

  lemma RefillSeenIff(m: Memory, s: Store, slice: nat, fields: seq<Value>)
    requires Sound(m) && StorePointing(m, s) && slice < |m.slices|
    ensures Sound(WithFields(m, slice, fields)) && StorePointing(WithFields(m, slice, fields), s)
    ensures SeenIn(WithFields(m, slice, fields), s) == SeenIn(m, s) <==> !Reaches(m, s, FieldsOf(slice)) || fields == m.slices[slice]
    ensures forall at :: Reaches(WithFields(m, slice, fields), s, at) <==> Reaches(m, s, at)
  {
    var m' := WithFields(m, slice, fields);
    forall c, id | Has(s, c, id)
      ensures KeyAt(m', s[c][id].key) == KeyAt(m, s[c][id].key) <==> FieldsOf(slice) !in Reach(m, s[c][id].key) || fields == m.slices[slice]
      ensures Reach(m', s[c][id].key) == Reach(m, s[c][id].key)
    {
      RefillShowsIff(m, slice, fields, s[c][id].key);
    }
    SeenSame(m, s, m', s);
    if Reaches(m, s, FieldsOf(slice)) {
      var c, id :| Has(s, c, id) && FieldsOf(slice) in Reach(m, s[c][id].key);
    }
    forall at
      ensures Reaches(m', s, at) <==> Reaches(m, s, at)
    {
      if c, id :| Has(s, c, id) && at in Reach(m', s[c][id].key) {
        assert at in Reach(m, s[c][id].key);
      }
      if c, id :| Has(s, c, id) && at in Reach(m, s[c][id].key) {
        assert at in Reach(m', s[c][id].key);
      }
    }
  }

  // ---- Copies ------------------------------------------------------------------------------------

  /** s' in memory m' is a deep copy of s in m: it shows the same and every key it holds
      is made of nothing that was there before. */
  ghost predicate Copies(m: Memory, s: Store, m': Memory, s': Store)
    requires Sound(m) && StorePointing(m, s)
  {
    && Sound(m') && Extends(m, m') && StorePointing(m', s')
    && SeenIn(m', s') == SeenIn(m, s)
    && forall at | Reaches(m', s', at) :: Fresh(m, at)
  }

  /** The same for one engine. */
  ghost predicate CopiesOf(m: Memory, t: Held, m': Memory, t': Held)
    requires Sound(m) && Pointing(m, t)
  {
    && Sound(m') && Pointing(m', t')
    && Seen(m', t') == Seen(m, t)
    && forall id, at | id in t' && at in Reach(m', t'[id].key) :: Fresh(m, at)
  }

  lemma ExtensionSeen(m: Memory, m': Memory, t: Held)
    requires Sound(m) && Pointing(m, t) && Sound(m') && Extends(m, m')
    ensures Pointing(m', t) && Seen(m', t) == Seen(m, t)
    ensures forall id | id in t :: Reach(m', t[id].key) == Reach(m, t[id].key)
  {
    forall id | id in t
      ensures KeyAt(m', t[id].key) == KeyAt(m, t[id].key) && Reach(m', t[id].key) == Reach(m, t[id].key)
    {
      ExtensionStands(m, m', t[id].key);
    }
  }

  /** A copy stays one while memory grows. */
  lemma CopyLasts(m: Memory, t: Held, m1: Memory, t': Held, m2: Memory)
    requires Sound(m) && Pointing(m, t) && CopiesOf(m, t, m1, t') && Sound(m2) && Extends(m1, m2)
    ensures CopiesOf(m, t, m2, t')
  {
    ExtensionSeen(m1, m2, t');
    forall id, at | id in t' && at in Reach(m2, t'[id].key)
      ensures Fresh(m, at)
    {
      assert at in Reach(m1, t'[id].key);
    }
  }

  /** A copy made after memory grew is a copy of what was there before. */
  lemma CopyOfEarlier(m: Memory, t: Held, m1: Memory, t': Held, m2: Memory)
    requires Sound(m) && Pointing(m, t) && Sound(m1) && Extends(m, m1) && Pointing(m1, t) && CopiesOf(m1, t, m2, t')
    ensures CopiesOf(m, t, m2, t')
  {
    ExtensionSeen(m, m1, t);
    forall id, at | id in t' && at in Reach(m2, t'[id].key)
      ensures Fresh(m, at)
    {
      assert Fresh(m1, at);
    }
  }

  lemma CopiesAll(m: Memory, s: Store, m': Memory, s': Store)
    requires Sound(m) && StorePointing(m, s) && Sound(m') && Extends(m, m')
    requires s'.Keys == s.Keys && forall c | c in s :: CopiesOf(m, s[c], m', s'[c])
    ensures Copies(m, s, m', s')
  {
    forall c, id | Has(s', c, id)
      ensures s'[c][id].key < |m'.cells|
      ensures forall at | at in Reach(m', s'[c][id].key) :: Fresh(m, at)
    {
      assert CopiesOf(m, s[c], m', s'[c]);
    }
    assert StorePointing(m', s') by {
      forall c | c in s'
        ensures Pointing(m', s'[c])
      {
        assert CopiesOf(m, s[c], m', s'[c]);
      }
    }
    assert SeenIn(m', s') == SeenIn(m, s);
    forall at | Reaches(m', s', at)
      ensures Fresh(m, at)
    {
      var c, id :| Has(s', c, id) && at in Reach(m', s'[c][id].key);
    }
  }

  // ---- Databases on the heap --------------------------------------------------------------------

  /** Collections on engines of other modes: the mode of each engine there is, and those
      the schema configures. */
  datatype Foreign = Foreign(running: map<string, string>, configured: set<string>)

  const NO_FOREIGN := Foreign(map[], {})

  class Database {
    const config: Config
    const foreign: Foreign
    var collections: map<string, SerializedEngine>
    ghost var Repr: set<object>
    ghost var contents: Store   // what the engines hold

    ghost predicate Valid()
      reads this, Repr
    {
      && this in Repr
      && contents.Keys == collections.Keys
      && (forall c | c in collections ::
            && collections[c] in Repr && collections[c].Valid() && collections[c].check == CheckOf(config, c)
            && collections[c].contents == contents[c])
      && (forall b, c | b in collections && c in collections && b != c :: collections[b] != collections[c])
    }

    constructor (config: Config, foreign: Foreign)
      ensures Valid() && Repr == {this} && contents == map[] && this.config == config && this.foreign == foreign
    {
      this.config, this.foreign := config, foreign;
      collections, contents := map[], map[];
      Repr := {this};
    }

    /** database.engine: look the engine up, or make and register one. */
    method Engine(c: string) returns (e: SerializedEngine)
      requires Valid()
      modifies this
      ensures Valid() && fresh(Repr - old(Repr))
      ensures c in collections && e == collections[c] && contents == old(contents)[c := DocsIn(old(contents), c)]
    {
      if c in collections {
        e := collections[c];
        assert contents[c := contents[c]] == contents;
      } else {
        e := new SerializedEngine(c, CheckOf(config, c));
        Adopt(c, e);
      }
    }

    /** Register an engine. */
    method Adopt(c: string, e: SerializedEngine)
      requires Valid() && e.Valid() && c !in collections && e.check == CheckOf(config, c) && e !in Repr
      modifies this
      ensures Valid() && Repr == old(Repr) + {e} && contents == old(contents)[c := e.contents]
      ensures collections == old(collections)[c := e]
    {
      collections := collections[c := e];
      contents := contents[c := e.contents];
      Repr := Repr + {e};
    }

    /** Take note of what one engine now holds. */
    ghost method Refresh(c: string, e: SerializedEngine)
      requires this in Repr && contents.Keys == collections.Keys
      requires c in collections && collections[c] == e
      requires forall b | b in collections ::
                 && collections[b] in Repr && collections[b].Valid() && collections[b].check == CheckOf(config, b)
                 && (b != c ==> collections[b].contents == contents[b])
      requires forall a, b | a in collections && b in collections && a != b :: collections[a] != collections[b]
      modifies this`contents
      ensures Valid() && contents == old(contents)[c := e.contents]
    {
      contents := contents[c := e.contents];
    }

    method Save(heap: KeyHeap, node: nat, data: Option<Value>, overwrite: bool) returns (err: Option<Failure>)
      requires Valid() && HasNode(heap.memory, node)
      modifies Repr
      ensures Valid() && fresh(Repr - old(Repr))
      ensures Saved(config, old(contents), old(heap.memory), node, data, overwrite) == Outcome(contents, old(heap.memory), err)
    {
      var m := heap.memory;
      var c := m.cells[node].collection;
      if config.closed && c !in config.checks {
        return Some(UndefinedCollection);
      }
      var e := Engine(c);
      err := e.Store(StorageId(config, m, node), node, data, overwrite);
      Refresh(c, e);
      PutTwice(old(contents), c, DocsIn(old(contents), c), e.contents);
    }

    /** Insert with an id generator: each attempt assigns an id to the caller's key. */
    method Insert(heap: KeyHeap, op: DbOp) returns (err: Option<Failure>)
      requires Valid() && heap !in Repr && HasNode(heap.memory, op.node) && op.Generate?
      modifies Repr, heap
      ensures Valid() && fresh(Repr - old(Repr))
      ensures Generated(config, old(contents), old(heap.memory), op, 0) == Outcome(contents, heap.memory, err)
    {
      for i := 0 to MAX_ATTEMPTS
        invariant Valid() && heap !in Repr && fresh(Repr - old(Repr))
        invariant HasNode(heap.memory, op.node)
        invariant Generated(config, old(contents), old(heap.memory), op, 0) == Generated(config, contents, heap.memory, op, i)
      {
        var done;
        done, err := Attempt(heap, op, i);
        if done {
          return;
        }
      }
      heap.Assign(op.node, Atom(Nil));
      err := Some(TooManyAttempts);
    }

    /** One attempt: done unless the id was taken. */
    method Attempt(heap: KeyHeap, op: DbOp, i: nat) returns (done: bool, err: Option<Failure>)
      requires Valid() && heap !in Repr && HasNode(heap.memory, op.node) && op.Generate? && i < MAX_ATTEMPTS
      modifies Repr, heap
      ensures Valid() && fresh(Repr - old(Repr)) && HasNode(heap.memory, op.node)
      ensures Generated(config, old(contents), old(heap.memory), op, i) ==
              if done then Outcome(contents, heap.memory, err) else Generated(config, contents, heap.memory, op, i + 1)
    {
      var id := op.generator(i);
      if id.None? {
        heap.Assign(op.node, Atom(Nil));
        return true, Some(GeneratorFailed);
      }
      heap.Assign(op.node, Atom(id.value));
      var e := Engine(heap.memory.cells[op.node].collection);
      var taken := e.Exists(StorageId(config, heap.memory, op.node));
      if taken {
        return false, None;
      }
      err := Save(heap, op.node, op.data, false);
      done := true;
    }

    /** One operation of a session. */
    method Apply(heap: KeyHeap, op: DbOp) returns (err: Option<Failure>)
      requires Valid() && heap !in Repr && HasNode(heap.memory, op.node)
      modifies Repr, heap
      ensures Valid() && fresh(Repr - old(Repr))
      ensures Applied(config, old(contents), old(heap.memory), op) == Outcome(contents, heap.memory, err)
    {
      match op {
        case Put(node, data, overwrite) => err := Save(heap, node, data, overwrite);
        case Generate(_, _, _) => err := Insert(heap, op);
        case Patch(node, updates) => err := UpdateRecord(heap, node, updates);
        case Remove(node) => Delete(heap, node); err := None;
      }
    }

    method UpdateRecord(heap: KeyHeap, node: nat, updates: seq<PathUpdate.Update>) returns (err: Option<Failure>)
      requires Valid() && HasNode(heap.memory, node)
      modifies Repr
      ensures Valid() && fresh(Repr - old(Repr))
      ensures Patched(config, old(contents), old(heap.memory), node, updates) == Outcome(contents, old(heap.memory), err)
    {
      var m := heap.memory;
      var c := m.cells[node].collection;
      if config.closed && c !in config.checks {
        return Some(UndefinedCollection);
      }
      var e := Engine(c);
      err := UpdateIn(c, e, StorageId(config, m, node), updates);
      PutTwice(old(contents), c, DocsIn(old(contents), c), contents[c]);
      PatchedIs(config, old(contents), m, node, updates, contents[c], err);
    }

    method UpdateIn(c: string, e: SerializedEngine, id: string, updates: seq<PathUpdate.Update>) returns (err: Option<Failure>)
      requires Valid() && c in collections && collections[c] == e
      modifies this`contents, e
      ensures Valid() && c in contents && contents == old(contents)[c := contents[c]]
      ensures match Updated(CheckOf(config, c), old(contents)[c], id, updates)
              case Err(f) => err == Some(f) && contents[c] == old(contents)[c]
              case Ok(t) => err == None && contents[c] == t
    {
      err := e.Update(id, updates);
      Refresh(c, e);
    }

    method Delete(heap: KeyHeap, node: nat)
      requires Valid() && HasNode(heap.memory, node)
      modifies Repr
      ensures Valid() && fresh(Repr - old(Repr))
      ensures Removed(config, old(contents), old(heap.memory), node) == Outcome(contents, old(heap.memory), None)
    {
      var m := heap.memory;
      var c := m.cells[node].collection;
      var e := Engine(c);
      e.Delete(StorageId(config, m, node));
      Refresh(c, e);
      PutTwice(old(contents), c, DocsIn(old(contents), c), e.contents);
    }
  }

  lemma PutTwice(s: Store, c: string, docs: Held, docs': Held)
    ensures s[c := docs][c := docs'] == s[c := docs']
  {
  }

  // ---- Snapshots ------------------------------------------------------------------------------------

  /** cloneRecordKey for every stored key. */
  method CloneKeys(heap: KeyHeap, keys: map<string, nat>) returns (copies: map<string, nat>)
    requires Sound(heap.memory) && forall id | id in keys :: keys[id] < |heap.memory.cells|
    modifies heap
    ensures Sound(heap.memory) && Extends(old(heap.memory), heap.memory) && copies.Keys == keys.Keys
    ensures forall id | id in copies :: Cloned(old(heap.memory), keys[id], heap.memory, copies[id])
  {
    copies := map[];
    ghost var m0 := heap.memory;
    var pending := keys.Keys;
    while pending != {}
      invariant pending <= keys.Keys && copies.Keys == keys.Keys - pending
      invariant Sound(heap.memory) && Extends(m0, heap.memory)
      invariant forall id | id in copies :: Cloned(m0, keys[id], heap.memory, copies[id])
    {
      var id :| id in pending;
      ghost var m := heap.memory;
      ExtensionStands(m0, m, keys[id]);
      var copy := heap.Clone(keys[id]);
      forall k | k in copies
        ensures Cloned(m0, keys[k], heap.memory, copies[k])
      {
        ExtensionStands(m, heap.memory, copies[k]);
      }
      assert Cloned(m0, keys[id], heap.memory, copy);
      pending := pending - {id};
      copies := copies[id := copy];
    }
  }

  lemma CopyByKeys(m: Memory, t: Held, m': Memory, copies: map<string, nat>, t': Held)
    requires Sound(m) && Pointing(m, t) && Sound(m') && copies.Keys == t.Keys == t'.Keys
    requires forall id | id in t :: Cloned(m, t[id].key, m', copies[id]) && t'[id] == Entry(t[id].doc, copies[id])
    ensures CopiesOf(m, t, m', t')
  {
  }

  predicate Cloned(m: Memory, a: nat, m': Memory, copy: nat)
    requires Sound(m) && a < |m.cells| && Sound(m')
  {
    && copy < |m'.cells| && KeyAt(m', copy) == KeyAt(m, a)
    && forall at | at in Reach(m', copy) :: Fresh(m, at)
  }

  /** snapshotSerializedEngine and newEngine: both copy every record and key into a
      new holder. */
  method CopyEngine(heap: KeyHeap, e: SerializedEngine) returns (copy: SerializedEngine)
    requires e.Valid() && Sound(heap.memory) && Pointing(heap.memory, e.contents)
    modifies heap
    ensures Sound(heap.memory) && Extends(old(heap.memory), heap.memory)
    ensures copy.Valid() && fresh(copy) && copy.collection == e.collection && copy.check == e.check
    ensures CopiesOf(old(heap.memory), e.contents, heap.memory, copy.contents)
  {
    var keys := CloneKeys(heap, e.keys);
    copy := new SerializedEngine(e.collection, e.check);
    ghost var contents := map id | id in keys :: Entry(e.records[id], keys[id]);
    copy.Fill(e.records, keys, contents);
    CopyByKeys(old(heap.memory), e.contents, heap.memory, keys, contents);
  }

  /** One more engine of a database being copied: base is the memory and source the
      store the copy started from. */
  method CopyInto(heap: KeyHeap, e: SerializedEngine, copy: Database, c: string, ghost base: Memory)
    returns (engine: SerializedEngine)
    requires Sound(base) && Sound(heap.memory) && Extends(base, heap.memory)
    requires e.Valid() && Pointing(base, e.contents) && e.check == CheckOf(copy.config, c)
    requires copy.Valid() && c !in copy.collections && heap !in copy.Repr
    modifies heap, copy
    ensures Sound(heap.memory) && Extends(old(heap.memory), heap.memory)
    ensures copy.Valid() && fresh(engine) && copy.Repr == old(copy.Repr) + {engine}
    ensures c in copy.contents && copy.contents == old(copy.contents)[c := copy.contents[c]]
    ensures CopiesOf(base, old(e.contents), heap.memory, copy.contents[c])
  {
    ExtensionSeen(base, heap.memory, e.contents);
    ghost var m := heap.memory;
    engine := CopyEngine(heap, e);
    CopyOfEarlier(base, e.contents, m, engine.contents, heap.memory);
    copy.Adopt(c, engine);
  }

  method CopyEngines(heap: KeyHeap, engines: map<string, SerializedEngine>, copy: Database)
      returns (ghost made: set<object>, ghost sources: Store)
    requires Sound(heap.memory) && copy.Valid() && copy.contents == map[] && heap !in copy.Repr
    requires Copyable(heap.memory, copy.config, engines)
    modifies heap, copy
    ensures Extends(old(heap.memory), heap.memory)
    ensures copy.Valid() && fresh(made) && copy.Repr == old(copy.Repr) + made
    ensures copy.contents.Keys == engines.Keys
    ensures sources == (map c | c in engines :: old(engines[c].contents)) && StorePointing(old(heap.memory), sources)
    ensures CopiedSoFar(old(heap.memory), sources, heap.memory, copy.contents)
  {
    ghost var m0 := heap.memory;
    sources := map c | c in engines :: engines[c].contents;
    SourcesPoint(m0, copy.config, engines, sources);
    var pending := engines.Keys;
    made := {};
    while pending != {}
      invariant pending <= engines.Keys && copy.contents.Keys == engines.Keys - pending
      invariant Extends(m0, heap.memory) && CopiedSoFar(m0, sources, heap.memory, copy.contents)
      invariant copy.Repr == old(copy.Repr) + made
      invariant fresh(made)
      invariant copy.Valid()
    {
      var c :| c in pending;
      assert Told(c);
      ghost var m, before := heap.memory, copy.contents;
      var engine := CopyInto(heap, engines[c], copy, c, m0);
      ExtendsFurther(m0, m, heap.memory);
      made := made + {engine};
      pending := pending - {c};
      CopiedOneMore(m0, sources, m, before, heap.memory, copy.contents, c);
    }
  }

  ghost predicate Copyable(m: Memory, config: Config, engines: map<string, SerializedEngine>)
    reads engines.Values
  {
    forall c {:trigger Told(c)} | Told(c) && c in engines ::
      engines[c].Valid() && engines[c].check == CheckOf(config, c) && Pointing(m, engines[c].contents)
  }

  lemma SourcesPoint(m: Memory, config: Config, engines: map<string, SerializedEngine>, sources: Store)
    requires Copyable(m, config, engines) && sources == map c | c in engines :: engines[c].contents
    ensures StorePointing(m, sources)
  {
    forall c | c in sources
      ensures Pointing(m, sources[c])
    {
      assert Told(c);
    }
  }

  lemma ExtendsFurther(m0: Memory, m1: Memory, m2: Memory)
    requires Extends(m0, m1) && Extends(m1, m2)
    ensures Extends(m0, m2)
  {
  }

  ghost predicate CopiedSoFar(m: Memory, s: Store, m': Memory, s': Store)
    requires Sound(m) && StorePointing(m, s)
  {
    Sound(m') && forall c {:trigger Told(c)} | Told(c) && c in s' :: c in s && CopiesOf(m, s[c], m', s'[c])
  }

  predicate Told(c: string) {
    true
  }

  lemma CopiedOneMore(m: Memory, s: Store, m1: Memory, s1: Store, m2: Memory, s2: Store, c: string)
    requires Sound(m) && StorePointing(m, s) && CopiedSoFar(m, s, m1, s1) && Sound(m2) && Extends(m1, m2)
    requires c in s && c in s2 && s2 == s1[c := s2[c]] && CopiesOf(m, s[c], m2, s2[c])
    ensures CopiedSoFar(m, s, m2, s2)
  {
    forall b | Told(b) && b in s2 && b != c
      ensures b in s && CopiesOf(m, s[b], m2, s2[b])
    {
      CopyLasts(m, s[b], m1, s2[b], m2);
    }
  }

  /** snapshotDatabase and newDatabase: a copy of every engine under the same names. */
  method CopyDatabase(heap: KeyHeap, db: Database) returns (copy: Database)
    requires db.Valid() && Sound(heap.memory) && StorePointing(heap.memory, db.contents) && heap !in db.Repr
    modifies heap
    ensures copy.Valid() && fresh(copy.Repr) && copy.config == db.config && copy.foreign == NO_FOREIGN
    ensures Copies(old(heap.memory), db.contents, heap.memory, copy.contents)
  {
    assert forall c | c in db.collections :: Told(c) && Pointing(heap.memory, db.contents[c]);
    copy := new Database(db.config, NO_FOREIGN);
    ghost var made, sources := CopyEngines(heap, db.collections, copy);
    assert sources == db.contents;
    assert forall c | c in db.contents :: Told(c);
    CopiesAll(old(heap.memory), db.contents, heap.memory, copy.contents);
  }

  datatype CaptureError = Unsupported(collection: string, mode: string)

  /** A checkpoint keeps a frozen copy until it is released. */
  class Checkpoint {
    var snapshot: Database?

    constructor (frozen: Database)
      ensures snapshot == frozen
    {
      snapshot := frozen;
    }

    /** Branch: a database of its own, or nothing once released. */
    method Branch(heap: KeyHeap) returns (branch: Option<Database>)
      requires snapshot != null ==>
                 && snapshot.Valid() && heap !in snapshot.Repr
                 && Sound(heap.memory) && StorePointing(heap.memory, snapshot.contents)
      modifies heap
      ensures branch.None? <==> snapshot == null
      ensures branch.None? ==> heap.memory == old(heap.memory)
      ensures branch.Some? ==>
                && branch.value.Valid() && fresh(branch.value.Repr)
                && branch.value.config == snapshot.config && branch.value.foreign == NO_FOREIGN
                && Copies(old(heap.memory), snapshot.contents, heap.memory, branch.value.contents)
    {
      if snapshot == null {
        return None;
      }
      var db := CopyDatabase(heap, snapshot);
      branch := Some(db);
    }

    method Release()
      modifies this
      ensures snapshot == null
    {
      snapshot := null;
    }
  }

  /** Capture: only databases wholly on serialized engines can be captured; the first
      other collection by name is reported. */
  method Capture(heap: KeyHeap, db: Database) returns (r: Result<Checkpoint, CaptureError>)
    requires db.Valid() && heap !in db.Repr && Sound(heap.memory) && StorePointing(heap.memory, db.contents)
    modifies heap
    ensures db.foreign == NO_FOREIGN ==>
              && r.Ok? && fresh(r.value) && r.value.snapshot != null
              && r.value.snapshot.Valid() && fresh(r.value.snapshot.Repr) && r.value !in r.value.snapshot.Repr
              && r.value.snapshot.config == db.config && r.value.snapshot.foreign == NO_FOREIGN
              && Copies(old(heap.memory), db.contents, heap.memory, r.value.snapshot.contents)
    ensures db.foreign != NO_FOREIGN ==>
              && heap.memory == old(heap.memory)
              && r.Err?
              && if db.foreign.running != map[] then
                   && r.error.collection in db.foreign.running && r.error.mode == db.foreign.running[r.error.collection]
                   && forall c | c in db.foreign.running && c != r.error.collection :: StrLess(r.error.collection, c)
                 else
                   && r.error.collection in db.foreign.configured && r.error.mode == "non-serialized"
                   && forall c | c in db.foreign.configured && c != r.error.collection :: StrLess(r.error.collection, c)
  {
    if db.foreign.running != map[] {
      var name := First(db.foreign.running.Keys);
      return Err(Unsupported(name, db.foreign.running[name]));
    }
    if db.foreign.configured != {} {
      var name := First(db.foreign.configured);
      return Err(Unsupported(name, "non-serialized"));
    }
    var frozen := CopyDatabase(heap, db);
    var checkpoint := new Checkpoint(frozen);
    r := Ok(checkpoint);
  }

  /** The first of some names. */
  method First(names: set<string>) returns (name: string)
    requires names != {}
    ensures name in names && forall n | n in names && n != name :: StrLess(name, n)
  {
    name :| name in names;
    var pending := names - {name};
    while pending != {}
      invariant pending <= names && name in names
      invariant forall n | n in names - pending && n != name :: StrLess(name, n)
    {
      var n :| n in pending;
      pending := pending - {n};
      StrLessTotal(n, name);
      if StrLess(n, name) {
        forall m | m in names - pending && m != n
          ensures StrLess(n, m)
        {
          if m != name { StrLessTransitive(n, name, m); }
        }
        name := n;
      }
    }
  }
}
