/** Operations on a database by value: what is seen after an operation depends on what was
    seen before, on what the key passed says, and on nothing else, unless the operation
    writes to a key the database already holds. */
module Calls {
  import opened Ordering
  import opened Values
  import T = Table
  import PathUpdate
  import opened KeyMemory
  import opened Serialized
  import opened Branching

  type Shown = map<string, Docs>

  /** An operation with what its key says instead of a pointer to it. */
  datatype Call =
    | CallPut(key: T.Key, data: Option<Value>, overwrite: bool)
    | CallGenerate(key: T.Key, generator: nat -> Option<Value>, data: Option<Value>)
    | CallPatch(key: T.Key, updates: seq<PathUpdate.Update>)
    | CallRemove(key: T.Key)

  function CallOf(m: Memory, op: DbOp): Call
    requires HasNode(m, op.node)
  {
    var key := KeyAt(m, op.node);
    match op
    case Put(_, data, overwrite) => CallPut(key, data, overwrite)
    case Generate(_, generator, data) => CallGenerate(key, generator, data)
    case Patch(_, updates) => CallPatch(key, updates)
    case Remove(_) => CallRemove(key)
  }

  datatype Effect = Effect(shown: Shown, err: Option<Failure>)

  function DocsShown(v: Shown, c: string): Docs {
    if c in v then v[c] else map[]
  }

  function Kept(v: Shown, c: string, r: Result<Docs, Failure>): Effect {
    match r
    case Err(e) => Effect(v[c := DocsShown(v, c)], Some(e))
    case Ok(t) => Effect(v[c := t], None)
  }

  function CalledPut(config: Config, v: Shown, key: T.Key, data: Option<Value>, overwrite: bool): Effect {
    var c := key.collection;
    if !Allows(config, c) then Effect(v, Some(UndefinedCollection))
    else Kept(v, c, Stored(CheckOf(config, c), DocsShown(v, c), config.keyId(key), key, data, overwrite))
  }

  /** From attempt i on: the key gets ids until one is free. */
  function CalledGenerate(config: Config, v: Shown, call: Call, i: nat): Effect
    requires call.CallGenerate? && i <= MAX_ATTEMPTS
    decreases MAX_ATTEMPTS - i
  {
    if i == MAX_ATTEMPTS then Effect(v, Some(TooManyAttempts))
    else if call.generator(i).None? then Effect(v, Some(GeneratorFailed))
    else
      var key := call.key.(id := call.generator(i).value);
      var c := key.collection;
      var v' := v[c := DocsShown(v, c)];
      if config.keyId(key) in DocsShown(v, c) then CalledGenerate(config, v', call, i + 1)
      else CalledPut(config, v', key, call.data, false)
  }

  /** What is seen after a call, and its error. */
  function Called(config: Config, v: Shown, call: Call): Effect {
    var c := call.key.collection;
    match call
    case CallPut(key, data, overwrite) => CalledPut(config, v, key, data, overwrite)
    case CallGenerate(_, _, _) => CalledGenerate(config, v, call, 0)
    case CallPatch(key, updates) =>
      if !Allows(config, c) then Effect(v, Some(UndefinedCollection))
      else Kept(v, c, Updated(CheckOf(config, c), DocsShown(v, c), config.keyId(key), updates))
    case CallRemove(key) => Effect(v[c := DocsShown(v, c) - {config.keyId(key)}], None)
  }

  // ---- Calls without a generated id ----------------------------------------------------------

  /** Showing is done collection by collection. */
  lemma SeenWith(m: Memory, s: Store, c: string, t: Held)
    requires Sound(m) && StorePointing(m, s) && Pointing(m, t)
    ensures StorePointing(m, s[c := t]) && SeenIn(m, s[c := t]) == SeenIn(m, s)[c := Seen(m, t)]
    ensures Pointing(m, DocsIn(s, c)) && Seen(m, DocsIn(s, c)) == DocsShown(SeenIn(m, s), c)
  {
  }

  lemma StoredSeen(m: Memory, check: Check, t: Held, id: string, node: nat, data: Option<Value>, overwrite: bool)
    requires Pointing(m, t) && HasNode(m, node)
    ensures var r, shown := Stored(check, t, id, node, data, overwrite), Stored(check, Seen(m, t), id, KeyAt(m, node), data, overwrite);
            if r.Err? then shown == Err(r.error) else Pointing(m, r.value) && shown == Ok(Seen(m, r.value))
  {
    var r := Stored(check, t, id, node, data, overwrite);
    if r.Ok? {
      assert Seen(m, r.value) == Seen(m, t)[id := Entry(Norm(data.value), KeyAt(m, node))];
    }
  }

  lemma UpdatedSeen(m: Memory, check: Check, t: Held, id: string, updates: seq<PathUpdate.Update>)
    requires Sound(m) && Pointing(m, t)
    ensures var r, shown := Updated(check, t, id, updates), Updated(check, Seen(m, t), id, updates);
            if r.Err? then shown == Err(r.error) else Pointing(m, r.value) && shown == Ok(Seen(m, r.value))
  {
    var r := Updated(check, t, id, updates);
    if r.Ok? {
      assert Seen(m, r.value) == Seen(m, t)[id := Entry(r.value[id].doc, KeyAt(m, t[id].key))];
    }
  }

  lemma PutSeen(config: Config, s: Store, m: Memory, node: nat, data: Option<Value>, overwrite: bool)
    requires StorePointing(m, s) && HasNode(m, node)
    ensures var r := Saved(config, s, m, node, data, overwrite);
            StorePointing(m, r.store) && Effect(SeenIn(m, r.store), r.err) == CalledPut(config, SeenIn(m, s), KeyAt(m, node), data, overwrite)
  {
    var c := m.cells[node].collection;
    SeenWith(m, s, c, DocsIn(s, c));
    StoredSeen(m, CheckOf(config, c), DocsIn(s, c), StorageId(config, m, node), node, data, overwrite);
    var r := Stored(CheckOf(config, c), DocsIn(s, c), StorageId(config, m, node), node, data, overwrite);
    if r.Ok? {
      SeenWith(m, s, c, r.value);
    }
  }

  lemma PatchSeen(config: Config, s: Store, m: Memory, node: nat, updates: seq<PathUpdate.Update>)
    requires StorePointing(m, s) && HasNode(m, node)
    ensures var r := Patched(config, s, m, node, updates);
            StorePointing(m, r.store) && Effect(SeenIn(m, r.store), r.err) == Called(config, SeenIn(m, s), CallPatch(KeyAt(m, node), updates))
  {
    var c := m.cells[node].collection;
    SeenWith(m, s, c, DocsIn(s, c));
    UpdatedSeen(m, CheckOf(config, c), DocsIn(s, c), StorageId(config, m, node), updates);
    var r := Updated(CheckOf(config, c), DocsIn(s, c), StorageId(config, m, node), updates);
    if r.Ok? {
      SeenWith(m, s, c, r.value);
    }
  }

  lemma RemoveSeen(config: Config, s: Store, m: Memory, node: nat)
    requires StorePointing(m, s) && HasNode(m, node)
    ensures var r := Removed(config, s, m, node);
            StorePointing(m, r.store) && Effect(SeenIn(m, r.store), r.err) == Called(config, SeenIn(m, s), CallRemove(KeyAt(m, node)))
  {
    var c := m.cells[node].collection;
    var t := DocsIn(s, c) - {StorageId(config, m, node)};
    SeenWith(m, s, c, DocsIn(s, c));
    SeenWith(m, s, c, t);
    assert Seen(m, t) == Seen(m, DocsIn(s, c)) - {StorageId(config, m, node)};
  }

  // ---- Calls that generate an id --------------------------------------------------------------

  /** The stored records and the shown ones have the same ids. */
  predicate SameIds(s: Store, v: Shown) {
    s.Keys == v.Keys && forall c | c in s :: s[c].Keys == v[c].Keys
  }

  /** From s and v to s' and v': old records stay, and a new one is stored under the caller's
      key and shown with what that key says. */
  ghost predicate Grew(s: Store, v: Shown, s': Store, v': Shown, m': Memory, node: nat)
    requires HasNode(m', node)
  {
    && SameIds(s, v) && SameIds(s', v')
    && (forall c, id | Has(s, c, id) :: Has(s', c, id) && s'[c][id] == s[c][id] && v'[c][id] == v[c][id])
    && (forall c, id | Has(s', c, id) && !Has(s, c, id) :: s'[c][id].key == node && v'[c][id] == Entry(s'[c][id].doc, KeyAt(m', node)))
  }

  lemma TouchGrew(s: Store, v: Shown, c: string, s': Store, v': Shown, m': Memory, node: nat)
    requires HasNode(m', node) && SameIds(s, v)
    requires Grew(s[c := DocsIn(s, c)], v[c := DocsShown(v, c)], s', v', m', node)
    ensures Grew(s, v, s', v', m', node)
  {
    forall c', id
      ensures Has(s[c := DocsIn(s, c)], c', id) <==> Has(s, c', id)
    {
    }
  }

  /** Touching a collection stores nothing. */
  lemma NothingGrew(s: Store, v: Shown, c: string, m: Memory, node: nat)
    requires HasNode(m, node) && SameIds(s, v)
    ensures Grew(s, v, s[c := DocsIn(s, c)], v[c := DocsShown(v, c)], m, node)
  {
    forall c', id
      ensures Has(s[c := DocsIn(s, c)], c', id) <==> Has(s, c', id)
    {
    }
  }

  lemma NoneGrew(s: Store, v: Shown, m: Memory, node: nat)
    requires HasNode(m, node) && SameIds(s, v)
    ensures Grew(s, v, s, v, m, node)
  {
  }

  lemma EntryGrew(s: Store, v: Shown, c: string, id: string, doc: Value, m: Memory, node: nat)
    requires HasNode(m, node) && SameIds(s, v) && id !in DocsIn(s, c)
    ensures Grew(s, v, s[c := DocsIn(s, c)[id := Entry(doc, node)]], v[c := DocsShown(v, c)[id := Entry(doc, KeyAt(m, node))]], m, node)
  {
    var s' := s[c := DocsIn(s, c)[id := Entry(doc, node)]];
    forall c', id'
      ensures Has(s', c', id') <==> Has(s, c', id') || (c' == c && id' == id)
    {
    }
  }

  lemma PutGrew(config: Config, s: Store, v: Shown, m: Memory, node: nat, data: Option<Value>)
    requires HasNode(m, node) && SameIds(s, v)
    ensures var r, e := Saved(config, s, m, node, data, false), CalledPut(config, v, KeyAt(m, node), data, false);
            e.err == r.err && Grew(s, v, r.store, e.shown, m, node)
  {
    var c, id := m.cells[node].collection, StorageId(config, m, node);
    NothingGrew(s, v, c, m, node);
    assert DocsIn(s, c).Keys == DocsShown(v, c).Keys;
    if Allows(config, c) && data.Some? && id !in DocsIn(s, c) {
      EntryGrew(s, v, c, id, Norm(data.value), m, node);
    }
  }

  /** A key with another id says the same but for the id. */
  lemma IdMoves(m: Memory, node: nat, id: Value)
    requires HasNode(m, node)
    ensures HasNode(WithId(m, node, Atom(id)), node)
    ensures KeyAt(WithId(m, node, Atom(id)), node) == KeyAt(m, node).(id := id)
  {
    var cell := m.cells[node];
    if cell.parent.Some? {
      ChainIsBelow(m, cell.parent.value, node);
      AssignShowsIff(m, node, Atom(id), cell.parent.value);
    }
  }

  /** One attempt, on the store and on what is shown. */
  lemma OneAttempt(config: Config, s: Store, v: Shown, m: Memory, op: DbOp, key: T.Key, i: nat)
    requires HasNode(m, op.node) && op.Generate? && i < MAX_ATTEMPTS && op.generator(i).Some? && SameIds(s, v)
    requires KeyAt(m, op.node) == key.(id := KeyAt(m, op.node).id)
    ensures var call := CallGenerate(key, op.generator, op.data);
            var m', c := WithId(m, op.node, Atom(op.generator(i).value)), key.collection;
            var s', v' := s[c := DocsIn(s, c)], v[c := DocsShown(v, c)];
            && HasNode(m', op.node) && KeyAt(m', op.node) == key.(id := op.generator(i).value)
            && if StorageId(config, m', op.node) in DocsIn(s, c) then
                 && Generated(config, s, m, op, i) == Generated(config, s', m', op, i + 1)
                 && CalledGenerate(config, v, call, i) == CalledGenerate(config, v', call, i + 1)
               else
                 && Generated(config, s, m, op, i) == Saved(config, s', m', op.node, op.data, false)
                 && CalledGenerate(config, v, call, i) == CalledPut(config, v', KeyAt(m', op.node), op.data, false)
  {
    IdMoves(m, op.node, op.generator(i).value);
    assert DocsIn(s, key.collection).Keys == DocsShown(v, key.collection).Keys;
  }

  lemma {:induction false} GenerateGrew(config: Config, s: Store, v: Shown, m: Memory, op: DbOp, key: T.Key, i: nat)
    requires HasNode(m, op.node) && op.Generate? && i <= MAX_ATTEMPTS && SameIds(s, v)
    requires KeyAt(m, op.node) == key.(id := KeyAt(m, op.node).id)
    ensures var r, e := Generated(config, s, m, op, i), CalledGenerate(config, v, CallGenerate(key, op.generator, op.data), i);
            HasNode(r.memory, op.node) && e.err == r.err && Grew(s, v, r.store, e.shown, r.memory, op.node)
    decreases MAX_ATTEMPTS - i
  {
    GeneratedMemory(config, s, m, op, i);
    if i < MAX_ATTEMPTS && op.generator(i).Some? {
      OneAttempt(config, s, v, m, op, key, i);
      var m', c := WithId(m, op.node, Atom(op.generator(i).value)), key.collection;
      var s', v' := s[c := DocsIn(s, c)], v[c := DocsShown(v, c)];
      if StorageId(config, m', op.node) in DocsIn(s, c) {
        GenerateGrew(config, s', v', m', op, key, i + 1);
      } else {
        PutGrew(config, s', v', m', op.node, op.data);
      }
      var r, e := Generated(config, s, m, op, i), CalledGenerate(config, v, CallGenerate(key, op.generator, op.data), i);
      TouchGrew(s, v, c, r.store, e.shown, r.memory, op.node);
    } else {
      NoneGrew(s, v, WithId(m, op.node, Atom(Nil)), op.node);
    }
  }

  /** What grew is what is shown if and only if the records there were still show the same. */
  lemma GrewSeen(m: Memory, s: Store, s': Store, v': Shown, m': Memory, node: nat)
    requires Sound(m) && StorePointing(m, s) && HasNode(m', node) && StorePointing(m', s)
    requires Grew(s, SeenIn(m, s), s', v', m', node)
    ensures StorePointing(m', s')
    ensures SeenIn(m', s') == v' <==> SeenIn(m', s) == SeenIn(m, s)
  {
    forall c, id | Has(s', c, id)
      ensures s'[c][id].key < |m'.cells|
    {
      assert Has(s, c, id) ==> s'[c][id] == s[c][id];
    }
    SeenSame(m, s, m', s);
    ShownSame(m', s', v');
    forall c, id | Has(s, c, id)
      ensures v'[c][id] == Entry(s[c][id].doc, KeyAt(m, s[c][id].key))
    {
    }
  }

  lemma ShownSame(m: Memory, s: Store, v: Shown)
    requires Sound(m) && StorePointing(m, s) && SameIds(s, v)
    ensures SeenIn(m, s) == v <==> forall c, id | Has(s, c, id) :: v[c][id] == Entry(s[c][id].doc, KeyAt(m, s[c][id].key))
  {
    if forall c, id | Has(s, c, id) :: v[c][id] == Entry(s[c][id].doc, KeyAt(m, s[c][id].key)) {
      forall c | c in s
        ensures Seen(m, s[c]) == v[c]
      {
        forall id | id in s[c]
          ensures Seen(m, s[c])[id] == v[c][id]
        {
          assert Has(s, c, id);
        }
      }
    }
  }

  /** One operation: its error is the call's. What is seen after it is what the call gives,
      if and only if the records there were do not change under the id it generates. */
  lemma CalledIff(config: Config, s: Store, m: Memory, op: DbOp)
    requires StorePointing(m, s) && HasNode(m, op.node)
    ensures var r, e := Applied(config, s, m, op), Called(config, SeenIn(m, s), CallOf(m, op));
            && Sound(r.memory) && StorePointing(r.memory, r.store) && StorePointing(r.memory, s)
            && r.err == e.err
            && (SeenIn(r.memory, r.store) == e.shown <==> SeenIn(r.memory, s) == SeenIn(m, s))
  {
    match op
    case Put(node, data, overwrite) => PutSeen(config, s, m, node, data, overwrite);
    case Patch(node, updates) => PatchSeen(config, s, m, node, updates);
    case Remove(node) => RemoveSeen(config, s, m, node);
    case Generate(node, generator, data) =>
      GeneratedMemory(config, s, m, op, 0);
      GenerateGrew(config, s, SeenIn(m, s), m, op, KeyAt(m, node), 0);
      var r, e := Applied(config, s, m, op), Called(config, SeenIn(m, s), CallOf(m, op));
      GrewSeen(m, s, r.store, e.shown, r.memory, node);
  }
}
