/** What the operations of a database leave to be seen: the laws of a put, an insert under a
    generated id, a patch and a delete, record by record. */
module ShownChanges {
  import opened Ordering
  import opened Values
  import T = Table
  import opened PathUpdate
  import opened KeyMemory
  import opened Serialized
  import opened Branching
  import opened Calls

  /** The record seen in a collection under an id. */
  function RecordAt(v: Shown, c: string, id: string): Option<Entry<T.Key>> {
    if c in v && id in v[c] then Some(v[c][id]) else None
  }

  /** The record held there. */
  function HeldAt(s: Store, c: string, id: string): Option<Entry<nat>> {
    if c in s && id in s[c] then Some(s[c][id]) else None
  }

  /** Every other record is seen as before. */
  ghost predicate OthersStand(v: Shown, v': Shown, c: string, id: string) {
    forall c', id' | c' != c || id' != id :: RecordAt(v', c', id') == RecordAt(v, c', id')
  }

  ghost predicate OthersHeld(s: Store, s': Store, c: string, id: string) {
    forall c', id' | c' != c || id' != id :: HeldAt(s', c', id') == HeldAt(s, c', id')
  }

  /** A path of a seen document. */
  function DocAt(e: Option<Entry<T.Key>>, q: seq<string>): Option<Value>
    requires q != []
  {
    if e.Some? && e.value.doc.Obj? then Get(e.value.doc.fields, q) else None
  }

  lemma SeesHeld(m: Memory, s: Store, c: string, id: string)
    requires Sound(m) && StorePointing(m, s)
    ensures RecordAt(SeenIn(m, s), c, id) ==
            match HeldAt(s, c, id) case None => None case Some(e) => Some(Entry(e.doc, KeyAt(m, e.key)))
  {
  }

  lemma SeesOthers(m: Memory, s: Store, s': Store, c: string, id: string)
    requires Sound(m) && StorePointing(m, s) && StorePointing(m, s') && OthersHeld(s, s', c, id)
    ensures OthersStand(SeenIn(m, s), SeenIn(m, s'), c, id)
  {
    forall c', id' | c' != c || id' != id
      ensures RecordAt(SeenIn(m, s'), c', id') == RecordAt(SeenIn(m, s), c', id')
    {
      SeesHeld(m, s, c', id');
      SeesHeld(m, s', c', id');
    }
  }

  // ---- Set and Insert -----------------------------------------------------------------------

  lemma PutHeld(config: Config, s: Store, m: Memory, node: nat, data: Option<Value>, overwrite: bool)
    requires HasNode(m, node) && StorePointing(m, s)
    ensures var r, c, id := Applied(config, s, m, Put(node, data, overwrite)), KeyAt(m, node).collection, config.keyId(KeyAt(m, node));
            && r.memory == m && StorePointing(m, r.store) && OthersHeld(s, r.store, c, id)
            && (r.err == Some(UndefinedCollection) <==> !Allows(config, c))
            && (r.err == Some(AlreadyExists) <==> Allows(config, c) && !overwrite && HeldAt(s, c, id).Some?)
            && (r.err == None <==>
                  && Allows(config, c) && (overwrite || HeldAt(s, c, id).None?)
                  && data.Some? && Accepts(CheckOf(config, c), Norm(data.value)))
            && HeldAt(r.store, c, id) == (if r.err == None then Some(Entry(Norm(data.value), node)) else HeldAt(s, c, id))
  {
  }

  /** A put fails as existing exactly when overwrite is off and the id is seen; when it
      succeeds the id shows the data, after a trip through JSON, under what the key says;
      when it fails it shows what it showed; and no other record changes. */
  lemma PutShows(config: Config, s: Store, m: Memory, node: nat, data: Option<Value>, overwrite: bool)
    requires HasNode(m, node) && StorePointing(m, s)
    ensures var r, key := Applied(config, s, m, Put(node, data, overwrite)), KeyAt(m, node);
            var c, id := key.collection, config.keyId(key);
            && r.memory == m && StorePointing(m, r.store)
            && var v, v' := SeenIn(m, s), SeenIn(m, r.store);
               && (r.err == Some(UndefinedCollection) <==> !Allows(config, c))
               && (r.err == Some(AlreadyExists) <==> Allows(config, c) && !overwrite && RecordAt(v, c, id).Some?)
               && (r.err == None <==>
                     && Allows(config, c) && (overwrite || RecordAt(v, c, id).None?)
                     && data.Some? && Accepts(CheckOf(config, c), Norm(data.value)))
               && RecordAt(v', c, id) == (if r.err == None then Some(Entry(Norm(data.value), key)) else RecordAt(v, c, id))
               && OthersStand(v, v', c, id)
  {
    var r := Applied(config, s, m, Put(node, data, overwrite));
    var c, id := KeyAt(m, node).collection, config.keyId(KeyAt(m, node));
    PutHeld(config, s, m, node, data, overwrite);
    SeesHeld(m, s, c, id);
    SeesHeld(m, r.store, c, id);
    SeesOthers(m, s, r.store, c, id);
  }

  // ---- Delete -------------------------------------------------------------------------------

  /** A delete takes away the record under the key's id and nothing else. */
  lemma RemoveShows(config: Config, s: Store, m: Memory, node: nat)
    requires HasNode(m, node) && StorePointing(m, s)
    ensures var r, key := Applied(config, s, m, Remove(node)), KeyAt(m, node);
            var c, id := key.collection, config.keyId(key);
            && r.memory == m && r.err == None && StorePointing(m, r.store)
            && RecordAt(SeenIn(m, r.store), c, id) == None
            && OthersStand(SeenIn(m, s), SeenIn(m, r.store), c, id)
  {
    var r := Applied(config, s, m, Remove(node));
    var c, id := KeyAt(m, node).collection, config.keyId(KeyAt(m, node));
    assert OthersHeld(s, r.store, c, id);
    assert StorePointing(m, r.store);
    SeesHeld(m, r.store, c, id);
    SeesOthers(m, s, r.store, c, id);
  }

  // ---- Update -------------------------------------------------------------------------------

  /** Every document seen is as a trip through JSON leaves it. */
  ghost predicate Normal(v: Shown) {
    forall c, id | RecordAt(v, c, id).Some? :: Norm(RecordAt(v, c, id).value.doc) == RecordAt(v, c, id).value.doc
  }

  /** A path of a patched document: as before if no update touches it, and otherwise as
      the last update that does wrote it, after a trip through JSON. */
  ghost predicate PathPatched(e: Option<Entry<T.Key>>, e': Option<Entry<T.Key>>, updates: seq<Update>, q: seq<string>)
    requires q != []
  {
    && ((forall i | 0 <= i < |updates| :: !Touches(updates[i], q)) ==> DocAt(e', q) == DocAt(e, q))
    && (forall n: nat | LastTouch(updates, n, q) ::
          exists w :: WrittenBy(updates[n], q, w) && DocAt(e', q) == (match w case None => None case Some(x) => Some(Norm(x))))
  }

  lemma PatchedPath(doc: Fields, updates: seq<Update>, key: T.Key, q: seq<string>)
    requires q != [] && ApplyAll(doc, updates).Ok? && NormFields(doc) == doc
    ensures PathPatched(Some(Entry(Obj(doc), key)), Some(Entry(Norm(Obj(ApplyAll(doc, updates).value)), key)), updates, q)
  {
    var next := ApplyAll(doc, updates).value;
    ApplyReads(doc, updates, q);
    assert Norm(Obj(next)) == Obj(NormFields(next));
    NormGet(next, q);
    NormGet(doc, q);
  }

  /** The document is an object, every path can be walked, and the result has no field the
      collection does not know. */
  predicate Patchable(check: Check, doc: Value, updates: seq<Update>) {
    && doc.Obj? && ApplyAll(doc.fields, updates).Ok?
    && Accepts(check, Norm(Obj(ApplyAll(doc.fields, updates).value)))
  }

  lemma PatchHeld(config: Config, s: Store, m: Memory, node: nat, updates: seq<Update>)
    requires HasNode(m, node) && StorePointing(m, s)
    ensures var r, c, id := Applied(config, s, m, Patch(node, updates)), KeyAt(m, node).collection, config.keyId(KeyAt(m, node));
            && r.memory == m && StorePointing(m, r.store) && OthersHeld(s, r.store, c, id)
            && (r.err == Some(NotFound) <==> Allows(config, c) && HeldAt(s, c, id).None?)
            && (r.err == None <==>
                  && Allows(config, c) && HeldAt(s, c, id).Some?
                  && Patchable(CheckOf(config, c), HeldAt(s, c, id).value.doc, updates))
            && (r.err != None ==> HeldAt(r.store, c, id) == HeldAt(s, c, id))
            && (r.err == None ==>
                  && HeldAt(s, c, id).Some? && HeldAt(s, c, id).value.doc.Obj?
                  && var e := HeldAt(s, c, id).value;
                     && ApplyAll(e.doc.fields, updates).Ok?
                     && HeldAt(r.store, c, id) == Some(Entry(Norm(Obj(ApplyAll(e.doc.fields, updates).value)), e.key)))
  {
  }

  /** A patch fails as not found exactly when the id is not seen. When it succeeds every
      path of the document is as the updates say, and the key stays; when it fails the record
      stays; and no other record changes. */
  lemma PatchShows(config: Config, s: Store, m: Memory, node: nat, updates: seq<Update>)
    requires HasNode(m, node) && StorePointing(m, s) && Normal(SeenIn(m, s))
    ensures var r, key := Applied(config, s, m, Patch(node, updates)), KeyAt(m, node);
            var c, id := key.collection, config.keyId(key);
            && r.memory == m && StorePointing(m, r.store)
            && var v, v' := SeenIn(m, s), SeenIn(m, r.store);
               && (r.err == Some(NotFound) <==> Allows(config, c) && RecordAt(v, c, id).None?)
               && (r.err == None <==>
                     && Allows(config, c) && RecordAt(v, c, id).Some?
                     && Patchable(CheckOf(config, c), RecordAt(v, c, id).value.doc, updates))
               && (r.err != None ==> RecordAt(v', c, id) == RecordAt(v, c, id))
               && (r.err == None ==> RecordAt(v, c, id).Some? && RecordAt(v', c, id).Some? && RecordAt(v', c, id).value.key == RecordAt(v, c, id).value.key)
               && (r.err == None ==> forall q: seq<string> | q != [] :: PathPatched(RecordAt(v, c, id), RecordAt(v', c, id), updates, q))
               && OthersStand(v, v', c, id)
  {
    var r := Applied(config, s, m, Patch(node, updates));
    var c, id := KeyAt(m, node).collection, config.keyId(KeyAt(m, node));
    PatchHeld(config, s, m, node, updates);
    SeesHeld(m, s, c, id);
    SeesHeld(m, r.store, c, id);
    SeesOthers(m, s, r.store, c, id);
    if r.err == None {
      var doc := RecordAt(SeenIn(m, s), c, id).value.doc.fields;
      assert Norm(Obj(doc)) == Obj(NormFields(doc));
      forall q: seq<string> | q != []
        ensures PathPatched(RecordAt(SeenIn(m, s), c, id), RecordAt(SeenIn(m, r.store), c, id), updates, q)
      {
        PatchedPath(doc, updates, RecordAt(SeenIn(m, s), c, id).value.key, q);
      }
    }
  }

  // ---- Insert with a generated id -------------------------------------------------------------

  /** Attempt j yields an id that a record is stored under. */
  predicate Taken(config: Config, s: Store, key: T.Key, op: DbOp, j: nat)
    requires op.Generate?
  {
    op.generator(j).Some? && HeldAt(s, key.collection, config.keyId(key.(id := op.generator(j).value))).Some?
  }

  /** Attempt j, of those from i on, is the first whose id is free: the record is stored under it, and
      nothing else changes. */
  ghost predicate InsertedAt(config: Config, s: Store, s': Store, key: T.Key, op: DbOp, i: nat, j: nat)
    requires op.Generate?
  {
    && i <= j < MAX_ATTEMPTS && op.generator(j).Some? && op.data.Some?
    && (forall l: nat | i <= l < j :: Taken(config, s, key, op, l)) && !Taken(config, s, key, op, j)
    && var id := config.keyId(key.(id := op.generator(j).value));
       HeldAt(s', key.collection, id) == Some(Entry(Norm(op.data.value), op.node)) && OthersHeld(s, s', key.collection, id)
  }

  ghost predicate SameHeld(s: Store, s': Store) {
    forall c, id :: HeldAt(s', c, id) == HeldAt(s, c, id)
  }

  /** An insert that fails stores nothing; one that succeeds stores under the first free id. */
  ghost predicate InsertedOrNot(config: Config, s: Store, r: Branching.Outcome, key: T.Key, op: DbOp, i: nat)
    requires op.Generate? && HasNode(r.memory, op.node)
  {
    && (r.err.Some? ==> SameHeld(s, r.store))
    && (r.err == Some(TooManyAttempts) <==> forall j: nat | i <= j < MAX_ATTEMPTS :: Taken(config, s, key, op, j))
    && (r.err.None? ==> exists j: nat ::
          InsertedAt(config, s, r.store, key, op, i, j) && KeyAt(r.memory, op.node) == key.(id := op.generator(j).value))
  }

  lemma TakenSame(config: Config, s: Store, s': Store, key: T.Key, op: DbOp, j: nat)
    requires op.Generate? && SameHeld(s, s')
    ensures Taken(config, s', key, op, j) == Taken(config, s, key, op, j)
  {
  }

  lemma SavedNew(config: Config, s: Store, m: Memory, node: nat, data: Option<Value>)
    requires HasNode(m, node) && HeldAt(s, m.cells[node].collection, StorageId(config, m, node)).None?
    ensures var r, c, id := Saved(config, s, m, node, data, false), m.cells[node].collection, StorageId(config, m, node);
            && r.memory == m && r.err != Some(TooManyAttempts)
            && (r.err.Some? ==> SameHeld(s, r.store))
            && (r.err.None? ==> data.Some? && HeldAt(r.store, c, id) == Some(Entry(Norm(data.value), node)) && OthersHeld(s, r.store, c, id))
  {
  }

  lemma {:induction false} GenerateFinds(config: Config, s: Store, m: Memory, op: DbOp, key: T.Key, i: nat)
    requires HasNode(m, op.node) && op.Generate? && i <= MAX_ATTEMPTS
    requires KeyAt(m, op.node) == key.(id := KeyAt(m, op.node).id)
    ensures HasNode(Generated(config, s, m, op, i).memory, op.node)
    ensures InsertedOrNot(config, s, Generated(config, s, m, op, i), key, op, i)
    decreases MAX_ATTEMPTS - i
  {
    GeneratedMemory(config, s, m, op, i);
    var r := Generated(config, s, m, op, i);
    if i < MAX_ATTEMPTS && op.generator(i).Some? {
      IdMoves(m, op.node, op.generator(i).value);
      var m', c := WithId(m, op.node, Atom(op.generator(i).value)), key.collection;
      var s' := s[c := DocsIn(s, c)];
      assert SameHeld(s, s');
      if Taken(config, s, key, op, i) {
        GenerateFinds(config, s', m', op, key, i + 1);
        LaterAttempt(config, s, s', r, key, op, i);
      } else {
        SavedNew(config, s', m', op.node, op.data);
        if r.err.None? {
          assert InsertedAt(config, s, r.store, key, op, i, i);
        }
      }
    } else if i < MAX_ATTEMPTS {
      assert !Taken(config, s, key, op, i);
    }
  }

  lemma LaterAttempt(config: Config, s: Store, s': Store, r: Branching.Outcome, key: T.Key, op: DbOp, i: nat)
    requires op.Generate? && HasNode(r.memory, op.node) && i < MAX_ATTEMPTS && SameHeld(s, s') && Taken(config, s, key, op, i)
    requires InsertedOrNot(config, s', r, key, op, i + 1)
    ensures InsertedOrNot(config, s, r, key, op, i)
  {
    forall j: nat
      ensures Taken(config, s', key, op, j) == Taken(config, s, key, op, j)
    {
      TakenSame(config, s, s', key, op, j);
    }
    if r.err.None? {
      var j: nat :| InsertedAt(config, s', r.store, key, op, i + 1, j) && KeyAt(r.memory, op.node) == key.(id := op.generator(j).value);
      assert InsertedAt(config, s, r.store, key, op, i, j);
    }
  }

  /** An attempt whose id is seen. */
  predicate SeenTaken(config: Config, v: Shown, key: T.Key, op: DbOp, j: nat)
    requires op.Generate?
  {
    op.generator(j).Some? && RecordAt(v, key.collection, config.keyId(key.(id := op.generator(j).value))).Some?
  }

  lemma SeenTakenIs(config: Config, s: Store, m: Memory, key: T.Key, op: DbOp, j: nat)
    requires Sound(m) && StorePointing(m, s) && op.Generate?
    ensures SeenTaken(config, SeenIn(m, s), key, op, j) == Taken(config, s, key, op, j)
  {
  }

  /** Attempt j is the first whose id is not seen; the record shows under it, with a key
      that says it, and the others as in moved. */
  ghost predicate ShownAt(config: Config, v: Shown, moved: Shown, v': Shown, key: T.Key, key': T.Key, op: DbOp, j: nat)
    requires op.Generate?
  {
    && j < MAX_ATTEMPTS && op.generator(j).Some? && op.data.Some? && key' == key.(id := op.generator(j).value)
    && (forall l: nat | l < j :: SeenTaken(config, v, key, op, l)) && !SeenTaken(config, v, key, op, j)
    && RecordAt(v', key'.collection, config.keyId(key')) == Some(Entry(Norm(op.data.value), key'))
    && OthersStand(moved, v', key'.collection, config.keyId(key'))
  }

  lemma InsertedShows(config: Config, s: Store, m: Memory, r: Branching.Outcome, key: T.Key, op: DbOp, j: nat)
    requires Sound(m) && StorePointing(m, s) && op.Generate? && HasNode(r.memory, op.node)
    requires StorePointing(r.memory, s) && StorePointing(r.memory, r.store)
    requires InsertedAt(config, s, r.store, key, op, 0, j) && KeyAt(r.memory, op.node) == key.(id := op.generator(j).value)
    ensures ShownAt(config, SeenIn(m, s), SeenIn(r.memory, s), SeenIn(r.memory, r.store), key, KeyAt(r.memory, op.node), op, j)
  {
    var key' := KeyAt(r.memory, op.node);
    forall l: nat
      ensures SeenTaken(config, SeenIn(m, s), key, op, l) == Taken(config, s, key, op, l)
    {
      SeenTakenIs(config, s, m, key, op, l);
    }
    SeesHeld(r.memory, r.store, key'.collection, config.keyId(key'));
    SeesOthers(r.memory, s, r.store, key'.collection, config.keyId(key'));
  }

  /** An insert with a generator takes the first id that is free, shows the data under it and
      leaves the records there were as they now show: as they did, if no stored chain passes
      through the key the id is assigned to. An insert that fails adds nothing. */
  lemma GenerateShows(config: Config, s: Store, m: Memory, op: DbOp)
    requires HasNode(m, op.node) && StorePointing(m, s) && op.Generate?
    ensures var r := Applied(config, s, m, op);
            && HasNode(r.memory, op.node) && StorePointing(r.memory, s) && StorePointing(r.memory, r.store)
            && var v, moved, v' := SeenIn(m, s), SeenIn(r.memory, s), SeenIn(r.memory, r.store);
               && (!Reaches(m, s, IdOf(op.node)) ==> moved == v)
               && (r.err.Some? ==> forall c, id :: RecordAt(v', c, id) == RecordAt(moved, c, id))
               && (r.err == Some(TooManyAttempts) <==> forall j: nat | j < MAX_ATTEMPTS :: SeenTaken(config, v, KeyAt(m, op.node), op, j))
               && (r.err.None? ==> exists j: nat ::
                     ShownAt(config, v, moved, v', KeyAt(m, op.node), KeyAt(r.memory, op.node), op, j))
  {
    var r, key := Applied(config, s, m, op), KeyAt(m, op.node);
    CalledIff(config, s, m, op);
    GeneratedMemory(config, s, m, op, 0);
    GenerateFinds(config, s, m, op, key, 0);
    AssignSeenIff(m, s, op.node, r.memory.cells[op.node].id);
    forall j: nat
      ensures SeenTaken(config, SeenIn(m, s), key, op, j) == Taken(config, s, key, op, j)
    {
      SeenTakenIs(config, s, m, key, op, j);
    }
    if r.err.None? {
      var j: nat :| InsertedAt(config, s, r.store, key, op, 0, j) && KeyAt(r.memory, op.node) == key.(id := op.generator(j).value);
      InsertedShows(config, s, m, r, key, op, j);
    } else {
      forall c, id
        ensures RecordAt(SeenIn(r.memory, r.store), c, id) == RecordAt(SeenIn(r.memory, s), c, id)
      {
        SeesHeld(r.memory, s, c, id);
        SeesHeld(r.memory, r.store, c, id);
        assert HeldAt(r.store, c, id) == HeldAt(s, c, id);
      }
    }
  }

  // ---- Documents stay normal ------------------------------------------------------------------

  lemma NormalIs(m: Memory, s: Store)
    requires Sound(m) && StorePointing(m, s)
    ensures Normal(SeenIn(m, s)) <==> forall c, id | HeldAt(s, c, id).Some? :: Norm(HeldAt(s, c, id).value.doc) == HeldAt(s, c, id).value.doc
  {
    forall c, id
      ensures RecordAt(SeenIn(m, s), c, id).Some? == HeldAt(s, c, id).Some?
      ensures HeldAt(s, c, id).Some? ==> RecordAt(SeenIn(m, s), c, id).value.doc == HeldAt(s, c, id).value.doc
    {
      SeesHeld(m, s, c, id);
    }
  }

  /** Whatever an operation leaves in the store was there or is as JSON leaves it, so the
      documents seen are normal in every reachable database. */
  lemma NormalStays(config: Config, s: Store, m: Memory, op: DbOp)
    requires HasNode(m, op.node) && StorePointing(m, s) && Normal(SeenIn(m, s))
    ensures var r := Applied(config, s, m, op);
            Sound(r.memory) && StorePointing(r.memory, r.store) && Normal(SeenIn(r.memory, r.store))
  {
    var r := Applied(config, s, m, op);
    CalledIff(config, s, m, op);
    NormalIs(m, s);
    NormalIs(r.memory, r.store);
    forall c, id | HeldAt(r.store, c, id).Some?
      ensures Norm(HeldAt(r.store, c, id).value.doc) == HeldAt(r.store, c, id).value.doc
    {
      HeldIsNormal(config, s, m, op, c, id);
    }
  }

  lemma HeldIsNormal(config: Config, s: Store, m: Memory, op: DbOp, c: string, id: string)
    requires HasNode(m, op.node) && StorePointing(m, s) && HeldAt(Applied(config, s, m, op).store, c, id).Some?
    requires forall c', id' | HeldAt(s, c', id').Some? :: Norm(HeldAt(s, c', id').value.doc) == HeldAt(s, c', id').value.doc
    ensures var doc := HeldAt(Applied(config, s, m, op).store, c, id).value.doc; Norm(doc) == doc
  {
    var r, key := Applied(config, s, m, op), KeyAt(m, op.node);
    var e := HeldAt(r.store, c, id).value;
    if HeldAt(s, c, id) != Some(e) {
      match op {
        case Put(node, data, overwrite) =>
          PutHeld(config, s, m, node, data, overwrite);
          NormIdempotent(data.value);
        case Patch(node, updates) =>
          PatchHeld(config, s, m, node, updates);
          NormIdempotent(Obj(ApplyAll(HeldAt(s, key.collection, config.keyId(key)).value.doc.fields, updates).value));
        case Generate(node, _, data) =>
          GenerateFinds(config, s, m, op, key, 0);
          if r.err.None? {
            var j: nat :| InsertedAt(config, s, r.store, key, op, 0, j) && KeyAt(r.memory, op.node) == key.(id := op.generator(j).value);
            NormIdempotent(data.value);
          }
        case Remove(_) =>
      }
    }
  }

  // ---- Listings -----------------------------------------------------------------------------

  /** A listing can be had exactly when every document is an object or null, and shows of every
      record its fields and its key. */
  lemma ListingShows(t: Docs, rows: seq<T.Row>, id: string)
    requires Lists(t, rows)
    ensures id in t <==> exists r :: r in rows && r.id == id
    ensures forall r | r in rows ::
              && r.id in t && r.key == Some(t[r.id].key)
              && (if t[r.id].doc.Obj? then r.data == t[r.id].doc.fields else t[r.id].doc.Nil? && r.data == map[])
  {
    if id in t {
      assert RowOf(t, id) in rows;
    }
  }
}
