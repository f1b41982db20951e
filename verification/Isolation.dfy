/** Whole runs over databases, checkpoints, branches and the pointers callers hold: what
    one database does is seen in another exactly when they share a key. */
module Isolation {
  import opened Ordering
  import opened Values
  import T = Table
  import opened KeyMemory
  import opened Serialized
  import opened Branching

  // ---- The world as a value ---------------------------------------------------------------

  datatype Db = Db(config: Config, foreign: Foreign, store: Store)

  /** Live databases, the source and its branches, and the checkpoints taken. known is
      everything callers hold a pointer to: the keys they made and those a query handed
      back, with their parents and arrays. */
  datatype World = World(live: seq<Db>, frozen: seq<Option<Db>>, memory: Memory, known: set<Location>)

  datatype WorldOp =
    | NewSlice(fields: seq<Value>)
    | NewKey(collection: string, id: Id, parent: Option<nat>)
    | AssignId(node: nat, id: Id)
    | Refill(slice: nat, fields: seq<Value>)
    | On(db: nat, op: DbOp)
    | KeyOf(db: nat, collection: string, stored: string)
    | CaptureOf(db: nat)
    | BranchOf(checkpoint: nat)
    | ReleaseOf(checkpoint: nat)

  datatype Reply =
    | Made(address: nat)
    | Assigned
    | Wrote(err: Option<Failure>)
    | Key(address: nat)
    | NoRecord
    | Captured(checkpoint: nat)
    | CaptureUnsupported
    | Branched(db: nat)
    | ErrReleased
    | Released
    | NoSuchTarget

  /** A live database or a checkpoint's copy. */
  datatype Place = Live(i: nat) | Frozen(j: nat)

  predicate IsPlace(w: World, p: Place) {
    match p
    case Live(i) => i < |w.live|
    case Frozen(j) => j < |w.frozen| && w.frozen[j].Some?
  }

  function DbAt(w: World, p: Place): Db
    requires IsPlace(w, p)
  {
    match p
    case Live(i) => w.live[i]
    case Frozen(j) => w.frozen[j].value
  }

  ghost predicate Located(w: World) {
    && Sound(w.memory)
    && forall p | IsPlace(w, p) :: StorePointing(w.memory, DbAt(w, p).store)
  }

  /** What is seen in a database. */
  ghost function View(w: World, p: Place): map<string, Docs>
    requires IsPlace(w, p) && Located(w)
  {
    SeenIn(w.memory, DbAt(w, p).store)
  }

  ghost predicate ReachesAt(w: World, p: Place, at: Location)
    requires Located(w) && IsPlace(w, p)
  {
    Reaches(w.memory, DbAt(w, p).store, at)
  }

  /** Who holds a key holds what it leads to. */
  ghost predicate Closed(m: Memory, known: set<Location>)
    requires Sound(m)
  {
    && (forall at | at in known :: InMemory(m, at))
    && forall a: nat | IdOf(a) in known :: a < |m.cells| && Reach(m, a) <= known
  }

  /** Nobody outside holds anything of a checkpoint, and what two databases share
      callers hold. */
  ghost predicate Sane(w: World) {
    && Located(w)
    && Closed(w.memory, w.known)
    && (forall j, at | IsPlace(w, Frozen(j)) && ReachesAt(w, Frozen(j), at) :: at !in w.known)
    && (forall p, q, at | IsPlace(w, p) && IsPlace(w, q) && p != q && ReachesAt(w, p, at) && ReachesAt(w, q, at) :: at in w.known)
  }

  /** An id a caller can assign: it holds the array of a composite one. */
  predicate IdHeld(w: World, id: Id) {
    SliceOf(id) <= w.known
  }

  /** The pointers an operation needs are held. */
  predicate Callable(w: World, op: WorldOp) {
    match op
    case NewSlice(_) => true
    case NewKey(_, id, parent) => IdHeld(w, id) && (parent.Some? ==> IdOf(parent.value) in w.known)
    case AssignId(node, id) => IdOf(node) in w.known && IdHeld(w, id)
    case Refill(slice, _) => FieldsOf(slice) in w.known
    case On(db, o) => db < |w.live| && IdOf(o.node) in w.known
    case KeyOf(db, _, _) => db < |w.live|
    case CaptureOf(db) => db < |w.live|
    case BranchOf(j) => j < |w.frozen|
    case ReleaseOf(j) => j < |w.frozen|
  }

  function AfterOp(d: Db, m: Memory, op: DbOp): Db
    requires HasNode(m, op.node)
  {
    d.(store := Applied(d.config, d.store, m, op).store)
  }

  /** One step. Copies of a checkpoint's keys may be laid out in memory in any order. */
  ghost predicate Steps(w: World, op: WorldOp, w': World, reply: Reply)
    requires Sane(w)
  {
    if !Callable(w, op) then w' == w && reply == NoSuchTarget
    else
      var m := w.memory;
      match op
      case NewSlice(fields) =>
        && reply == Made(|m.slices|)
        && w' == w.(memory := m.(slices := m.slices + [fields]), known := w.known + {FieldsOf(|m.slices|)})
      case NewKey(collection, id, parent) =>
        && reply == Made(|m.cells|)
        && w' == w.(memory := m.(cells := m.cells + [Cell(collection, id, parent)]), known := w.known + {IdOf(|m.cells|)})
      case AssignId(node, id) => reply == Assigned && w' == w.(memory := WithId(m, node, id))
      case Refill(slice, fields) => reply == Assigned && w' == w.(memory := WithFields(m, slice, fields))
      case On(i, o) =>
        var r := Applied(w.live[i].config, w.live[i].store, m, o);
        reply == Wrote(r.err) && w' == w.(live := w.live[i := AfterOp(w.live[i], m, o)], memory := r.memory)
      case KeyOf(i, c, id) =>
        var s := w.live[i].store;
        if Has(s, c, id) then
          assert IsPlace(w, Live(i)) && DbAt(w, Live(i)).store == s;
          reply == Key(s[c][id].key) && w' == w.(known := w.known + Reach(m, s[c][id].key))
        else reply == NoRecord && w' == w
      case CaptureOf(i) =>
        if w.live[i].foreign != NO_FOREIGN then reply == CaptureUnsupported && w' == w
        else
          assert IsPlace(w, Live(i));
          && reply == Captured(|w.frozen|)
          && |w'.frozen| == |w.frozen| + 1 && w'.frozen[|w.frozen|].Some?
          && var copy := w'.frozen[|w.frozen|].value;
             && copy == w.live[i].(store := copy.store)
             && w' == w.(frozen := w.frozen + [Some(copy)], memory := w'.memory)
             && Copies(m, w.live[i].store, w'.memory, copy.store)
      case BranchOf(j) =>
        if w.frozen[j].None? then reply == ErrReleased && w' == w
        else
          assert IsPlace(w, Frozen(j));
          && reply == Branched(|w.live|)
          && |w'.live| == |w.live| + 1
          && var copy := w'.live[|w.live|];
             && copy == w.frozen[j].value.(store := copy.store)
             && w' == w.(live := w.live + [copy], memory := w'.memory)
             && Copies(m, w.frozen[j].value.store, w'.memory, copy.store)
      case ReleaseOf(j) => reply == Released && w' == w.(frozen := w.frozen[j := None])
  }

  // ---- One step keeps everyone apart --------------------------------------------------------

  lemma ReachesInMemory(m: Memory, s: Store, at: Location)
    requires Sound(m) && StorePointing(m, s) && Reaches(m, s, at)
    ensures InMemory(m, at)
  {
    var c, id :| Has(s, c, id) && at in Reach(m, s[c][id].key);
    ReachIsInMemory(m, s[c][id].key);
  }

  /** Memory that only got larger shows every store what it showed. */
  lemma ExtensionShows(m: Memory, m': Memory, s: Store)
    requires Sound(m) && StorePointing(m, s) && Sound(m') && Extends(m, m')
    ensures StorePointing(m', s) && SeenIn(m', s) == SeenIn(m, s)
    ensures forall at :: Reaches(m', s, at) <==> Reaches(m, s, at)
  {
    forall at | Reaches(m, s, at)
      ensures SameAt(m, m', at)
    {
      ReachesInMemory(m, s, at);
    }
    StoreStands(m, m', s);
  }

  lemma KnownStaysClosed(m: Memory, m': Memory, known: set<Location>)
    requires Sound(m) && Closed(m, known) && Sound(m') && Extends(m, m')
    ensures Closed(m', known)
  {
    forall a: nat | IdOf(a) in known
      ensures Reach(m', a) <= known
    {
      ExtensionStands(m, m', a);
    }
  }

  /** New keys and arrays, held by their maker. */
  lemma GrownSane(w: World, m': Memory, made: set<Location>)
    requires Sane(w) && Sound(m') && Extends(w.memory, m')
    requires forall at | at in made :: InMemory(m', at) && Fresh(w.memory, at)
    requires forall a: nat | IdOf(a) in made :: a < |m'.cells| && Reach(m', a) <= w.known + made
    ensures Sane(w.(memory := m', known := w.known + made))
    ensures forall p | IsPlace(w, p) :: View(w.(memory := m', known := w.known + made), p) == View(w, p)
  {
    var w' := w.(memory := m', known := w.known + made);
    forall p | IsPlace(w, p)
      ensures IsPlace(w', p) && StorePointing(m', DbAt(w', p).store) && SeenIn(m', DbAt(w', p).store) == View(w, p)
      ensures forall at :: Reaches(m', DbAt(w', p).store, at) <==> ReachesAt(w, p, at)
    {
      ExtensionShows(w.memory, m', DbAt(w, p).store);
    }
    assert forall p: Place :: IsPlace(w', p) <==> IsPlace(w, p);
    KnownStaysClosed(w.memory, m', w.known);
    forall j, at | IsPlace(w', Frozen(j)) && ReachesAt(w', Frozen(j), at)
      ensures at !in w'.known
    {
      assert IsPlace(w, Frozen(j)) && ReachesAt(w, Frozen(j), at);
      ReachesInMemory(w.memory, DbAt(w, Frozen(j)).store, at);
    }
  }

  lemma NewSliceSane(w: World, fields: seq<Value>)
    requires Sane(w)
    ensures var n := |w.memory.slices|;
            var w' := w.(memory := w.memory.(slices := w.memory.slices + [fields]), known := w.known + {FieldsOf(n)});
            Sane(w') && forall p | IsPlace(w, p) :: View(w', p) == View(w, p)
  {
    GrownSane(w, w.memory.(slices := w.memory.slices + [fields]), {FieldsOf(|w.memory.slices|)});
  }

  lemma NewKeySane(w: World, collection: string, id: Id, parent: Option<nat>)
    requires Sane(w) && IdHeld(w, id) && (parent.Some? ==> IdOf(parent.value) in w.known)
    ensures var n := |w.memory.cells|;
            var w' := w.(memory := w.memory.(cells := w.memory.cells + [Cell(collection, id, parent)]), known := w.known + {IdOf(n)});
            Sane(w') && forall p | IsPlace(w, p) :: View(w', p) == View(w, p)
  {
    var m := w.memory;
    var m' := m.(cells := m.cells + [Cell(collection, id, parent)]);
    if id.Composite? {
      assert FieldsOf(id.slice) in w.known;
      assert InMemory(m, FieldsOf(id.slice));
    }
    assert Sound(m');
    if parent.Some? {
      ExtensionStands(m, m', parent.value);
    }
    GrownSane(w, m', {IdOf(|m.cells|)});
  }

  /** A caller assigns an id. */
  lemma AssignSane(w: World, node: nat, id: Id)
    requires Sane(w) && IdOf(node) in w.known && IdHeld(w, id)
    ensures node < |w.memory.cells| && IdIn(w.memory, id)
    ensures Sane(w.(memory := WithId(w.memory, node, id)))
    ensures forall p, at | IsPlace(w, p) && ReachesAt(w.(memory := WithId(w.memory, node, id)), p, at) :: ReachesAt(w, p, at) || at in w.known
  {
    if id.Composite? {
      assert FieldsOf(id.slice) in w.known;
    }
    var m := w.memory;
    var w' := w.(memory := WithId(m, node, id));
    assert forall p: Place :: IsPlace(w', p) <==> IsPlace(w, p);
    forall p | IsPlace(w, p)
      ensures Sound(w'.memory) && StorePointing(w'.memory, DbAt(w', p).store)
      ensures forall at | Reaches(w'.memory, DbAt(w', p).store, at) :: ReachesAt(w, p, at) || (ReachesAt(w, p, IdOf(node)) && at in w.known)
    {
      AssignSeenIff(m, DbAt(w, p).store, node, id);
    }
    assert Sound(w'.memory);
    forall a: nat | IdOf(a) in w.known
      ensures Reach(w'.memory, a) <= w.known
    {
      AssignShowsIff(m, node, id, a);
    }
    forall j, at | IsPlace(w', Frozen(j)) && ReachesAt(w', Frozen(j), at)
      ensures at !in w.known
    {
      assert IsPlace(w, Frozen(j));
      assert !ReachesAt(w, Frozen(j), IdOf(node));
    }
  }

  lemma RefillSane(w: World, slice: nat, fields: seq<Value>)
    requires Sane(w) && FieldsOf(slice) in w.known
    ensures slice < |w.memory.slices| && Sane(w.(memory := WithFields(w.memory, slice, fields)))
    ensures forall p, at | IsPlace(w, p) :: ReachesAt(w.(memory := WithFields(w.memory, slice, fields)), p, at) <==> ReachesAt(w, p, at)
  {
    assert InMemory(w.memory, FieldsOf(slice));
    var m := w.memory;
    var w' := w.(memory := WithFields(m, slice, fields));
    assert forall p: Place :: IsPlace(w', p) <==> IsPlace(w, p);
    forall p | IsPlace(w, p)
      ensures StorePointing(w'.memory, DbAt(w', p).store)
      ensures forall at :: Reaches(w'.memory, DbAt(w', p).store, at) <==> ReachesAt(w, p, at)
    {
      RefillSeenIff(m, DbAt(w, p).store, slice, fields);
    }
    forall a: nat | IdOf(a) in w.known
      ensures Reach(w'.memory, a) <= w.known
    {
      RefillShowsIff(m, slice, fields, a);
    }
    forall j, at | IsPlace(w', Frozen(j)) && ReachesAt(w', Frozen(j), at)
      ensures at !in w.known
    {
      assert IsPlace(w, Frozen(j)) && ReachesAt(w, Frozen(j), at);
    }
  }

  /** A database takes in a key its caller holds. */
  lemma StoreSane(w: World, i: nat, s: Store, node: nat)
    requires Sane(w) && i < |w.live| && IdOf(node) in w.known
    requires FromStoreOr(w.live[i].store, s, node)
    ensures Sane(w.(live := w.live[i := w.live[i].(store := s)]))
    ensures forall at | ReachesAt(w.(live := w.live[i := w.live[i].(store := s)]), Live(i), at) :: ReachesAt(w, Live(i), at) || at in w.known
  {
    var m, s0: Store := w.memory, w.live[i].store;
    var w' := w.(live := w.live[i := w.live[i].(store := s)]);
    assert forall p: Place :: IsPlace(w', p) <==> IsPlace(w, p);
    assert forall p: Place | IsPlace(w, p) && p != Live(i) :: DbAt(w', p) == DbAt(w, p);
    assert IsPlace(w, Live(i)) && DbAt(w, Live(i)).store == s0 && DbAt(w', Live(i)).store == s;
    forall c: string, id: string | Has(s, c, id)
      ensures s[c][id].key < |m.cells|
    {
      assert s[c][id].key == node || (c in s0 && id in s0[c] && s[c][id].key == s0[c][id].key);
    }
    assert StorePointing(m, s);
    forall at | Reaches(m, s, at)
      ensures Reaches(m, s0, at) || at in w.known
    {
      var c, id :| Has(s, c, id) && at in Reach(m, s[c][id].key);
      if s[c][id].key != node {
        assert Has(s0, c, id) && at in Reach(m, s0[c][id].key);
      }
    }
    assert Located(w');
    forall j, at | IsPlace(w', Frozen(j)) && ReachesAt(w', Frozen(j), at)
      ensures at !in w.known
    {
      assert IsPlace(w, Frozen(j)) && ReachesAt(w, Frozen(j), at);
    }
    forall p, q, at | IsPlace(w', p) && IsPlace(w', q) && p != q && ReachesAt(w', p, at) && ReachesAt(w', q, at)
      ensures at in w.known
    {
      if at !in w.known {
        assert ReachesAt(w, p, at) && ReachesAt(w, q, at);
      }
    }
  }

  /** A query hands a stored pointer to its caller. */
  lemma KeyOfSane(w: World, i: nat, c: string, id: string)
    requires Sane(w) && i < |w.live| && Has(w.live[i].store, c, id)
    ensures IsPlace(w, Live(i)) && DbAt(w, Live(i)) == w.live[i]
    ensures Sane(w.(known := w.known + Reach(w.memory, w.live[i].store[c][id].key)))
  {
    assert IsPlace(w, Live(i));
    var m, a := w.memory, DbAt(w, Live(i)).store[c][id].key;
    var w' := w.(known := w.known + Reach(m, a));
    assert forall p: Place :: IsPlace(w', p) <==> IsPlace(w, p);
    ReachIsInMemory(m, a);
    forall b: nat | IdOf(b) in w'.known
      ensures b < |m.cells| && Reach(m, b) <= w'.known
    {
      if IdOf(b) !in w.known { ReachIsClosed(m, a, b); }
    }
    forall at | at in Reach(m, a)
      ensures ReachesAt(w, Live(i), at)
    {
    }
    forall j, at | IsPlace(w', Frozen(j)) && ReachesAt(w', Frozen(j), at)
      ensures at !in w'.known
    {
      assert IsPlace(w, Frozen(j)) && ReachesAt(w, Frozen(j), at) && at !in w.known;
    }
    forall p, q, at | IsPlace(w', p) && IsPlace(w', q) && p != q && ReachesAt(w', p, at) && ReachesAt(w', q, at)
      ensures at in w'.known
    {
      assert IsPlace(w, p) && IsPlace(w, q) && ReachesAt(w, p, at) && ReachesAt(w, q, at);
    }
  }

  lemma KeyOfSteps(w: World, i: nat, c: string, id: string, w': World)
    requires Sane(w) && i < |w.live| && Has(w.live[i].store, c, id)
    requires IsPlace(w, Live(i)) ==> w' == w.(known := w.known + Reach(w.memory, DbAt(w, Live(i)).store[c][id].key))
    ensures Sane(w') && Steps(w, KeyOf(i, c, id), w', Key(w.live[i].store[c][id].key))
  {
    KeyOfSane(w, i, c, id);
  }

  lemma {:induction false} ReachIsClosed(m: Memory, a: nat, b: nat)
    requires Sound(m) && a < |m.cells| && IdOf(b) in Reach(m, a)
    ensures b < |m.cells| && Reach(m, b) <= Reach(m, a)
    decreases a
  {
    if b != a {
      ReachIsClosed(m, m.cells[a].parent.value, b);
    }
  }

  /** A copy is taken, of a live database into a checkpoint or of a checkpoint into a
      branch: it shares nothing with anything. */
  lemma CopySane(w: World, w': World, from: Place, to: Place)
    requires Sane(w) && IsPlace(w, from) && !IsPlace(w, to) && IsPlace(w', to)
    requires w'.known == w.known
    requires forall p: Place | p != to :: (IsPlace(w', p) <==> IsPlace(w, p)) && (IsPlace(w, p) ==> DbAt(w', p) == DbAt(w, p))
    requires Copies(w.memory, DbAt(w, from).store, w'.memory, DbAt(w', to).store)
    ensures Sane(w') && View(w', to) == View(w, from)
    ensures forall p | IsPlace(w, p) :: View(w', p) == View(w, p) && forall at :: ReachesAt(w', p, at) <==> ReachesAt(w, p, at)
    ensures forall at | ReachesAt(w', to, at) :: Fresh(w.memory, at)
  {
    var m, m' := w.memory, w'.memory;
    forall p | IsPlace(w, p)
      ensures StorePointing(m', DbAt(w', p).store) && SeenIn(m', DbAt(w', p).store) == View(w, p)
      ensures forall at :: Reaches(m', DbAt(w', p).store, at) <==> ReachesAt(w, p, at)
    {
      ExtensionShows(m, m', DbAt(w, p).store);
    }
    KnownStaysClosed(m, m', w.known);
    forall p, at | IsPlace(w', p) && ReachesAt(w', p, at)
      ensures if p == to then !InMemory(m, at) else IsPlace(w, p) && ReachesAt(w, p, at) && InMemory(m, at)
    {
      if p != to { ReachesInMemory(m, DbAt(w, p).store, at); }
    }
    forall j, at | IsPlace(w', Frozen(j)) && ReachesAt(w', Frozen(j), at)
      ensures at !in w.known
    {
    }
  }

  lemma OnSane(w: World, i: nat, o: DbOp)
    requires Sane(w) && i < |w.live| && IdOf(o.node) in w.known
    ensures HasNode(w.memory, o.node)
    ensures var r := Applied(w.live[i].config, w.live[i].store, w.memory, o);
            && Sane(w.(memory := r.memory))
            && Sane(w.(live := w.live[i := AfterOp(w.live[i], w.memory, o)], memory := r.memory))
            && forall p, at | IsPlace(w, p) && ReachesAt(w.(memory := r.memory), p, at) :: ReachesAt(w, p, at) || at in w.known
  {
    var r := Applied(w.live[i].config, w.live[i].store, w.memory, o);
    OperationTouches(w.live[i].config, w.live[i].store, w.memory, o);
    if o.Generate? {
      AssignSane(w, o.node, r.memory.cells[o.node].id);
    } else {
      assert w.(memory := r.memory) == w;
    }
    StoreSane(w.(memory := r.memory), i, r.store, o.node);
    assert w.(memory := r.memory).(live := w.live[i := w.live[i].(store := r.store)]) ==
           w.(live := w.live[i := AfterOp(w.live[i], w.memory, o)], memory := r.memory);
  }

  lemma CaptureSane(w: World, i: nat, w': World, reply: Reply)
    requires Sane(w) && i < |w.live| && w.live[i].foreign == NO_FOREIGN && Steps(w, CaptureOf(i), w', reply)
    ensures Sane(w') && IsPlace(w', Frozen(|w.frozen|)) && View(w', Frozen(|w.frozen|)) == View(w, Live(i))
    ensures forall p | IsPlace(w, p) :: IsPlace(w', p) && DbAt(w', p) == DbAt(w, p) && View(w', p) == View(w, p)
    ensures forall p, at | IsPlace(w, p) :: ReachesAt(w', p, at) <==> ReachesAt(w, p, at)
  {
    assert IsPlace(w, Live(i));
    CopySane(w, w', Live(i), Frozen(|w.frozen|));
  }

  lemma BranchSane(w: World, j: nat, w': World, reply: Reply)
    requires Sane(w) && IsPlace(w, Frozen(j)) && Steps(w, BranchOf(j), w', reply)
    ensures Sane(w') && IsPlace(w', Live(|w.live|)) && View(w', Live(|w.live|)) == View(w, Frozen(j))
    ensures forall p | IsPlace(w, p) :: IsPlace(w', p) && DbAt(w', p) == DbAt(w, p) && View(w', p) == View(w, p)
    ensures forall p, at | IsPlace(w, p) :: ReachesAt(w', p, at) <==> ReachesAt(w, p, at)
    ensures forall at | ReachesAt(w', Live(|w.live|), at) :: at !in w.known
  {
    CopySane(w, w', Frozen(j), Live(|w.live|));
  }

  lemma ReleaseSane(w: World, j: nat)
    requires Sane(w) && j < |w.frozen|
    ensures Sane(w.(frozen := w.frozen[j := None]))
  {
    var w' := w.(frozen := w.frozen[j := None]);
    forall p | IsPlace(w', p)
      ensures IsPlace(w, p) && DbAt(w', p) == DbAt(w, p)
    {
    }
    forall p, at | IsPlace(w', p) && ReachesAt(w', p, at)
      ensures IsPlace(w, p) && ReachesAt(w, p, at)
    {
    }
  }

  /** Every step, whatever copies it makes, keeps checkpoints private and databases
      apart but for what callers hold. */
  lemma StepKeepsSane(w: World, op: WorldOp, w': World, reply: Reply)
    requires Sane(w) && Steps(w, op, w', reply)
    ensures Sane(w')
  {
    if Callable(w, op) {
      match op
      case NewSlice(fields) => NewSliceSane(w, fields);
      case NewKey(collection, id, parent) => NewKeySane(w, collection, id, parent);
      case AssignId(node, id) => AssignSane(w, node, id);
      case Refill(slice, fields) => RefillSane(w, slice, fields);
      case On(i, o) => OnSane(w, i, o);
      case KeyOf(i, c, id) =>
        if Has(w.live[i].store, c, id) { KeyOfSane(w, i, c, id); }
      case CaptureOf(i) =>
        if w.live[i].foreign == NO_FOREIGN { CaptureSane(w, i, w', reply); }
      case BranchOf(j) =>
        if IsPlace(w, Frozen(j)) { BranchSane(w, j, w', reply); }
      case ReleaseOf(j) => ReleaseSane(w, j);
    }
  }

  // ---- What one step shows elsewhere ------------------------------------------------------------

  /** The steps a database is meant to notice. */
  predicate Addresses(op: WorldOp, p: Place) {
    match op
    case On(i, _) => p == Live(i)
    case ReleaseOf(j) => p == Frozen(j)
    case _ => false
  }

  /** The key whose id a step assigns, and the value it ends up with. */
  ghost function Assigns(w: World, op: WorldOp): (r: Option<(nat, Value)>)
    requires Callable(w, op) && Sane(w)
    ensures r.Some? ==> r.value.0 < |w.memory.cells|
  {
    match op
    case AssignId(node, id) =>
      assert InMemory(w.memory, IdOf(node)) && (id.Composite? ==> FieldsOf(id.slice) in w.known);
      Some((node, IdValue(w.memory, id)))
    case On(i, o) =>
      if o.Generate? then
        OperationTouches(w.live[i].config, w.live[i].store, w.memory, o);
        Some((o.node, Applied(w.live[i].config, w.live[i].store, w.memory, o).memory.cells[o.node].id.value))
      else None
    case _ => None
  }

  /** A step that writes to nothing the database reaches, or writes what was there. */
  ghost predicate Unseen(w: World, op: WorldOp, p: Place)
    requires Sane(w) && IsPlace(w, p)
  {
    Callable(w, op) ==>
      var m := w.memory;
      assert forall slice: nat | FieldsOf(slice) in w.known :: InMemory(m, FieldsOf(slice));
      if op.Refill? then !ReachesAt(w, p, FieldsOf(op.slice)) || op.fields == m.slices[op.slice]
      else
        match Assigns(w, op)
        case None => true
        case Some((node, id)) => !ReachesAt(w, p, IdOf(node)) || id == IdValue(m, m.cells[node].id)
  }

  lemma MovedSeenIff(w: World, m': Memory, node: nat, id: Id, p: Place)
    requires Sane(w) && IsPlace(w, p) && node < |w.memory.cells| && IdIn(w.memory, id) && m' == WithId(w.memory, node, id)
    ensures Sound(m') && StorePointing(m', DbAt(w, p).store)
    ensures SeenIn(m', DbAt(w, p).store) == View(w, p) <==>
            !ReachesAt(w, p, IdOf(node)) || IdValue(w.memory, id) == IdValue(w.memory, w.memory.cells[node].id)
  {
    AssignSeenIff(w.memory, DbAt(w, p).store, node, id);
  }

  lemma OnSeenIff(w: World, i: nat, o: DbOp, w': World, reply: Reply, p: Place)
    requires Sane(w) && Callable(w, On(i, o)) && Steps(w, On(i, o), w', reply) && IsPlace(w, p) && p != Live(i)
    ensures Sane(w') && IsPlace(w', p) && DbAt(w', p) == DbAt(w, p)
    ensures View(w', p) == View(w, p) <==> Unseen(w, On(i, o), p)
  {
    OnSane(w, i, o);
    OperationTouches(w.live[i].config, w.live[i].store, w.memory, o);
    if o.Generate? {
      MovedSeenIff(w, w'.memory, o.node, w'.memory.cells[o.node].id, p);
    }
  }

  /** A step addressed elsewhere leaves what is seen in a database as it was if and only
      if it does not write another id into a key, or other fields into an array, that a
      key stored there leads to. */
  lemma StepSeenIff(w: World, op: WorldOp, w': World, reply: Reply, p: Place)
    requires Sane(w) && Steps(w, op, w', reply) && IsPlace(w, p) && !Addresses(op, p)
    ensures Sane(w') && IsPlace(w', p) && DbAt(w', p) == DbAt(w, p)
    ensures View(w', p) == View(w, p) <==> Unseen(w, op, p)
  {
    StepKeepsSane(w, op, w', reply);
    if Callable(w, op) {
      match op
      case NewSlice(fields) => NewSliceSane(w, fields);
      case NewKey(collection, id, parent) => NewKeySane(w, collection, id, parent);
      case AssignId(node, id) =>
        AssignSane(w, node, id);
        MovedSeenIff(w, w'.memory, node, id, p);
      case Refill(slice, fields) =>
        RefillSane(w, slice, fields);
        RefillSeenIff(w.memory, DbAt(w, p).store, slice, fields);
      case On(i, o) => OnSeenIff(w, i, o, w', reply, p);
      case KeyOf(i, c, id) =>
      case CaptureOf(i) =>
        if w.live[i].foreign == NO_FOREIGN { CaptureSane(w, i, w', reply); }
      case BranchOf(j) =>
        if IsPlace(w, Frozen(j)) { BranchSane(w, j, w', reply); }
      case ReleaseOf(j) =>
    }
  }

  // ---- Databases nobody holds a key of ------------------------------------------------------------

  /** No caller holds anything a stored key leads to. */
  ghost predicate Secluded(w: World, p: Place)
    requires Sane(w) && IsPlace(w, p)
  {
    forall at | ReachesAt(w, p, at) :: at !in w.known
  }

  /** The steps after which a caller may hold a key of the database. */
  predicate Opens(op: WorldOp, p: Place) {
    Addresses(op, p) || (op.KeyOf? && p == Live(op.db))
  }

  /** A secluded database is not touched by anything done elsewhere, and stays secluded. */
  lemma SecludedStays(w: World, op: WorldOp, w': World, reply: Reply, p: Place)
    requires Sane(w) && Steps(w, op, w', reply) && IsPlace(w, p) && !Opens(op, p) && Secluded(w, p)
    ensures Sane(w') && IsPlace(w', p) && DbAt(w', p) == DbAt(w, p) && Secluded(w', p) && View(w', p) == View(w, p)
  {
    StepSeenIff(w, op, w', reply, p);
    if Callable(w, op) {
      match op
      case NewSlice(fields) => ExtensionShows(w.memory, w'.memory, DbAt(w, p).store); NewNotReached(w, w', p);
      case NewKey(collection, id, parent) => ExtensionShows(w.memory, w'.memory, DbAt(w, p).store); NewNotReached(w, w', p);
      case AssignId(node, id) => AssignSane(w, node, id); AssignSeenIff(w.memory, DbAt(w, p).store, node, id);
      case Refill(slice, fields) => RefillSeenIff(w.memory, DbAt(w, p).store, slice, fields);
      case On(i, o) => SecludedFromOn(w, i, o, w', reply, p);
      case KeyOf(i, c, id) =>
        if Has(w.live[i].store, c, id) { SecludedFromKeyOf(w, i, c, id, w', p); }
      case CaptureOf(i) =>
        if w.live[i].foreign == NO_FOREIGN { CaptureSane(w, i, w', reply); }
      case BranchOf(j) =>
        if IsPlace(w, Frozen(j)) { BranchSane(w, j, w', reply); }
      case ReleaseOf(j) =>
    }
  }

  lemma NewNotReached(w: World, w': World, p: Place)
    requires Sane(w) && IsPlace(w, p) && Secluded(w, p)
    requires Sound(w'.memory) && Extends(w.memory, w'.memory)
    requires forall at | at in w'.known && at !in w.known :: Fresh(w.memory, at)
    ensures forall at | ReachesAt(w, p, at) :: at !in w'.known
  {
    forall at | ReachesAt(w, p, at)
      ensures at !in w'.known
    {
      ReachesInMemory(w.memory, DbAt(w, p).store, at);
    }
  }

  lemma SecludedFromOn(w: World, i: nat, o: DbOp, w': World, reply: Reply, p: Place)
    requires Sane(w) && Callable(w, On(i, o)) && Steps(w, On(i, o), w', reply) && IsPlace(w, p) && p != Live(i) && Secluded(w, p)
    ensures Sane(w') && IsPlace(w', p) && DbAt(w', p) == DbAt(w, p) && Secluded(w', p)
  {
    OnSane(w, i, o);
    OperationTouches(w.live[i].config, w.live[i].store, w.memory, o);
    if o.Generate? {
      AssignSeenIff(w.memory, DbAt(w, p).store, o.node, w'.memory.cells[o.node].id);
    }
  }

  lemma SecludedFromKeyOf(w: World, i: nat, c: string, id: string, w': World, p: Place)
    requires Sane(w) && i < |w.live| && Has(w.live[i].store, c, id) && IsPlace(w, Live(i))
    requires w' == w.(known := w.known + Reach(w.memory, DbAt(w, Live(i)).store[c][id].key))
    requires IsPlace(w, p) && p != Live(i) && Secluded(w, p)
    ensures Sane(w') && Secluded(w', p)
  {
    KeyOfSane(w, i, c, id);
    var a := DbAt(w, Live(i)).store[c][id].key;
    forall at | ReachesAt(w', p, at)
      ensures at !in w'.known
    {
      assert ReachesAt(w, p, at);
      if at in Reach(w.memory, a) {
        assert ReachesAt(w, Live(i), at);
      }
    }
  }

  // ---- Runs -----------------------------------------------------------------------------------------

  /** states[n] is the world before the n-th operation. */
  ghost predicate IsRun(states: seq<World>, ops: seq<WorldOp>, replies: seq<Reply>) {
    && |states| == |ops| + 1 && |replies| == |ops|
    && Sane(states[0])
    && forall n | 0 <= n < |ops| :: StepAt(states, ops, replies, n)
  }

  ghost predicate StepAt(states: seq<World>, ops: seq<WorldOp>, replies: seq<Reply>, n: nat)
    requires |states| == |ops| + 1 && |replies| == |ops| && n < |ops|
  {
    Sane(states[n]) ==> Steps(states[n], ops[n], states[n + 1], replies[n])
  }

  /** Every state of a run keeps checkpoints private and databases apart. */
  lemma {:induction false} RunSane(states: seq<World>, ops: seq<WorldOp>, replies: seq<Reply>, n: nat)
    requires IsRun(states, ops, replies) && n <= |ops|
    ensures Sane(states[n])
    ensures n < |ops| ==> Steps(states[n], ops[n], states[n + 1], replies[n])
  {
    if n < |ops| {
      assert StepAt(states, ops, replies, n);
    }
    if n > 0 {
      RunSane(states, ops, replies, n - 1);
      StepKeepsSane(states[n - 1], ops[n - 1], states[n], replies[n - 1]);
    }
  }

  ghost predicate PlaceThrough(states: seq<World>, p: Place, n: nat) {
    n < |states| && forall k {:trigger states[k]} | 0 <= k <= n :: Sane(states[k]) && IsPlace(states[k], p)
  }

  /** What is seen in p at every point of a run up to n. */
  ghost predicate ShowsSame(states: seq<World>, p: Place, n: nat)
    requires PlaceThrough(states, p, n)
  {
    forall k {:trigger View(states[k], p)} | 0 <= k <= n :: View(states[k], p) == View(states[0], p)
  }

  lemma ShowsSnoc(states: seq<World>, p: Place, n: nat)
    requires PlaceThrough(states, p, n + 1)
    ensures ShowsSame(states, p, n + 1) <==> ShowsSame(states, p, n) && View(states[n + 1], p) == View(states[n], p)
  {
  }

  ghost predicate UnseenThrough(states: seq<World>, ops: seq<WorldOp>, p: Place, n: nat)
    requires PlaceThrough(states, p, n) && n <= |ops|
  {
    forall k {:trigger Unseen(states[k], ops[k], p)} | 0 <= k < n :: Unseen(states[k], ops[k], p)
  }

  lemma UnseenSnoc(states: seq<World>, ops: seq<WorldOp>, p: Place, n: nat)
    requires PlaceThrough(states, p, n + 1) && n < |ops|
    ensures UnseenThrough(states, ops, p, n + 1) <==> UnseenThrough(states, ops, p, n) && Unseen(states[n], ops[n], p)
  {
  }

  lemma NextSeen(states: seq<World>, ops: seq<WorldOp>, replies: seq<Reply>, p: Place, n: nat)
    requires IsRun(states, ops, replies) && n < |ops| && PlaceThrough(states, p, n) && !Addresses(ops[n], p)
    ensures PlaceThrough(states, p, n + 1)
    ensures View(states[n + 1], p) == View(states[n], p) <==> Unseen(states[n], ops[n], p)
  {
    assert StepAt(states, ops, replies, n);
    StepSeenIff(states[n], ops[n], states[n + 1], replies[n], p);
  }

  /** Isolation: over a run with no operation addressed to it, a database shows the same
      throughout if and only if no step writes another id or other fields into what its
      stored keys lead to. */
  lemma {:induction false} IsolatedIff(states: seq<World>, ops: seq<WorldOp>, replies: seq<Reply>, p: Place, n: nat)
    requires IsRun(states, ops, replies) && n <= |ops| && IsPlace(states[0], p)
    requires forall k | 0 <= k < n :: !Addresses(ops[k], p)
    ensures PlaceThrough(states, p, n)
    ensures ShowsSame(states, p, n) <==> UnseenThrough(states, ops, p, n)
  {
    if n > 0 {
      IsolatedIff(states, ops, replies, p, n - 1);
      NextSeen(states, ops, replies, p, n - 1);
      ShowsSnoc(states, p, n - 1);
      UnseenSnoc(states, ops, p, n - 1);
    }
  }

  /** While no caller holds a key of a database, nothing done elsewhere shows in it. */
  lemma {:induction false} SecludedRun(states: seq<World>, ops: seq<WorldOp>, replies: seq<Reply>, p: Place, from: nat, n: nat)
    requires IsRun(states, ops, replies) && from <= n <= |ops|
    requires Sane(states[from]) && IsPlace(states[from], p) && Secluded(states[from], p)
    requires forall k | from <= k < n :: !Opens(ops[k], p)
    ensures Sane(states[n]) && IsPlace(states[n], p) && Secluded(states[n], p)
    ensures DbAt(states[n], p) == DbAt(states[from], p) && View(states[n], p) == View(states[from], p)
  {
    if n > from {
      SecludedRun(states, ops, replies, p, from, n - 1);
      RunSane(states, ops, replies, n - 1);
      SecludedStays(states[n - 1], ops[n - 1], states[n], replies[n - 1], p);
    }
  }

  predicate ReleasedIn(ops: seq<WorldOp>, j: nat, from: nat, to: nat) {
    exists k :: from <= k < to <= |ops| && ops[k].ReleaseOf? && ops[k].checkpoint == j
  }

  /** A checkpoint shows what was captured until it is released, whatever callers do
      with the keys they hold, and is gone for good after. */
  lemma {:induction false} CheckpointHolds(states: seq<World>, ops: seq<WorldOp>, replies: seq<Reply>, j: nat, from: nat, n: nat)
    requires IsRun(states, ops, replies) && from <= n <= |ops| && Sane(states[from]) && IsPlace(states[from], Frozen(j))
    ensures Sane(states[n]) && j < |states[n].frozen|
    ensures states[n].frozen[j].None? <==> ReleasedIn(ops, j, from, n)
    ensures !ReleasedIn(ops, j, from, n) ==>
              && IsPlace(states[n], Frozen(j)) && DbAt(states[n], Frozen(j)) == DbAt(states[from], Frozen(j))
              && View(states[n], Frozen(j)) == View(states[from], Frozen(j))
  {
    RunSane(states, ops, replies, n);
    if n > from {
      CheckpointHolds(states, ops, replies, j, from, n - 1);
      RunSane(states, ops, replies, n - 1);
      assert ReleasedIn(ops, j, from, n - 1) ==> ReleasedIn(ops, j, from, n);
      if !ReleasedIn(ops, j, from, n - 1) && !Addresses(ops[n - 1], Frozen(j)) {
        SecludedStays(states[n - 1], ops[n - 1], states[n], replies[n - 1], Frozen(j));
      }
    }
  }

  /** However much happened since the capture, on the source, on sibling branches and to
      the keys callers hold, a branch starts by showing exactly what the source showed
      then; after a release there is no branch. */
  lemma BranchStartsAsCaptured(states: seq<World>, ops: seq<WorldOp>, replies: seq<Reply>, i: nat, from: nat, n: nat)
    requires IsRun(states, ops, replies) && from < n < |ops| && Sane(states[from])
    requires i < |states[from].live| && states[from].live[i].foreign == NO_FOREIGN
    requires ops[from] == CaptureOf(i) && ops[n] == BranchOf(|states[from].frozen|)
    ensures Sane(states[n]) && Sane(states[n + 1])
    ensures var j := |states[from].frozen|;
            if ReleasedIn(ops, j, from + 1, n) then replies[n] == ErrReleased && states[n + 1] == states[n]
            else
              var b := |states[n].live|;
              && replies[n] == Branched(b) && IsPlace(states[n + 1], Live(b)) && IsPlace(states[from], Live(i))
              && View(states[n + 1], Live(b)) == View(states[from], Live(i))
              && Secluded(states[n + 1], Live(b))
  {
    var j := |states[from].frozen|;
    RunSane(states, ops, replies, from);
    RunSane(states, ops, replies, n);
    RunSane(states, ops, replies, n + 1);
    assert IsPlace(states[from], Live(i));
    CaptureSane(states[from], i, states[from + 1], replies[from]);
    CheckpointHolds(states, ops, replies, j, from + 1, n);
    if !ReleasedIn(ops, j, from + 1, n) {
      BranchSane(states[n], j, states[n + 1], replies[n]);
    }
  }

  /** From then on, what is done on the source and on sibling branches does not show in
      the branch, until an operation or a query of its own lets a caller hold its keys. */
  lemma BranchGoesItsOwnWay(states: seq<World>, ops: seq<WorldOp>, replies: seq<Reply>, j: nat, from: nat, n: nat)
    requires IsRun(states, ops, replies) && from < n <= |ops| && Sane(states[from])
    requires IsPlace(states[from], Frozen(j)) && ops[from] == BranchOf(j)
    requires forall k | from < k < n :: !Opens(ops[k], Live(|states[from].live|))
    ensures var b := Live(|states[from].live|);
            && Sane(states[n]) && IsPlace(states[n], b) && View(states[n], b) == View(states[from], Frozen(j))
  {
    RunSane(states, ops, replies, from);
    BranchSane(states[from], j, states[from + 1], replies[from]);
    SecludedRun(states, ops, replies, Live(|states[from].live|), from + 1, n);
  }

  // ---- The world on the heap -----------------------------------------------------------------------

  ghost predicate Shows(d: Database, v: Db)
    reads d, d.Repr
  {
    d.Valid() && d.config == v.config && d.foreign == v.foreign && d.contents == v.store
  }

  ghost predicate Keeps(c: Checkpoint, v: Option<Db>)
    reads c, c.snapshot, if c.snapshot != null then c.snapshot.Repr else {}
  {
    (c.snapshot == null <==> v.None?) && (c.snapshot != null ==> Shows(c.snapshot, v.value) && v.value.foreign == NO_FOREIGN)
  }

  /** Databases, checkpoints and the keys callers hold, as objects. */
  class Databases {
    const heap: KeyHeap
    var live: seq<Database>
    var frozen: seq<Checkpoint>
    var known: set<Location>
    ghost var value: World
    ghost var Repr: set<object>

    ghost predicate Valid()
      reads this, Repr
    {
      && this in Repr && heap in Repr && Holds(value.live, value.frozen, Repr - {this, heap})
      && value.memory == heap.memory && value.known == known && Sane(value)
    }

    /** Every object shows its value, and no two databases share one. */
    ghost predicate Holds(dbs: seq<Db>, copies: seq<Option<Db>>, parts: set<object>)
      reads this`live, this`frozen, parts
    {
      && this !in parts && heap !in parts
      && |live| == |dbs| && |frozen| == |copies|
      && (forall i | 0 <= i < |live| :: live[i] in parts && live[i].Repr <= parts && Shows(live[i], dbs[i]))
      && (forall i, j | 0 <= i < j < |live| :: live[i].Repr !! live[j].Repr)
      && (forall j | 0 <= j < |frozen| ::
            && frozen[j] in parts
            && (frozen[j].snapshot != null ==> frozen[j].snapshot in parts && frozen[j].snapshot.Repr <= parts)
            && Keeps(frozen[j], copies[j]))
      && (forall i, j | 0 <= i < |live| && 0 <= j < |frozen| ::
            frozen[j] !in live[i].Repr && (frozen[j].snapshot != null ==> live[i].Repr !! frozen[j].snapshot.Repr))
      && (forall i, j | 0 <= i < |frozen| && 0 <= j < |frozen| && i != j ::
            frozen[i] != frozen[j] && (frozen[j].snapshot != null ==> frozen[i] !in frozen[j].snapshot.Repr))
    }

    constructor (config: Config, foreign: Foreign)
      ensures Valid() && fresh(Repr)
      ensures value == World([Db(config, foreign, map[])], [], Memory([], []), {})
    {
      var h := new KeyHeap();
      var source := new Database(config, foreign);
      heap, live, frozen, known := h, [source], [], {};
      value := World([Db(config, foreign, map[])], [], Memory([], []), {});
      Repr := {this, h} + source.Repr;
    }

    ghost method Note(next: World, parts: set<object>)
      requires this in Repr && heap in Repr && Holds(next.live, next.frozen, Repr - {this, heap} + parts)
      requires heap.memory == next.memory && known == next.known && Sane(next)
      modifies this`value, this`Repr
      ensures Valid() && value == next && Repr == old(Repr) + parts
    {
      value := next;
      Repr := Repr + parts;
      assert Repr - {this, heap} == old(Repr) - {this, heap} + parts;
    }

    ghost method NoteMemory(next: World)
      requires this in Repr && heap in Repr && Holds(next.live, next.frozen, Repr - {this, heap})
      requires heap.memory == next.memory && known == next.known && Sane(next)
      modifies this`value
      ensures Valid() && value == next
    {
      value := next;
    }

    method MakeSlice(fields: seq<Value>) returns (slice: nat)
      requires Valid()
      modifies this, heap
      ensures Valid() && Repr == old(Repr) && Steps(old(value), NewSlice(fields), value, Made(slice))
    {
      slice := heap.NewSlice(fields);
      known := known + {FieldsOf(slice)};
      NewSliceSane(value, fields);
      NoteMemory(value.(memory := heap.memory, known := known));
    }

    method MakeKey(collection: string, id: Id, parent: Option<nat>) returns (a: nat)
      requires Valid() && Callable(value, NewKey(collection, id, parent))
      modifies this, heap
      ensures Valid() && Repr == old(Repr) && Steps(old(value), NewKey(collection, id, parent), value, Made(a))
    {
      HeldId(id);
      assert parent.Some? ==> InMemory(heap.memory, IdOf(parent.value));
      a := heap.NewKey(collection, id, parent);
      known := known + {IdOf(a)};
      NewKeySane(value, collection, id, parent);
      NoteMemory(value.(memory := heap.memory, known := known));
    }

    lemma HeldId(id: Id)
      requires Valid() && IdHeld(value, id)
      ensures IdIn(heap.memory, id)
    {
      if id.Composite? {
        assert FieldsOf(id.slice) in value.known;
      }
    }

    method AssignTo(node: nat, id: Id)
      requires Valid() && Callable(value, AssignId(node, id))
      modifies this, heap
      ensures Valid() && Repr == old(Repr) && Steps(old(value), AssignId(node, id), value, Assigned)
    {
      AssignSane(value, node, id);
      heap.Assign(node, id);
      NoteMemory(value.(memory := heap.memory));
    }

    method Overwrite(slice: nat, fields: seq<Value>)
      requires Valid() && Callable(value, Refill(slice, fields))
      modifies this, heap
      ensures Valid() && Repr == old(Repr) && Steps(old(value), Refill(slice, fields), value, Assigned)
    {
      RefillSane(value, slice, fields);
      heap.Refill(slice, fields);
      NoteMemory(value.(memory := heap.memory));
    }

    method Operate(i: nat, op: DbOp) returns (err: Option<Failure>)
      requires Valid() && Callable(value, On(i, op))
      modifies Repr
      ensures Valid() && fresh(Repr - old(Repr)) && Steps(old(value), On(i, op), value, Wrote(err))
    {
      OnSane(value, i, op);
      ghost var r := Applied(value.live[i].config, value.live[i].store, value.memory, op);
      err := OperateOnly(i, op);
      Note(value.(live := value.live[i := AfterOp(value.live[i], value.memory, op)], memory := r.memory), live[i].Repr);
    }

    method OperateOnly(i: nat, op: DbOp) returns (err: Option<Failure>)
      requires Valid() && i < |live| && HasNode(value.memory, op.node)
      modifies Repr
      ensures unchanged(this) && fresh(live[i].Repr - old(live[i].Repr))
      ensures Outcome(AfterOp(value.live[i], value.memory, op).store, heap.memory, err) ==
              Applied(value.live[i].config, value.live[i].store, value.memory, op)
      ensures Holds(value.live[i := AfterOp(value.live[i], value.memory, op)], value.frozen, Repr - {this, heap} + live[i].Repr)
    {
      err := live[i].Apply(heap, op);
      forall k | 0 <= k < |live| && k != i
        ensures Shows(live[k], value.live[k]) && live[k].Repr == old(live[k].Repr)
      {
        assert live[k].Repr !! old(live[i].Repr);
      }
      forall j | 0 <= j < |frozen|
        ensures Keeps(frozen[j], value.frozen[j]) && frozen[j].snapshot == old(frozen[j].snapshot)
      {
        assert frozen[j] !in old(live[i].Repr);
      }
    }

    method GiveKey(i: nat, c: string, id: string) returns (a: Option<nat>)
      requires Valid() && Callable(value, KeyOf(i, c, id))
      modifies this
      ensures Valid() && Repr == old(Repr)
      ensures Steps(old(value), KeyOf(i, c, id), value, if a.Some? then Key(a.value) else NoRecord)
    {
      a := FindKey(i, c, id);
      if a.Some? {
        ghost var next := value.(known := value.known + Reach(value.memory, a.value));
        KeyOfSteps(value, i, c, id, next);
        known := known + Reach(heap.memory, a.value);
        NoteMemory(next);
      }
    }

    method FindKey(i: nat, c: string, id: string) returns (a: Option<nat>)
      requires Valid() && i < |live|
      ensures a.Some? <==> Has(value.live[i].store, c, id)
      ensures a.Some? ==> a.value == value.live[i].store[c][id].key && a.value < |value.memory.cells|
    {
      assert IsPlace(value, Live(i)) && DbAt(value, Live(i)).store == value.live[i].store;
      assert Shows(live[i], value.live[i]);
      if c !in live[i].collections {
        return None;
      }
      var e := live[i].collections[c];
      a := if id in e.keys then Some(e.keys[id]) else None;
    }

    method CaptureDb(i: nat) returns (reply: Reply)
      requires Valid() && i < |live|
      modifies this, heap
      ensures Valid() && fresh(Repr - old(Repr))
      ensures Steps(old(value), CaptureOf(i), value, reply)
    {
      assert IsPlace(value, Live(i)) && DbAt(value, Live(i)) == value.live[i];
      var r := Capture(heap, live[i]);
      if r.Err? {
        return CaptureUnsupported;
      }
      reply := Captured(|frozen|);
      ghost var copy := value.live[i].(store := r.value.snapshot.contents);
      AddCheckpoint(r.value, copy);
      ghost var next := value.(frozen := value.frozen + [Some(copy)], memory := heap.memory);
      StepKeepsSane(value, CaptureOf(i), next, Captured(|value.frozen|));
      Note(next, {r.value} + r.value.snapshot.Repr);
    }

    method AddCheckpoint(c: Checkpoint, ghost copy: Db)
      requires Holds(value.live, value.frozen, Repr - {this, heap})
      requires c !in Repr && c.snapshot != null && Shows(c.snapshot, copy) && copy.foreign == NO_FOREIGN
      requires c.snapshot.Repr !! Repr && c !in c.snapshot.Repr && this !in c.snapshot.Repr && heap !in c.snapshot.Repr
      modifies this`frozen
      ensures frozen == old(frozen) + [c]
      ensures Holds(value.live, value.frozen + [Some(copy)], Repr - {this, heap} + ({c} + c.snapshot.Repr))
    {
      frozen := frozen + [c];
    }

    method BranchFrom(j: nat) returns (reply: Reply)
      requires Valid() && j < |frozen|
      modifies this, heap
      ensures Valid() && fresh(Repr - old(Repr))
      ensures Steps(old(value), BranchOf(j), value, reply)
    {
      if frozen[j].snapshot != null {
        assert IsPlace(value, Frozen(j)) && DbAt(value, Frozen(j)) == value.frozen[j].value;
      }
      var branch := frozen[j].Branch(heap);
      if branch.None? {
        return ErrReleased;
      }
      reply := Branched(|live|);
      ghost var copy := value.frozen[j].value.(store := branch.value.contents);
      AddDatabase(branch.value, copy);
      ghost var next := value.(live := value.live + [copy], memory := heap.memory);
      StepKeepsSane(value, BranchOf(j), next, Branched(|value.live|));
      Note(next, branch.value.Repr);
    }

    method AddDatabase(db: Database, ghost copy: Db)
      requires Holds(value.live, value.frozen, Repr - {this, heap})
      requires Shows(db, copy) && db.Repr !! Repr && this !in db.Repr && heap !in db.Repr
      modifies this`live
      ensures live == old(live) + [db]
      ensures Holds(value.live + [copy], value.frozen, Repr - {this, heap} + db.Repr)
    {
      live := live + [db];
    }

    method ReleaseAt(j: nat)
      requires Valid() && j < |frozen|
      modifies this, frozen[j]
      ensures Valid() && Repr == old(Repr) && Steps(old(value), ReleaseOf(j), value, Released)
    {
      ReleaseSane(value, j);
      frozen[j].Release();
      NoteMemory(value.(frozen := value.frozen[j := None]));
    }

    method Do(op: WorldOp) returns (reply: Reply)
      requires Valid()
      modifies Repr
      ensures Valid() && fresh(Repr - old(Repr)) && Steps(old(value), op, value, reply)
    {
      var held := Allowed(op);
      if !held {
        return NoSuchTarget;
      }
      match op {
        case On(i, o) =>
          var err := Operate(i, o);
          reply := Wrote(err);
        case CaptureOf(i) =>
          reply := CaptureDb(i);
        case BranchOf(j) =>
          reply := BranchFrom(j);
        case ReleaseOf(j) =>
          ReleaseAt(j);
          reply := Released;
        case _ => reply := DoOnKeys(op);
      }
    }

    /** What callers do with keys. */
    method DoOnKeys(op: WorldOp) returns (reply: Reply)
      requires Valid() && Callable(value, op) && !op.On? && !op.CaptureOf? && !op.BranchOf? && !op.ReleaseOf?
      modifies this, heap
      ensures Valid() && Repr == old(Repr) && Steps(old(value), op, value, reply)
    {
      match op {
        case NewSlice(fields) =>
          var a := MakeSlice(fields);
          reply := Made(a);
        case NewKey(collection, id, parent) =>
          var a := MakeKey(collection, id, parent);
          reply := Made(a);
        case AssignId(node, id) =>
          AssignTo(node, id);
          reply := Assigned;
        case Refill(slice, fields) =>
          Overwrite(slice, fields);
          reply := Assigned;
        case KeyOf(i, c, id) =>
          var a := GiveKey(i, c, id);
          reply := if a.Some? then Key(a.value) else NoRecord;
      }
    }

    /** Does the caller hold what the operation needs? */
    method Allowed(op: WorldOp) returns (held: bool)
      requires Valid()
      ensures held == Callable(value, op)
    {
      match op {
        case NewSlice(_) => held := true;
        case NewKey(_, id, parent) => held := SliceOf(id) <= known && (parent.Some? ==> IdOf(parent.value) in known);
        case AssignId(node, id) => held := IdOf(node) in known && SliceOf(id) <= known;
        case Refill(slice, _) => held := FieldsOf(slice) in known;
        case On(i, o) => held := i < |live| && IdOf(o.node) in known;
        case KeyOf(i, _, _) => held := i < |live|;
        case CaptureOf(i) => held := i < |live|;
        case BranchOf(j) => held := j < |frozen|;
        case ReleaseOf(j) => held := j < |frozen|;
      }
    }

    /** Any interleaving of operations, captures, branches, releases and assignments
        through held pointers is a run. */
    method RunAll(ops: seq<WorldOp>) returns (replies: seq<Reply>, ghost states: seq<World>)
      requires Valid()
      modifies Repr
      ensures Valid() && fresh(Repr - old(Repr))
      ensures IsRun(states, ops, replies) && states[0] == old(value) && states[|ops|] == value
    {
      replies, states := [], [value];
      for n := 0 to |ops|
        invariant Valid() && fresh(Repr - old(Repr))
        invariant IsRun(states, ops[..n], replies) && states[0] == old(value) && states[n] == value
      {
        ghost var before := states;
        var reply := Do(ops[n]);
        RunSnoc(states, ops[..n], replies, value, ops[n], reply);
        replies, states := replies + [reply], states + [value];
        assert ops[..n + 1] == ops[..n] + [ops[n]];
      }
      assert ops[..|ops|] == ops;
    }
  }

  lemma RunSnoc(states: seq<World>, ops: seq<WorldOp>, replies: seq<Reply>, next: World, op: WorldOp, reply: Reply)
    requires IsRun(states, ops, replies) && Sane(states[|ops|]) && Steps(states[|ops|], op, next, reply)
    ensures IsRun(states + [next], ops + [op], replies + [reply])
  {
    forall n | 0 <= n < |ops + [op]|
      ensures StepAt(states + [next], ops + [op], replies + [reply], n)
    {
      if n < |ops| {
        assert StepAt(states, ops, replies, n);
      }
    }
  }

  // ---- A key shared between a source and its branch -----------------------------------------------

  /** One caller, one record: stored in the source, then inserted into a branch with a
      generated id. */
  function LeakOps(): seq<WorldOp> {
    [NewKey("users", Atom(Str("a")), None),
     CaptureOf(0),
     BranchOf(0),
     On(0, Put(0, Some(Obj(map[])), true)),
     On(1, Generate(0, _ => Some(Str("b")), Some(Obj(map[]))))]
  }

  function LeakMemory(id: string): Memory {
    Memory([Cell("users", Atom(Str(id)), None)], [])
  }

  function LeakStates(keyId: T.Key -> string): seq<World> {
    var config := Config(map[], false, keyId, false);
    var empty := Db(config, NO_FOREIGN, map[]);
    var full := (id: string) => Db(config, NO_FOREIGN, map["users" := map[keyId(T.Key("users", Str(id), None)) := Entry(Obj(map[]), 0)]]);
    var a, b := LeakMemory("a"), LeakMemory("b");
    [World([empty], [], Memory([], []), {}),
     World([empty], [], a, {IdOf(0)}),
     World([empty], [Some(empty)], a, {IdOf(0)}),
     World([empty, empty], [Some(empty)], a, {IdOf(0)}),
     World([full("a"), empty], [Some(empty)], a, {IdOf(0)}),
     World([full("a"), full("b")], [Some(empty)], b, {IdOf(0)})]
  }

  lemma NothingCopied(m: Memory)
    requires Sound(m)
    ensures Copies(m, map[], m, map[])
  {
    assert SeenIn(m, map[]) == map[];
    assert forall at :: !Reaches(m, map[], at);
  }

  lemma LeakStarts(keyId: T.Key -> string)
    ensures Sane(LeakStates(keyId)[0])
  {
    var w := LeakStates(keyId)[0];
    forall p: Place, at | IsPlace(w, p)
      ensures DbAt(w, p).store == map[] && StorePointing(w.memory, map[]) && !Reaches(w.memory, map[], at)
    {
    }
  }

  function LeakReplies(): seq<Reply> {
    [Made(0), Captured(0), Branched(1), Wrote(None), Wrote(None)]
  }

  lemma LeakPrepares(keyId: T.Key -> string, n: nat)
    requires n < 3
    ensures StepAt(LeakStates(keyId), LeakOps(), LeakReplies(), n)
  {
    var w := LeakStates(keyId)[n];
    NothingCopied(w.memory);
  }

  lemma LeakPut(keyId: T.Key -> string)
    ensures StepAt(LeakStates(keyId), LeakOps(), LeakReplies(), 3)
  {
    var w, w' := LeakStates(keyId)[3], LeakStates(keyId)[4];
    var op := LeakOps()[3].op;
    assert KeyAt(w.memory, 0) == T.Key("users", Str("a"), None);
    assert Norm(Obj(map[])) == Obj(map[]);
    var r := Applied(w.live[0].config, w.live[0].store, w.memory, op);
    assert r.store == w'.live[0].store && r.memory == w.memory && r.err == None;
    assert w'.live == w.live[0 := AfterOp(w.live[0], w.memory, op)];
  }

  lemma LeakGenerates(keyId: T.Key -> string)
    ensures StepAt(LeakStates(keyId), LeakOps(), LeakReplies(), 4)
  {
    var w, w' := LeakStates(keyId)[4], LeakStates(keyId)[5];
    var op := LeakOps()[4].op;
    assert WithId(w.memory, 0, Atom(Str("b"))) == LeakMemory("b");
    assert KeyAt(LeakMemory("b"), 0) == T.Key("users", Str("b"), None);
    assert Norm(Obj(map[])) == Obj(map[]);
    var r := Applied(w.live[1].config, w.live[1].store, w.memory, op);
    assert r.memory == LeakMemory("b") && r.err == None && r.store == w'.live[1].store;
    assert w'.live == w.live[1 := AfterOp(w.live[1], w.memory, op)];
  }

  /** The insert into the branch changes what is seen in the source: the record stored
      there under a now says its id is b. */
  lemma SharedKeyLeaks(keyId: T.Key -> string)
    ensures var states := LeakStates(keyId);
            && IsRun(states, LeakOps(), LeakReplies())
            && Sane(states[4]) && Sane(states[5]) && IsPlace(states[4], Live(0)) && IsPlace(states[5], Live(0))
            && states[5].live[0] == states[4].live[0] && View(states[5], Live(0)) != View(states[4], Live(0))
  {
    var states := LeakStates(keyId);
    LeakStarts(keyId);
    forall n | 0 <= n < 5
      ensures StepAt(states, LeakOps(), LeakReplies(), n)
    {
      if n < 3 {
        LeakPrepares(keyId, n);
      } else if n == 3 {
        LeakPut(keyId);
      } else {
        LeakGenerates(keyId);
      }
    }
    RunSane(states, LeakOps(), LeakReplies(), 4);
    RunSane(states, LeakOps(), LeakReplies(), 5);
    LeakShows(keyId);
  }

  lemma LeakShows(keyId: T.Key -> string)
    requires Sane(LeakStates(keyId)[4]) && Sane(LeakStates(keyId)[5])
    ensures IsPlace(LeakStates(keyId)[4], Live(0)) && IsPlace(LeakStates(keyId)[5], Live(0))
    ensures View(LeakStates(keyId)[5], Live(0)) != View(LeakStates(keyId)[4], Live(0))
  {
    var id := keyId(T.Key("users", Str("a"), None));
    var before: Docs := View(LeakStates(keyId)[4], Live(0))["users"];
    var after: Docs := View(LeakStates(keyId)[5], Live(0))["users"];
    assert before[id].key == KeyAt(LeakMemory("a"), 0);
    assert after[id].key == KeyAt(LeakMemory("b"), 0);
    assert KeyAt(LeakMemory("a"), 0).id != KeyAt(LeakMemory("b"), 0).id;
  }
}
