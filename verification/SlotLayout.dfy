/** The columnar engine's data structures as one value, the steps its methods
    take on them, and the proof that each step keeps them standing for a map. */
module SlotLayout {
  import opened Ordering
  import opened Values
  import opened T = Table

  datatype Layout = Layout(
    idToSlot: map<string, nat>,
    slotToID: seq<string>,
    slotToKey: seq<Option<Key>>,
    live: seq<bool>,
    freeList: seq<nat>,
    deadCount: nat,
    leftover: seq<Fields>,           // empty for a struct collection
    cells: seq<seq<Value>>,          // one slice a column
    memory: seq<map<int, Value>>)    // what each column's external strategy was told

  /** All parallel slices have one length. */
  ghost predicate Shaped(schema: Schema, l: Layout) {
    && |l.cells| == |l.memory| == |schema.columns|
    && (forall i | 0 <= i < |l.cells| :: |l.cells[i]| == |l.live|)
    && |l.slotToID| == |l.slotToKey| == |l.live|
    && |l.leftover| == (if schema.mapBacked then |l.live| else 0)
  }

  /** Names the slot a quantifier below is about, so that it is only used there. */
  predicate Slot(s: int) {
    0 <= s
  }

  /** idToSlot and slotToID are inverse on the live slots, whatever the id. */
  ghost predicate Linked(l: Layout) {
    && |l.slotToID| == |l.live|
    && (forall id | id in l.idToSlot ::
          l.idToSlot[id] < |l.live| && l.live[l.idToSlot[id]] && l.slotToID[l.idToSlot[id]] == id)
    && (forall s {:trigger Slot(s)} | Slot(s) && s < |l.live| && l.live[s] ::
          l.slotToID[s] in l.idToSlot && l.idToSlot[l.slotToID[s]] == s)
  }

  /** The free list holds exactly the dead slots, each once. */
  ghost predicate FreeListed(l: Layout) {
    && l.deadCount == |l.freeList|
    && Distinct(l.freeList)
    && (forall k | 0 <= k < |l.freeList| :: l.freeList[k] < |l.live| && !l.live[l.freeList[k]])
    && (forall s {:trigger Slot(s)} | Slot(s) && s < |l.live| && !l.live[s] :: s in l.freeList)
  }

  ghost predicate HoldsRow(schema: Schema, l: Layout, slot: nat, row: Decoded)
    requires Shaped(schema, l) && slot < |l.live|
  {
    && |row.cells| == |l.cells|
    && (forall i | 0 <= i < |l.cells| :: l.cells[i][slot] == row.cells[i])
    && row.leftover == if schema.mapBacked then l.leftover[slot] else map[]
  }

  /** The layout holds the row stored under id, with its key. */
  ghost predicate Carries(schema: Schema, l: Layout, id: string, stored: Stored)
    requires Shaped(schema, l) && Linked(l)
  {
    && id in l.idToSlot
    && HoldsRow(schema, l, l.idToSlot[id], stored.row)
    && l.slotToKey[l.idToSlot[id]] == Some(stored.key)
  }

  /** Every external strategy knows its column's value at every live slot. It may
      also remember slots beyond the end, left over from before a compaction. */
  ghost predicate Indexed(l: Layout, external: seq<bool>) {
    && |external| == |l.memory| == |l.cells|
    && (forall i | 0 <= i < |l.cells| :: |l.cells[i]| == |l.live|)
    && (forall i, s: nat | 0 <= i < |external| && external[i] && s < |l.live| && l.live[s] ::
          s in l.memory[i] && l.memory[i][s] == l.cells[i][s])
  }

  /** The slot structure by itself, whatever the rows. */
  ghost predicate Sound(schema: Schema, external: seq<bool>, l: Layout) {
    && Shaped(schema, l)
    && Linked(l)
    && FreeListed(l)
    && |external| == |l.memory|
  }

  /** The rows: one a stored id, each indexed. */
  ghost predicate Stands(schema: Schema, external: seq<bool>, l: Layout, t: Table)
    requires Sound(schema, external, l)
  {
    && t.Keys == l.idToSlot.Keys
    && (forall id | id in t :: Carries(schema, l, id, t[id]))
    && Indexed(l, external)
    && |t| + l.deadCount == |l.live|
  }

  /** Asked for where the parts of Stands are needed. */
  predicate Unfold(l: Layout, t: Table, asked: bool) {
    true
  }

  /** The layout stands for the table t. The parts only come into play where
      Unfold asks for them. */
  ghost predicate Represents(schema: Schema, external: seq<bool>, l: Layout, t: Table)
    requires Sound(schema, external, l)
  {
    forall asked {:trigger Unfold(l, t, asked)} :: Unfold(l, t, asked) ==> Stands(schema, external, l, t)
  }

  // ---- The steps ------------------------------------------------------------

  /** allocSlot: the id's own slot, else the last freed one, else a new one at the
      end of every slice (setSlotKey grows the key slice with it). */
  function Allocate(schema: Schema, l: Layout, id: string): (r: (Layout, nat))
    requires |l.cells| == |schema.columns|
    requires |l.slotToID| == |l.live|
    requires forall k | 0 <= k < |l.freeList| :: l.freeList[k] < |l.live|
  {
    if id in l.idToSlot then (l, l.idToSlot[id])
    else if l.freeList != [] then
      var slot := l.freeList[|l.freeList| - 1];
      (l.(freeList := l.freeList[..|l.freeList| - 1],
          deadCount := if l.deadCount > 0 then l.deadCount - 1 else 0,
          live := l.live[slot := true],
          slotToID := l.slotToID[slot := id],
          idToSlot := l.idToSlot[id := slot]), slot)
    else
      var slot := |l.live|;
      (l.(cells := seq(|l.cells|, i requires 0 <= i < |l.cells| => l.cells[i] + [Zero(schema.columns[i].elem)]),
          leftover := if schema.mapBacked then l.leftover + [map[]] else l.leftover,
          live := l.live + [true],
          slotToID := l.slotToID + [id],
          idToSlot := l.idToSlot[id := slot]), slot)
  }

  /** setSlotKey */
  function SetKey(l: Layout, slot: nat, key: Key): Layout {
    var grown := if slot < |l.slotToKey| then l.slotToKey
                 else l.slotToKey + seq(slot + 1 - |l.slotToKey|, i => None);
    l.(slotToKey := grown[slot := Some(key)])
  }

  /** writeSlot */
  function Write(schema: Schema, external: seq<bool>, l: Layout, slot: nat, row: Decoded): Layout
    requires |l.cells| == |l.memory| == |external| == |row.cells|
    requires forall i | 0 <= i < |l.cells| :: slot < |l.cells[i]|
    requires schema.mapBacked ==> slot < |l.leftover|
  {
    l.(cells := seq(|l.cells|, i requires 0 <= i < |l.cells| => l.cells[i][slot := row.cells[i]]),
       memory := seq(|l.memory|, i requires 0 <= i < |l.memory| =>
                   if external[i] then l.memory[i][slot as int := row.cells[i]] else l.memory[i]),
       leftover := if schema.mapBacked then l.leftover[slot := row.leftover] else l.leftover)
  }

  /** freeSlot, and the id's entry removed */
  function Free(schema: Schema, external: seq<bool>, l: Layout, id: string): Layout
    requires Shaped(schema, l) && Linked(l) && |external| == |l.memory| && id in l.idToSlot
  {
    var slot := l.idToSlot[id];
    l.(cells := seq(|l.cells|, i requires 0 <= i < |l.cells| => l.cells[i][slot := Zero(schema.columns[i].elem)]),
       memory := seq(|l.memory|, i requires 0 <= i < |l.memory| =>
                   if external[i] then l.memory[i] - {slot as int} else l.memory[i]),
       leftover := if schema.mapBacked then l.leftover[slot := map[]] else l.leftover,
       live := l.live[slot := false],
       slotToID := l.slotToID[slot := ""],
       slotToKey := l.slotToKey[slot := None],
       freeList := l.freeList + [slot],
       deadCount := l.deadCount + 1,
       idToSlot := l.idToSlot - {id})
  }

  /** The live slots in ascending order. */
  function LiveSlots(live: seq<bool>): (r: seq<nat>)
    ensures forall k | 0 <= k < |r| :: r[k] < |live| && live[r[k]]
    ensures forall j, k | 0 <= j < k < |r| :: r[j] < r[k]
    ensures |r| <= |live|
  {
    if live == [] then []
    else
      var n := |live| - 1;
      LiveSlots(live[..n]) + if live[n] then [n] else []
  }

  /** How many live slots precede s: its slot after a compaction. */
  function Rank(live: seq<bool>, s: nat): nat
    requires s <= |live|
  {
    |LiveSlots(live[..s])|
  }

  function Pick<E>(xs: seq<E>, slots: seq<nat>): seq<E>
    requires forall k | 0 <= k < |slots| :: slots[k] < |xs|
  {
    seq(|slots|, k requires 0 <= k < |slots| => xs[slots[k]])
  }

  /** compact: only the live slots stay, in ascending order; every external
      strategy is told the new slots and never told to forget the old tail. */
  function Compact(schema: Schema, external: seq<bool>, l: Layout): Layout
    requires Shaped(schema, l) && Linked(l) && |external| == |l.memory|
  {
    var slots := LiveSlots(l.live);
    var cells := seq(|l.cells|, i requires 0 <= i < |l.cells| => Pick(l.cells[i], slots));
    Layout(
      map id | id in l.idToSlot :: Rank(l.live, l.idToSlot[id]),
      Pick(l.slotToID, slots),
      Pick(l.slotToKey, slots),
      seq(|slots|, k => true),
      [],
      0,
      if schema.mapBacked then Pick(l.leftover, slots) else [],
      cells,
      seq(|l.memory|, i requires 0 <= i < |l.memory| =>
        if external[i] then l.memory[i] + (map k: int | 0 <= k < |slots| :: cells[i][k]) else l.memory[i]))
  }

  /** A new engine stands for the empty map. */
  lemma EmptyStands(schema: Schema, external: seq<bool>, l: Layout)
    requires |external| == |l.memory| == |l.cells| == |schema.columns|
    requires l.idToSlot == map[] && l.live == [] && l.slotToID == [] && l.slotToKey == []
    requires l.freeList == [] && l.deadCount == 0 && l.leftover == []
    requires forall i | 0 <= i < |l.cells| :: l.cells[i] == []
    ensures Sound(schema, external, l) && Represents(schema, external, l, map[])
  {
  }

  // ---- What the steps keep ---------------------------------------------------

  /** Allocation keeps the slot structure. */
  lemma AllocateLinks(schema: Schema, l: Layout, id: string)
    requires Shaped(schema, l) && Linked(l) && FreeListed(l)
    ensures Linked(Allocate(schema, l, id).0) && FreeListed(Allocate(schema, l, id).0)
    ensures var (l1, slot) := Allocate(schema, l, id);
            && slot < |l1.live| && l1.live[slot] && l1.slotToID[slot] == id
            && l1.idToSlot == l.idToSlot[id := slot]
            && (forall s | 0 <= s < |l1.live| && s != slot :: s < |l.live| && l1.live[s] == l.live[s])
            && |l1.live| - l1.deadCount == |l.live| - l.deadCount + if id in l.idToSlot then 0 else 1
  {
    AllocateFrees(schema, l, id);
    AllocateLinked(schema, l, id);
  }

  lemma AllocateLinked(schema: Schema, l: Layout, id: string)
    requires Shaped(schema, l) && Linked(l) && FreeListed(l)
    ensures Linked(Allocate(schema, l, id).0)
  {
  }

  lemma AllocateFrees(schema: Schema, l: Layout, id: string)
    requires Shaped(schema, l) && Linked(l) && FreeListed(l)
    ensures FreeListed(Allocate(schema, l, id).0)
  {
    var (l1, slot) := Allocate(schema, l, id);
    if id !in l.idToSlot && l.freeList != [] {
      forall s | Slot(s) && s < |l1.live| && !l1.live[s]
        ensures s in l1.freeList
      {
        var k :| 0 <= k < |l.freeList| && l.freeList[k] == s;
        assert l1.freeList[k] == s;
      }
    }
  }

  lemma AllocateShapes(schema: Schema, l: Layout, id: string, key: Key)
    requires Shaped(schema, l) && Linked(l) && FreeListed(l)
    ensures var (l1, slot) := Allocate(schema, l, id);
            var l2 := SetKey(l1, slot, key);
            && Shaped(schema, l2)
            && slot < |l2.live|
            && l2.slotToKey[slot] == Some(key)
            && l2.memory == l1.memory == l.memory
            && l1.live == l2.live && l1.cells == l2.cells && l1.leftover == l2.leftover && l1.idToSlot == l2.idToSlot
            && l1.slotToID == l2.slotToID && l1.freeList == l2.freeList && l1.deadCount == l2.deadCount
            && (forall s | 0 <= s < |l.live| && s != slot :: l2.slotToKey[s] == l.slotToKey[s])
            && (forall i, s | 0 <= i < |l.cells| && 0 <= s < |l.live| :: l2.cells[i][s] == l.cells[i][s])
            && (schema.mapBacked ==> forall s | 0 <= s < |l.live| :: l2.leftover[s] == l.leftover[s])
  {
  }

  /** A write is seen at its slot and nowhere else. */
  lemma WriteHolds(schema: Schema, external: seq<bool>, l: Layout, slot: nat, row: Decoded, at: nat, stored: Decoded)
    requires Shaped(schema, l) && |external| == |l.memory| && WellTyped(schema, row)
    requires slot < |l.live| && at < |l.live|
    requires if at == slot then stored == row else HoldsRow(schema, l, at, stored)
    ensures Shaped(schema, Write(schema, external, l, slot, row))
    ensures HoldsRow(schema, Write(schema, external, l, slot, row), at, stored)
  {
  }

  lemma WriteIndexes(schema: Schema, external: seq<bool>, l: Layout, slot: nat, row: Decoded)
    requires Shaped(schema, l) && |external| == |l.memory| && |row.cells| == |l.cells| && slot < |l.live|
    requires forall i, s: nat | 0 <= i < |external| && external[i] && s < |l.live| && l.live[s] && s != slot ::
               s in l.memory[i] && l.memory[i][s] == l.cells[i][s]
    ensures Indexed(Write(schema, external, l, slot, row), external)
  {
  }

  /** The layout after storing a row: allocate, set the key, write. */
  function Stored'(schema: Schema, external: seq<bool>, l: Layout, id: string, key: Key, row: Decoded): Layout
    requires Shaped(schema, l) && Linked(l) && FreeListed(l) && |external| == |l.memory| && WellTyped(schema, row)
  {
    var (l1, slot) := Allocate(schema, l, id);
    AllocateShapes(schema, l, id, key);
    Write(schema, external, SetKey(l1, slot, key), slot, row)
  }

  /** A stored row is found again, and storing one disturbs no other. */
  lemma StoreCarries(schema: Schema, external: seq<bool>, l: Layout, id: string, key: Key, row: Decoded, other: string, stored: Stored)
    requires Shaped(schema, l) && Linked(l) && FreeListed(l) && |external| == |l.memory| && WellTyped(schema, row)
    requires if other == id then stored == Stored(row, key) else Carries(schema, l, other, stored)
    ensures Shaped(schema, Stored'(schema, external, l, id, key, row))
    ensures Linked(Stored'(schema, external, l, id, key, row))
    ensures FreeListed(Stored'(schema, external, l, id, key, row))
    ensures Carries(schema, Stored'(schema, external, l, id, key, row), other, stored)
  {
    var (l1, slot) := Allocate(schema, l, id);
    AllocateLinks(schema, l, id);
    AllocateShapes(schema, l, id, key);
    var l2 := SetKey(l1, slot, key);
    var at := if other == id then slot else l.idToSlot[other];
    WriteHolds(schema, external, l2, slot, row, at, stored.row);
  }

  /** Storing a row stands for adding it to the map. */
  lemma StoreRepresents(schema: Schema, external: seq<bool>, l: Layout, t: Table, id: string, key: Key, row: Decoded)
    requires Sound(schema, external, l) && Represents(schema, external, l, t) && WellTyped(schema, row)
    ensures Sound(schema, external, Stored'(schema, external, l, id, key, row))
    ensures Represents(schema, external, Stored'(schema, external, l, id, key, row), t[id := Stored(row, key)])
  {
    assert Unfold(l, t, true);
    StoreCarries(schema, external, l, id, key, row, id, Stored(row, key));
    StoreCarriesAll(schema, external, l, t, id, key, row);
    StoreIndexes(schema, external, l, id, key, row);
    StoreCounts(schema, external, l, t, id, key, row);
  }

  lemma StoreCarriesAll(schema: Schema, external: seq<bool>, l: Layout, t: Table, id: string, key: Key, row: Decoded)
    requires Sound(schema, external, l) && Stands(schema, external, l, t) && WellTyped(schema, row)
    requires Shaped(schema, Stored'(schema, external, l, id, key, row))
    requires Linked(Stored'(schema, external, l, id, key, row))
    ensures var t' := t[id := Stored(row, key)];
            forall other | other in t' :: Carries(schema, Stored'(schema, external, l, id, key, row), other, t'[other])
  {
    var t' := t[id := Stored(row, key)];
    forall other | other in t'
      ensures Carries(schema, Stored'(schema, external, l, id, key, row), other, t'[other])
    {
      StoreCarries(schema, external, l, id, key, row, other, t'[other]);
    }
  }

  lemma StoreCounts(schema: Schema, external: seq<bool>, l: Layout, t: Table, id: string, key: Key, row: Decoded)
    requires Sound(schema, external, l) && Stands(schema, external, l, t) && WellTyped(schema, row)
    ensures var l3 := Stored'(schema, external, l, id, key, row);
            && l3.idToSlot.Keys == t[id := Stored(row, key)].Keys
            && |t[id := Stored(row, key)]| + l3.deadCount == |l3.live|
  {
    AllocateLinks(schema, l, id);
  }

  /** Storing never adds a dead slot or drops a slot. */
  lemma StoreKeepsBounds(schema: Schema, external: seq<bool>, l: Layout, id: string, key: Key, row: Decoded)
    requires Shaped(schema, l) && Linked(l) && FreeListed(l) && |external| == |l.memory| && WellTyped(schema, row)
    ensures Stored'(schema, external, l, id, key, row).deadCount <= l.deadCount
    ensures |Stored'(schema, external, l, id, key, row).live| >= |l.live|
  {
  }

  lemma StoreIndexes(schema: Schema, external: seq<bool>, l: Layout, id: string, key: Key, row: Decoded)
    requires Shaped(schema, l) && Linked(l) && FreeListed(l) && Indexed(l, external) && WellTyped(schema, row)
    ensures Indexed(Stored'(schema, external, l, id, key, row), external)
  {
    var (l1, slot) := Allocate(schema, l, id);
    AllocateLinks(schema, l, id);
    AllocateShapes(schema, l, id, key);
    WriteIndexes(schema, external, SetKey(l1, slot, key), slot, row);
  }

  /** Overwriting a stored row in place stands for replacing it in the map. */
  lemma RewriteRepresents(schema: Schema, external: seq<bool>, l: Layout, t: Table, id: string, row: Decoded)
    requires Sound(schema, external, l) && Represents(schema, external, l, t) && WellTyped(schema, row) && id in t
    ensures id in l.idToSlot
    ensures Sound(schema, external, Write(schema, external, l, l.idToSlot[id], row))
    ensures Represents(schema, external, Write(schema, external, l, l.idToSlot[id], row), t[id := Stored(row, t[id].key)])
  {
    assert Unfold(l, t, true);
    var slot := l.idToSlot[id];
    var l' := Write(schema, external, l, slot, row);
    var t' := t[id := Stored(row, t[id].key)];
    WriteHolds(schema, external, l, slot, row, slot, row);
    WriteIndexes(schema, external, l, slot, row);
    assert Linked(l') && FreeListed(l');
    forall other | other in t'
      ensures Carries(schema, l', other, t'[other])
    {
      if other != id {
        WriteHolds(schema, external, l, slot, row, l.idToSlot[other], t[other].row);
      }
    }
  }

  lemma FreeLinks(schema: Schema, external: seq<bool>, l: Layout, id: string)
    requires Shaped(schema, l) && Linked(l) && FreeListed(l) && |external| == |l.memory| && id in l.idToSlot
    ensures Shaped(schema, Free(schema, external, l, id))
    ensures Linked(Free(schema, external, l, id))
    ensures FreeListed(Free(schema, external, l, id))
  {
    var slot := l.idToSlot[id];
    var l' := Free(schema, external, l, id);
    assert l'.freeList[|l.freeList|] == slot;
    forall s | Slot(s) && s < |l'.live| && !l'.live[s]
      ensures s in l'.freeList
    {
      if s != slot {
        var k :| 0 <= k < |l.freeList| && l.freeList[k] == s;
        assert l'.freeList[k] == s;
      }
    }
  }

  lemma FreeCarries(schema: Schema, external: seq<bool>, l: Layout, id: string, other: string, stored: Stored)
    requires Shaped(schema, l) && Linked(l) && FreeListed(l) && |external| == |l.memory| && id in l.idToSlot
    requires other != id && Carries(schema, l, other, stored)
    ensures Shaped(schema, Free(schema, external, l, id))
    ensures Linked(Free(schema, external, l, id))
    ensures Carries(schema, Free(schema, external, l, id), other, stored)
  {
    FreeLinks(schema, external, l, id);
  }

  /** Deleting tombstones the slot and stands for removing the id. */
  lemma FreeRepresents(schema: Schema, external: seq<bool>, l: Layout, t: Table, id: string)
    requires Sound(schema, external, l) && Represents(schema, external, l, t) && id in t
    ensures id in l.idToSlot
    ensures Sound(schema, external, Free(schema, external, l, id))
    ensures Represents(schema, external, Free(schema, external, l, id), t - {id})
  {
    assert Unfold(l, t, true);
    var l' := Free(schema, external, l, id);
    var t' := t - {id};
    assert t == t'[id := t[id]];
    FreeLinks(schema, external, l, id);
    forall other | other in t'
      ensures Carries(schema, l', other, t'[other])
    {
      FreeCarries(schema, external, l, id, other, t[other]);
    }
    FreeIndexes(schema, external, l, id);
  }

  lemma FreeIndexes(schema: Schema, external: seq<bool>, l: Layout, id: string)
    requires Shaped(schema, l) && Linked(l) && Indexed(l, external) && id in l.idToSlot
    ensures Indexed(Free(schema, external, l, id), external)
  {
  }

  lemma {:induction false} RankOfLive(live: seq<bool>, s: nat)
    requires s < |live| && live[s]
    ensures Rank(live, s) < |LiveSlots(live)| && LiveSlots(live)[Rank(live, s)] == s
  {
    var n := |live| - 1;
    if s < n {
      assert live[..n][..s] == live[..s];
      RankOfLive(live[..n], s);
    }
  }

  lemma RankOfNth(live: seq<bool>, k: nat)
    requires k < |LiveSlots(live)|
    ensures Rank(live, LiveSlots(live)[k]) == k
  {
    var s := LiveSlots(live)[k];
    RankOfLive(live, s);
    var j := Rank(live, s);
    assert LiveSlots(live)[j] == LiveSlots(live)[k];
  }

  /** The first k live slots' ids have their new slots, the others still the old. */
  ghost predicate Renumbered(l: Layout, k: nat, at: map<string, nat>)
    requires Linked(l)
  {
    && at.Keys == l.idToSlot.Keys
    && forall id | id in at :: at[id] == if Rank(l.live, l.idToSlot[id]) < k then Rank(l.live, l.idToSlot[id]) else l.idToSlot[id]
  }

  lemma RenumberOne(l: Layout, k: nat, at: map<string, nat>)
    requires Linked(l) && k < |LiveSlots(l.live)| && Renumbered(l, k, at)
    ensures Renumbered(l, k + 1, at[l.slotToID[LiveSlots(l.live)[k]] := k])
  {
    var slot := LiveSlots(l.live)[k];
    assert Slot(slot);
    RankOfNth(l.live, k);
    forall other | other in at && other != l.slotToID[slot]
      ensures Rank(l.live, l.idToSlot[other]) != k
    {
      RankOfLive(l.live, l.idToSlot[other]);
    }
  }

  lemma AllRenumbered(l: Layout, at: map<string, nat>)
    requires Linked(l) && Renumbered(l, |LiveSlots(l.live)|, at)
    ensures at == map id | id in l.idToSlot :: Rank(l.live, l.idToSlot[id])
  {
    forall id | id in at
      ensures Rank(l.live, l.idToSlot[id]) < |LiveSlots(l.live)|
    {
      RankOfLive(l.live, l.idToSlot[id]);
    }
  }

  lemma CompactLinks(schema: Schema, external: seq<bool>, l: Layout)
    requires Shaped(schema, l) && Linked(l) && |external| == |l.memory|
    ensures Shaped(schema, Compact(schema, external, l))
    ensures Linked(Compact(schema, external, l))
    ensures forall id | id in l.idToSlot ::
              && Compact(schema, external, l).idToSlot[id] < |LiveSlots(l.live)|
              && LiveSlots(l.live)[Compact(schema, external, l).idToSlot[id]] == l.idToSlot[id]
  {
    var slots := LiveSlots(l.live);
    var l' := Compact(schema, external, l);
    forall id | id in l.idToSlot
      ensures l'.idToSlot[id] < |slots| && slots[l'.idToSlot[id]] == l.idToSlot[id]
    {
      RankOfLive(l.live, l.idToSlot[id]);
    }
    forall k | Slot(k) && k < |slots|
      ensures l'.slotToID[k] in l'.idToSlot && l'.idToSlot[l'.slotToID[k]] == k
    {
      RankOfNth(l.live, k);
      assert Slot(slots[k]) && l'.slotToID[k] == l.slotToID[slots[k]];
    }
  }

  lemma CompactCarries(schema: Schema, external: seq<bool>, l: Layout, id: string, stored: Stored)
    requires Shaped(schema, l) && Linked(l) && |external| == |l.memory|
    requires Carries(schema, l, id, stored)
    ensures Shaped(schema, Compact(schema, external, l))
    ensures Linked(Compact(schema, external, l))
    ensures Carries(schema, Compact(schema, external, l), id, stored)
  {
    CompactLinks(schema, external, l);
    var l' := Compact(schema, external, l);
    var k := l'.idToSlot[id];
    assert LiveSlots(l.live)[k] == l.idToSlot[id];
  }

  lemma CompactIndexes(schema: Schema, external: seq<bool>, l: Layout)
    requires Shaped(schema, l) && Linked(l) && |external| == |l.memory|
    ensures Indexed(Compact(schema, external, l), external)
  {
  }

  /** Compaction renumbers every row and changes none; it moves one row a stored id. */
  lemma CompactRepresents(schema: Schema, external: seq<bool>, l: Layout, t: Table)
    requires Sound(schema, external, l) && Represents(schema, external, l, t)
    ensures Sound(schema, external, Compact(schema, external, l))
    ensures Represents(schema, external, Compact(schema, external, l), t)
    ensures |LiveSlots(l.live)| == |t| == |l.live| - l.deadCount
  {
    assert Unfold(l, t, true);
    CompactSound(schema, external, l);
    CompactStands(schema, external, l, t);
    LiveSlotsCount(l);
  }

  lemma CompactSound(schema: Schema, external: seq<bool>, l: Layout)
    requires Sound(schema, external, l)
    ensures Sound(schema, external, Compact(schema, external, l))
  {
    CompactLinks(schema, external, l);
  }

  lemma CompactStands(schema: Schema, external: seq<bool>, l: Layout, t: Table)
    requires Sound(schema, external, l) && Stands(schema, external, l, t)
    requires Sound(schema, external, Compact(schema, external, l))
    ensures Stands(schema, external, Compact(schema, external, l), t)
  {
    CompactCarriesAll(schema, external, l, t);
    CompactIndexes(schema, external, l);
    CompactCounts(schema, external, l, t);
  }

  lemma CompactCarriesAll(schema: Schema, external: seq<bool>, l: Layout, t: Table)
    requires Sound(schema, external, l) && Stands(schema, external, l, t)
    requires Shaped(schema, Compact(schema, external, l)) && Linked(Compact(schema, external, l))
    ensures forall id | id in t :: Carries(schema, Compact(schema, external, l), id, t[id])
  {
    forall id | id in t
      ensures Carries(schema, Compact(schema, external, l), id, t[id])
    {
      CompactCarries(schema, external, l, id, t[id]);
    }
  }

  lemma CompactCounts(schema: Schema, external: seq<bool>, l: Layout, t: Table)
    requires Shaped(schema, l) && Linked(l) && |external| == |l.memory| && t.Keys == l.idToSlot.Keys
    ensures FreeListed(Compact(schema, external, l))
    ensures t.Keys == Compact(schema, external, l).idToSlot.Keys
    ensures |Compact(schema, external, l).live| == |t| == |LiveSlots(l.live)|
    ensures Compact(schema, external, l).deadCount == 0
  {
    LiveSlotsCount(l);
  }

  /** There is one live slot a stored id. */
  lemma LiveSlotsCount(l: Layout)
    requires Linked(l)
    ensures |LiveSlots(l.live)| == |l.idToSlot.Keys|
  {
    var slots := LiveSlots(l.live);
    var ids := Pick(l.slotToID, slots);
    forall i, j | 0 <= i < j < |ids|
      ensures ids[i] != ids[j]
    {
      assert Slot(slots[i]) && Slot(slots[j]);
    }
    forall x
      ensures x in ids <==> x in l.idToSlot.Keys
    {
      if x in ids {
        var i :| 0 <= i < |ids| && ids[i] == x;
        assert Slot(slots[i]);
      }
      if x in l.idToSlot {
        RankOfLive(l.live, l.idToSlot[x]);
        assert ids[Rank(l.live, l.idToSlot[x])] == x;
      }
    }
    DistinctCount(ids, l.idToSlot.Keys);
  }

  lemma {:induction false} DistinctCount(ids: seq<string>, s: set<string>)
    requires Distinct(ids) && forall x :: x in ids <==> x in s
    ensures |ids| == |s|
  {
    if ids == [] {
      assert s == {};
    } else {
      assert ids[0] in s;
      forall x
        ensures x in ids[1..] <==> x in s - {ids[0]}
      {
        assert ids == [ids[0]] + ids[1..];
      }
      DistinctCount(ids[1..], s - {ids[0]});
    }
  }
}
