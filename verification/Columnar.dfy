/** The columnar storage engine: typed column slices over shared row slots, with
    tombstones, a free list, compaction and per-column equality indexes, proved
    against the plain map of module Table. */
module Columnar {
  import opened Ordering
  import opened Values
  import opened Where
  import opened T = Table
  import opened SlotLayout
  import PathUpdate

  /** One column: its typed slice and the strategy that indexes it. The default
      strategy scans the slice; when a column was declared again, the default
      strategy of the last declaration scans the slice of a column object that
      is no longer used, which stays empty (orphaned). An external strategy
      remembers what SetValue and ClearValue told it. */
  class Column {
    const spec: ColumnSpec
    const external: bool
    const orphaned: bool
    var values: seq<Value>
    var recorded: map<int, Value>

    constructor (spec: ColumnSpec, external: bool, orphaned: bool)
      ensures this.spec == spec && this.external == external && this.orphaned == orphaned
      ensures values == [] && recorded == map[]
    {
      this.spec, this.external, this.orphaned := spec, external, orphaned;
      values, recorded := [], map[];
    }

    method SetValue(slot: nat, value: Value)
      modifies this`recorded
      ensures recorded == if external then old(recorded)[slot := value] else old(recorded)
    {
      if external {
        recorded := recorded[slot := value];
      }
    }

    method ClearValue(slot: nat)
      modifies this`recorded
      ensures recorded == if external then old(recorded) - {slot as int} else old(recorded)
    {
      if external {
        recorded := recorded - {slot};
      }
    }

    /** SetValue for every slot of the slice. */
    method Retell()
      requires external
      modifies this`recorded
      ensures recorded == old(recorded) + (map k: int | 0 <= k < |values| :: values[k])
    {
      for slot := 0 to |values|
        invariant recorded == old(recorded) + (map k: int | 0 <= k < slot :: values[k])
      {
        SetValue(slot, values[slot]);
      }
    }

    /** What the strategy answers for an equality: None is "no opinion". */
    ghost function Answer(value: Value, live: seq<bool>): Option<set<int>>
      reads this
      requires |values| == |live|
    {
      if external then Some(set s | s in recorded && recorded[s] == value)
      else if spec.elem == TAny then None
      else if orphaned || value.Arr? || value.Obj? then Some({})
      else Some(set s: int | 0 <= s < |live| && live[s] && values[s] == value)
    }

    method EqualSlots(value: Value, live: seq<bool>) returns (slots: Option<set<int>>)
      requires |values| == |live|
      ensures slots == Answer(value, live)
    {
      if external {
        return Some(set s | s in recorded && recorded[s] == value);
      }
      if spec.elem == TAny {
        return None;
      }
      var scanned := if orphaned then [] else values;
      var found: set<int> := {};
      for slot := 0 to |scanned|
        invariant found == set s: int | 0 <= s < slot && live[s] && !value.Arr? && !value.Obj? && scanned[s] == value
      {
        if live[slot] && !value.Arr? && !value.Obj? && scanned[slot] == value {
          found := found + {slot};
        }
      }
      assert found == if orphaned || value.Arr? || value.Obj? then {}
                      else set s: int | 0 <= s < |live| && live[s] && values[s] == value;
      slots := Some(found);
    }
  }

  lemma Inhabited(slots: set<int>)
    ensures slots == {} || exists slot :: slot in slots
  {
    if forall slot :: slot !in slots {
      assert slots == {};
    }
  }

  /** next[newSlot] = xs[slots[newSlot]], element by element. */
  method Gather<E>(xs: seq<E>, slots: seq<nat>) returns (next: seq<E>)
    requires forall k | 0 <= k < |slots| :: slots[k] < |xs|
    ensures next == Pick(xs, slots)
  {
    next := [];
    for k := 0 to |slots|
      invariant |next| == k && forall j | 0 <= j < k :: next[j] == xs[slots[j]]
    {
      next := next + [xs[slots[k]]];
    }
  }

  /** The first cell that does not decode decides the error. */
  lemma {:induction false} DecodeStopsAt(columns: seq<ColumnSpec>, m: Fields, i: nat)
    requires i <= |columns| && DecodeCells(columns[..i], m).Err?
    ensures DecodeCells(columns, m) == DecodeCells(columns[..i], m)
    decreases |columns|
  {
    if i == |columns| {
      assert columns[..i] == columns;
    } else {
      var n := |columns| - 1;
      assert columns[..n][..i] == columns[..i];
      DecodeStopsAt(columns[..n], m, i);
    }
  }

  class ColumnarEngine {
    const schema: Schema
    const usable: bool
    const columns: seq<Column>
    ghost const external: seq<bool>
    var idToSlot: map<string, nat>
    var slotToID: seq<string>
    var slotToKey: seq<Option<Key>>
    var live: seq<bool>
    var freeList: seq<nat>
    var deadCount: nat
    var leftover: seq<Fields>

    ghost var layout: Layout   // all of the above and the columns' contents
    ghost var rows: Table
    ghost var moved: nat   // counts the rows compactions move, one by one

    /** layout says what the fields and the column objects hold. */
    ghost predicate Mirrored()
      reads this, columns
    {
      && idToSlot == layout.idToSlot
      && slotToID == layout.slotToID
      && slotToKey == layout.slotToKey
      && live == layout.live
      && freeList == layout.freeList
      && deadCount == layout.deadCount
      && leftover == layout.leftover
      && |layout.cells| == |layout.memory| == |columns|
      && (forall i | 0 <= i < |columns| :: columns[i].values == layout.cells[i])
      && (forall i | 0 <= i < |columns| :: columns[i].recorded == layout.memory[i])
    }

    ghost predicate Columns() {
      && ValidSchema(schema)
      && |columns| == |schema.columns|
      && (forall i, j | 0 <= i < j < |columns| :: columns[i] != columns[j])
      && (forall i | 0 <= i < |columns| :: columns[i].spec == schema.columns[i])
      && |external| == |columns|
      && (forall i | 0 <= i < |columns| :: external[i] == columns[i].external)
    }

    /** The engine stands for the map rows. */
    ghost predicate Consistent()
      reads this, columns
    {
      && Columns()
      && Mirrored()
      && Sound(schema, external, layout)
      && Represents(schema, external, layout, rows)
      && ValidTable(schema, rows)
      && (!usable ==> rows == map[])
    }

    /** Fewer than half the slots are dead. */
    ghost predicate Valid()
      reads this, columns
    {
      && Consistent()
      && (deadCount == 0 || 2 * deadCount < |live|)
    }

    /** newColumnarEngineFactory: columns from the struct's fields or from the
        declared columns; a map-backed collection without declared columns is
        unusable. strategies names
        the columns given an external strategy, redeclared the ones declared again. */
    constructor (schema: Schema, strategies: set<string>, redeclared: set<string>)
      requires ValidSchema(schema)
      ensures Valid() && fresh(columns)
      ensures rows == map[] && moved == 0 && deadCount == 0
      ensures this.schema == schema && usable == (!schema.mapBacked || schema.columns != [])
      ensures forall i | 0 <= i < |columns| ::
                && columns[i].external == (schema.columns[i].name in strategies)
                && columns[i].orphaned == (schema.columns[i].name in redeclared && schema.columns[i].name !in strategies)
    {
      this.schema := schema;
      usable := !schema.mapBacked || schema.columns != [];
      var built: seq<Column> := [];
      for i := 0 to |schema.columns|
        invariant |built| == i
        invariant forall j | 0 <= j < i :: fresh(built[j]) && built[j].values == [] && built[j].recorded == map[]
        invariant forall j | 0 <= j < i :: built[j].spec == schema.columns[j]
        invariant forall j | 0 <= j < i :: built[j].external == (schema.columns[j].name in strategies)
        invariant forall j | 0 <= j < i :: built[j].orphaned == (schema.columns[j].name in redeclared && schema.columns[j].name !in strategies)
        invariant forall j, k | 0 <= j < k < i :: built[j] != built[k]
      {
        var c := schema.columns[i];
        var column := new Column(c, c.name in strategies, c.name in redeclared && c.name !in strategies);
        built := built + [column];
      }
      columns := built;
      idToSlot, slotToID, slotToKey, live := map[], [], [], [];
      freeList, deadCount, leftover := [], 0, [];
      rows, moved := map[], 0;
      this.external := seq(|built|, i requires 0 <= i < |built| => built[i].external);
      layout := Layout(map[], [], [], [], [], 0, [], seq(|schema.columns|, i => []), seq(|schema.columns|, i => map[]));
      new;
      EmptyStands(this.schema, this.external, layout);
    }

    // ---- Reading ------------------------------------------------------------

    /** The engine finds exactly the ids of the map, each at a live slot that holds
        its row. */
    lemma Finds(id: string)
      requires Valid()
      ensures id in rows <==> id in idToSlot
      ensures id in idToSlot ==> idToSlot[id] < |live| && live[idToSlot[id]]
      ensures id in rows ==> HoldsRow(schema, layout, idToSlot[id], rows[id].row) && slotToKey[idToSlot[id]] == Some(rows[id].key)
    {
      assert Unfold(layout, rows, true);
      if id in rows {
        assert Carries(schema, layout, id, rows[id]);
      }
    }

    method Exists(id: string) returns (found: bool)
      requires Valid()
      ensures found == (id in rows)
    {
      Finds(id);
      if !usable {
        return false;
      }
      found := id in idToSlot && live[idToSlot[id]];
    }

    /** rowData: overlay the cells on the leftover fields and normalise. */
    method RowData(slot: nat, ghost row: Decoded) returns (data: Fields)
      requires Columns() && Mirrored() && Shaped(schema, layout) && slot < |live| && HoldsRow(schema, layout, slot, row)
      ensures data == View(schema, row)
    {
      var cells := if schema.mapBacked then leftover[slot] else map[];
      for i := 0 to |columns|
        invariant cells == Overlay(row.leftover, schema.columns[..i], row.cells[..i])
      {
        cells := cells[columns[i].spec.name := columns[i].values[slot]];
        assert schema.columns[..i + 1][..i] == schema.columns[..i] && row.cells[..i + 1][..i] == row.cells[..i];
      }
      assert schema.columns[..|columns|] == schema.columns && row.cells[..|columns|] == row.cells;
      data := NormFields(cells);
    }

    method Load(id: string) returns (r: Result<Fields, Failure>)
      requires Valid()
      ensures r == if !usable then Err(Unusable)
                   else if id in rows then Ok(View(schema, rows[id].row))
                   else Err(NotFound)
    {
      Finds(id);
      if !usable {
        return Err(Unusable);
      }
      if id !in idToSlot || !live[idToSlot[id]] {
        return Err(NotFound);
      }
      var data := RowData(idToSlot[id], rows[id].row);
      r := Ok(data);
    }

    lemma SameIds()
      requires Valid()
      ensures idToSlot.Keys == rows.Keys
    {
      assert Unfold(layout, rows, true);
    }

    /** Slots never exceed twice the stored rows. */
    lemma SpaceBound()
      requires Valid()
      ensures |live| <= 2 * |rows|
      ensures deadCount > 0 ==> |live| < 2 * |rows|
    {
      assert Unfold(layout, rows, true);
    }

    method BuildRow(id: string) returns (row: Row)
      requires Valid() && id in rows
      ensures row == RowOf(schema, rows, id)
    {
      Finds(id);
      var slot := idToSlot[id];
      var data := RowData(slot, rows[id].row);
      row := Row(id, data, slotToKey[slot]);
    }

    /** buildRows: reassemble the given ids in order. */
    method BuildRows(ids: seq<string>) returns (r: seq<Row>)
      requires Valid()
      requires forall k | 0 <= k < |ids| :: ids[k] in rows
      ensures |r| == |ids|
      ensures forall k | 0 <= k < |ids| :: r[k] == RowOf(schema, rows, ids[k])
    {
      r := [];
      for k := 0 to |ids|
        invariant |r| == k
        invariant forall j | 0 <= j < k :: r[j] == RowOf(schema, rows, ids[j])
      {
        var row := BuildRow(ids[k]);
        r := r + [row];
      }
    }

    /** rows: every stored row once, by ascending id. */
    method Rows() returns (r: Result<seq<Row>, Failure>)
      requires Valid()
      ensures r == if usable then Ok(List(schema, rows, rows.Keys)) else Err(Unusable)
    {
      SameIds();
      if !usable {
        return Err(Unusable);
      }
      var ids := CollectIds();
      var sorted := SortIds(ids, rows.Keys);
      var listed := BuildRows(sorted);
      assert listed == List(schema, rows, rows.Keys);
      r := Ok(listed);
    }

    method CollectIds() returns (ids: seq<string>)
      ensures Distinct(ids)
      ensures forall x :: x in ids <==> x in idToSlot.Keys
    {
      ids := [];
      var pending := idToSlot.Keys;
      while pending != {}
        invariant pending <= idToSlot.Keys
        invariant Distinct(ids)
        invariant forall x :: x in ids <==> x in idToSlot.Keys - pending
      {
        var id :| id in pending;
        assert id !in ids;
        pending := pending - {id};
        ids := ids + [id];
      }
    }

    ghost function Indexings(): (r: seq<Indexing>)
      ensures |r| == |columns|
      ensures forall i | 0 <= i < |r| :: r[i] == Indexing(columns[i].external, columns[i].orphaned)
    {
      seq(|columns|, i requires 0 <= i < |columns| => Indexing(columns[i].external, columns[i].orphaned))
    }

    /** candidateRows: for field == constant, the rows the column's strategy selects,
        by ascending id; None when the strategy, or the condition, has no opinion. */
    method CandidateRows(condition: Option<Cond>) returns (r: Result<Option<seq<Row>>, Failure>)
      requires Valid()
      ensures !usable ==> r == Err(Unusable)
      ensures usable ==> r.Ok?
      ensures usable ==>
                match Where.AsEquality(condition)
                case None => r.value == None
                case Some((field, constant)) =>
                  match Candidates(schema, Indexings(), rows, Equality(field, constant))
                  case None => r.value == None
                  case Some(ids) => ids <= rows.Keys && r.value == Some(List(schema, rows, ids))
    {
      if !usable {
        return Err(Unusable);
      }
      var eq := Where.AsEquality(condition);
      if eq.None? {
        return Ok(None);
      }
      var i := FindColumn(schema.columns, eq.value.0);
      if i.None? {
        return Ok(None);
      }
      var slots := columns[i.value].EqualSlots(eq.value.1, live);
      if slots.None? {
        return Ok(None);
      }
      ghost var want := Selected(schema, Indexings()[i.value], rows, i.value, eq.value.1).value;
      var ids := LiveIds(i.value, eq.value.1, slots.value);
      var sorted := SortIds(ids, want);
      var listed := BuildRows(sorted);
      assert listed == List(schema, rows, want);
      r := Ok(Some(listed));
    }

    /** The ids at the live slots of an answer. */
    method LiveIds(i: nat, value: Value, slots: set<int>) returns (ids: seq<string>)
      requires Valid() && i < |columns| && columns[i].Answer(value, live) == Some(slots)
      ensures Distinct(ids)
      ensures Selected(schema, Indexings()[i], rows, i, value).Some?
      ensures forall x :: x in ids <==> x in Selected(schema, Indexings()[i], rows, i, value).value
      ensures Selected(schema, Indexings()[i], rows, i, value).value <= rows.Keys
    {
      ids := [];
      var pending := slots;
      while pending != {}
        invariant pending <= slots
        invariant forall k | 0 <= k < |ids| :: ids[k] in idToSlot && (idToSlot[ids[k]] as int) in slots - pending
        invariant forall s | s in slots - pending && 0 <= s < |live| && live[s] :: slotToID[s] in ids
        invariant Distinct(ids)
      {
        Inhabited(pending);
        var slot :| slot in pending;
        pending := pending - {slot};
        if 0 <= slot < |live| && live[slot] {
          assert Slot(slot);
          ids := ids + [slotToID[slot]];
        }
      }
      AnswerSelects(i, value, slots);
    }

    /** Slot by slot, an answer selects exactly the rows Selected names: no live
        slot is missed, and stale slots name no row. */
    lemma AnswerSelects(i: nat, value: Value, slots: set<int>)
      requires Valid() && i < |columns| && columns[i].Answer(value, live) == Some(slots)
      ensures Selected(schema, Indexings()[i], rows, i, value).Some?
      ensures idToSlot.Keys == rows.Keys
      ensures forall id | id in rows :: id in idToSlot &&
                ((idToSlot[id] as int) in slots <==> id in Selected(schema, Indexings()[i], rows, i, value).value)
    {
      SameIds();
      forall id | id in rows
        ensures id in idToSlot
        ensures (idToSlot[id] as int) in slots <==> id in Selected(schema, Indexings()[i], rows, i, value).value
      {
        AnswerSelectsAt(i, value, slots, id);
      }
    }

    lemma AnswerSelectsAt(i: nat, value: Value, slots: set<int>, id: string)
      requires Valid() && i < |columns| && columns[i].Answer(value, live) == Some(slots) && id in rows && id in idToSlot
      requires Selected(schema, Indexings()[i], rows, i, value).Some?
      ensures (idToSlot[id] as int) in slots <==> id in Selected(schema, Indexings()[i], rows, i, value).value
    {
      Finds(id);
      var slot := idToSlot[id];
      assert columns[i].values[slot] == rows[id].row.cells[i];
      if columns[i].external {
        Remembers(i, slot);
      }
    }

    /** An external strategy knows its column's value at every live slot. */
    lemma Remembers(i: nat, slot: nat)
      requires Valid() && i < |columns| && columns[i].external && slot < |live| && live[slot]
      ensures slot in columns[i].recorded && columns[i].recorded[slot] == columns[i].values[slot]
    {
      assert Unfold(layout, rows, true);
      assert Indexed(layout, external);
    }

    method SortIds(ids: seq<string>, ghost of: set<string>) returns (sorted: seq<string>)
      requires Distinct(ids)
      requires forall x :: x in ids <==> x in of
      ensures sorted == SortedIds(of)
      ensures forall x :: x in sorted <==> x in of
    {
      sorted := SortBy(ids, StrLess);
      StrLessIsTotal(ids);
      SortDistinct(ids, StrLess);
      SortIsPermutation(ids, StrLess);
      SortedIdsUnique(of, sorted);
    }

    // ---- Writing ------------------------------------------------------------

    /** decodeMapFields: the fields no column declares. */
    method SplitLeftover(asMap: Fields) returns (rest: Fields)
      ensures rest == Undeclared(schema.columns, asMap)
    {
      rest := map[];
      var pending := asMap.Keys;
      while pending != {}
        invariant pending <= asMap.Keys
        invariant rest == map k | k in asMap && k !in pending && !Declared(schema.columns, k) :: asMap[k]
      {
        var key :| key in pending;
        pending := pending - {key};
        if !Declared(schema.columns, key) {
          rest := rest[key := asMap[key]];
        }
      }
    }

    /** prepareWrite: decode before any slot is reserved. */
    method PrepareWrite(data: Option<Fields>) returns (r: Result<Decoded, Failure>)
      requires Columns()
      ensures r == Decode(schema, data)
    {
      if data.None? {
        return Err(NotSerializable);
      }
      var asMap := NormFields(data.value);
      var rest := SplitLeftover(asMap);
      if !schema.mapBacked && rest != map[] {
        return Err(UnknownField);
      }
      var cells: seq<Value> := [];
      for i := 0 to |columns|
        invariant |cells| == i
        invariant DecodeCells(schema.columns[..i], asMap) == Ok(cells)
      {
        var c := columns[i].spec;
        var cell := if c.name in asMap then AssignInto(c.elem, asMap[c.name]) else Some(Zero(c.elem));
        assert schema.columns[..i + 1][..i] == schema.columns[..i];
        if cell.None? {
          DecodeStopsAt(schema.columns, asMap, i + 1);
          return Err(Mismatch(c.name));
        }
        cells := cells + [cell.value];
      }
      assert schema.columns[..|columns|] == schema.columns;
      r := Ok(Decoded(cells, if schema.mapBacked then rest else map[]));
    }

    /** allocSlot: the id's own slot, else the last freed one, else a new one. */
    method AllocSlot(id: string) returns (slot: nat)
      requires Columns() && Mirrored() && Sound(schema, external, layout)
      modifies this`idToSlot, this`slotToID, this`live, this`freeList, this`deadCount, this`leftover, this`layout, columns
      ensures Mirrored()
      ensures (layout, slot) == Allocate(schema, old(layout), id)
    {
      if id in idToSlot && live[idToSlot[id]] {
        return idToSlot[id];
      }
      var n := |freeList|;
      if n > 0 {
        layout := Allocate(schema, layout, id).0;
        slot := freeList[n - 1];
        freeList := freeList[..n - 1];
        deadCount := deadCount - 1;
        live := live[slot := true];
        slotToID := slotToID[slot := id];
        idToSlot := idToSlot[id := slot];
        return;
      }
      slot := |live|;
      AppendSlot(id);
    }

    /** A new slot at the end of every slice. */
    method AppendSlot(id: string)
      requires Columns() && Mirrored() && Shaped(schema, layout) && id !in idToSlot && freeList == []
      modifies this`idToSlot, this`slotToID, this`live, this`leftover, this`layout, columns
      ensures Mirrored()
      ensures layout == Allocate(schema, old(layout), id).0
    {
      ghost var want := Allocate(schema, layout, id).0;
      GrowColumns();
      if schema.mapBacked {
        leftover := leftover + [map[]];
      }
      idToSlot := idToSlot[id := |live|];
      live := live + [true];
      slotToID := slotToID + [id];
      layout := want;
    }

    method GrowColumns()
      requires Columns()
      modifies columns
      ensures forall i | 0 <= i < |columns| :: columns[i].values == old(columns[i].values) + [Zero(columns[i].spec.elem)]
      ensures forall i | 0 <= i < |columns| :: columns[i].recorded == old(columns[i].recorded)
    {
      for i := 0 to |columns|
        modifies columns
        invariant forall j | 0 <= j < i :: columns[j].values == old(columns[j].values) + [Zero(columns[j].spec.elem)]
        invariant forall j | i <= j < |columns| :: columns[j].values == old(columns[j].values)
        invariant forall j | 0 <= j < |columns| :: columns[j].recorded == old(columns[j].recorded)
      {
        columns[i].values := columns[i].values + [Zero(columns[i].spec.elem)];
      }
    }

    /** setSlotKey: grow the parallel slice to cover the slot, then set it. */
    method SetSlotKey(slot: nat, key: Key)
      requires Mirrored()
      modifies this`slotToKey, this`layout
      ensures Mirrored()
      ensures layout == SetKey(old(layout), slot, key)
    {
      while |slotToKey| <= slot
        modifies this`slotToKey
        invariant |old(slotToKey)| <= |slotToKey|
        invariant |slotToKey| == |old(slotToKey)| || |slotToKey| <= slot + 1
        invariant slotToKey == old(slotToKey) + seq(|slotToKey| - |old(slotToKey)|, i => None)
      {
        slotToKey := slotToKey + [None];
      }
      slotToKey := slotToKey[slot := Some(key)];
      layout := SetKey(layout, slot, key);
    }

    /** writeSlot: set every cell, tell every strategy, keep the leftover fields. */
    method WriteSlot(slot: nat, row: Decoded)
      requires Columns() && Mirrored() && Shaped(schema, layout) && slot < |live| && |row.cells| == |columns|
      modifies this`leftover, this`layout, columns
      ensures Mirrored()
      ensures layout == Write(schema, external, old(layout), slot, row)
    {
      for i := 0 to |columns|
        modifies columns
        invariant forall j | 0 <= j < i :: columns[j].values == old(columns[j].values)[slot := row.cells[j]]
        invariant forall j | 0 <= j < i :: columns[j].recorded ==
                    if columns[j].external then old(columns[j].recorded)[slot as int := row.cells[j]] else old(columns[j].recorded)
        invariant forall j | i <= j < |columns| ::
                    columns[j].values == old(columns[j].values) && columns[j].recorded == old(columns[j].recorded)
      {
        columns[i].values := columns[i].values[slot := row.cells[i]];
        columns[i].SetValue(slot, row.cells[i]);
      }
      if schema.mapBacked {
        leftover := leftover[slot := row.leftover];
      }
      ghost var want := Write(schema, external, old(layout), slot, row);
      layout := want;
    }

    method Store(id: string, key: Key, data: Option<Fields>, overwrite: bool) returns (r: Option<Failure>)
      requires Valid()
      modifies this, columns
      ensures Valid() && moved == old(moved)
      ensures deadCount == if r.None? && id !in old(rows) && old(deadCount) > 0 then old(deadCount) - 1 else old(deadCount)
      ensures !usable ==> r == Some(Unusable) && rows == old(rows)
      ensures usable ==>
                match T.Store(schema, old(rows), id, key, data, overwrite)
                case Err(e) => r == Some(e) && rows == old(rows)
                case Ok(t) => r == None && rows == t
    {
      if !usable {
        return Some(Unusable);
      }
      Finds(id);
      if !overwrite && id in idToSlot && live[idToSlot[id]] {
        return Some(AlreadyExists);
      }
      var decoded := PrepareWrite(data);
      if decoded.Err? {
        return Some(decoded.error);
      }
      DecodeTyped(schema, data);
      Place(id, key, decoded.value);
      r := None;
    }

    method Place(id: string, key: Key, row: Decoded)
      requires Valid() && usable && WellTyped(schema, row)
      modifies this, columns
      ensures Valid() && rows == old(rows)[id := Stored(row, key)]
      ensures moved == old(moved)
      ensures deadCount == if id !in old(rows) && old(deadCount) > 0 then old(deadCount) - 1 else old(deadCount)
    {
      Finds(id);
      StoreRepresents(schema, external, layout, rows, id, key, row);
      StoreKeepsBounds(schema, external, layout, id, key, row);
      rows := rows[id := Stored(row, key)];
      PlaceSlot(id, key, row);
    }

    method PlaceSlot(id: string, key: Key, row: Decoded)
      requires Columns() && Mirrored() && Sound(schema, external, layout) && WellTyped(schema, row)
      modifies this`idToSlot, this`slotToID, this`slotToKey, this`live, this`freeList, this`deadCount, this`leftover, this`layout, columns
      ensures Mirrored()
      ensures layout == Stored'(schema, external, old(layout), id, key, row)
    {
      AllocateShapes(schema, layout, id, key);
      var slot := AllocSlot(id);
      SetSlotKey(slot, key);
      WriteSlot(slot, row);
    }

    method Update(id: string, updates: seq<PathUpdate.Update>) returns (r: Option<Failure>)
      requires Valid()
      modifies this, columns
      ensures Valid() && moved == old(moved) && deadCount == old(deadCount)
      ensures !usable ==> r == Some(Unusable) && rows == old(rows)
      ensures usable ==>
                match T.Update(schema, old(rows), id, updates)
                case Err(e) => r == Some(e) && rows == old(rows)
                case Ok(t) => r == None && rows == t
    {
      Finds(id);
      if !usable {
        return Some(Unusable);
      }
      if id !in idToSlot || !live[idToSlot[id]] {
        return Some(NotFound);
      }
      var next := NextRow(id, updates);
      if next.Err? {
        return Some(next.error);
      }
      Rewrite(id, idToSlot[id], next.value);
      r := None;
    }

    /** The row an update would store: nothing is written yet. */
    method NextRow(id: string, updates: seq<PathUpdate.Update>) returns (r: Result<Decoded, Failure>)
      requires Valid() && id in rows
      ensures r.Ok? ==> WellTyped(schema, r.value)
      ensures T.Update(schema, rows, id, updates) ==
              if r.Err? then Err(r.error) else Ok(rows[id := Stored(r.value, rows[id].key)])
    {
      Finds(id);
      var slot := idToSlot[id];
      var current := RowData(slot, rows[id].row);
      for i := 0 to |updates|
        invariant NamesKnown(schema, updates[..i])
      {
        var name := updates[i].fieldName;
        if name != "" && !Declared(schema.columns, name) && !schema.mapBacked {
          return Err(UnknownField);
        }
      }
      assert updates[..|updates|] == updates;
      PathUpdate.FailedListLeavesPrefix(current, updates);
      var next, failed := PathUpdate.ApplyUpdates(current, updates);
      if failed.Some? {
        return Err(NotAMap(failed.value));
      }
      r := PrepareWrite(Some(next));
      if r.Ok? {
        DecodeTyped(schema, Some(next));
      }
    }

    method Rewrite(id: string, slot: nat, row: Decoded)
      requires Valid() && usable && id in rows && id in idToSlot && slot == idToSlot[id] && WellTyped(schema, row)
      modifies this, columns
      ensures Valid() && rows == old(rows)[id := Stored(row, old(rows)[id].key)]
      ensures moved == old(moved) && deadCount == old(deadCount)
    {
      RewriteRepresents(schema, external, layout, rows, id, row);
      rows := rows[id := Stored(row, rows[id].key)];
      WriteSlot(slot, row);
    }

    /** freeSlot: tombstone the slot and put it on the free list; then the id's
        entry goes. */
    method FreeSlot(id: string)
      requires Columns() && Mirrored() && Shaped(schema, layout) && Linked(layout) && id in idToSlot
      modifies this`idToSlot, this`slotToID, this`slotToKey, this`live, this`freeList, this`deadCount, this`leftover, this`layout, columns
      ensures Mirrored()
      ensures layout == Free(schema, external, old(layout), id)
    {
      var slot := idToSlot[id];
      ClearCells(slot);
      if schema.mapBacked {
        leftover := leftover[slot := map[]];
      }
      live := live[slot := false];
      slotToID := slotToID[slot := ""];
      if slot < |slotToKey| {
        slotToKey := slotToKey[slot := None];
      }
      freeList := freeList + [slot];
      deadCount := deadCount + 1;
      idToSlot := idToSlot - {id};
      ghost var want := Free(schema, external, old(layout), id);
      layout := want;
    }

    method ClearCells(slot: nat)
      requires Columns() && forall i | 0 <= i < |columns| :: slot < |columns[i].values|
      modifies columns
      ensures forall i | 0 <= i < |columns| :: columns[i].values == old(columns[i].values)[slot := Zero(columns[i].spec.elem)]
      ensures forall i | 0 <= i < |columns| :: columns[i].recorded ==
                if columns[i].external then old(columns[i].recorded) - {slot as int} else old(columns[i].recorded)
    {
      for i := 0 to |columns|
        modifies columns
        invariant forall j | 0 <= j < i :: columns[j].values == old(columns[j].values)[slot := Zero(columns[j].spec.elem)]
        invariant forall j | 0 <= j < i :: columns[j].recorded ==
                    if columns[j].external then old(columns[j].recorded) - {slot as int} else old(columns[j].recorded)
        invariant forall j | i <= j < |columns| ::
                    columns[j].values == old(columns[j].values) && columns[j].recorded == old(columns[j].recorded)
      {
        columns[i].values := columns[i].values[slot := Zero(columns[i].spec.elem)];
        columns[i].ClearValue(slot);
      }
    }

    method Delete(id: string)
      requires Valid()
      modifies this, columns
      ensures Valid() && rows == T.Delete(old(rows), id)
      ensures deadCount == if id !in old(rows) then old(deadCount) else if Fires(|rows|, old(deadCount) + 1) then 0 else old(deadCount) + 1
      ensures moved == old(moved) + MovedBy(old(rows), old(deadCount), DeleteOp(id))
    {
      Finds(id);
      if !usable || id !in idToSlot || !live[idToSlot[id]] {
        assert rows == T.Delete(rows, id);
        return;
      }
      Tombstone(id);
      MaybeCompact();
    }

    method Tombstone(id: string)
      requires Valid() && usable && id in rows
      modifies this, columns
      ensures Consistent() && rows == T.Delete(old(rows), id)
      ensures moved == old(moved) && deadCount == old(deadCount) + 1
    {
      FreeRepresents(schema, external, layout, rows, id);
      FreeSlot(id);
      rows := rows - {id};
    }

    method MaybeCompact()
      requires Consistent()
      modifies this, columns
      ensures Valid() && rows == old(rows)
      ensures if Fires(|rows|, old(deadCount)) then deadCount == 0 && moved == old(moved) + |rows|
              else deadCount == old(deadCount) && moved == old(moved)
    {
      LiveAndDead();
      var total := |live|;
      assert deadCount > 0 ==> freeList[0] < total;
      if total == 0 || deadCount == 0 {
        return;
      }
      if 2 * deadCount < total {
        return;
      }
      CompactRows();
    }

    /** Every slot holds a row or is dead. */
    lemma LiveAndDead()
      requires Consistent()
      ensures |live| == |rows| + deadCount
    {
      assert Unfold(layout, rows, true);
    }

    /** The engine still stands for the same map, and every row was moved. */
    method CompactRows()
      requires Columns() && Mirrored() && Sound(schema, external, layout) && Represents(schema, external, layout, rows)
      modifies this`idToSlot, this`slotToID, this`slotToKey, this`live, this`freeList, this`deadCount, this`leftover, this`layout, this`moved, columns
      ensures Mirrored() && Sound(schema, external, layout) && Represents(schema, external, layout, rows)
      ensures deadCount == 0 && moved == old(moved) + |rows|
    {
      CompactRepresents(schema, external, layout, rows);
      CompactSlots();
    }

    /** compact: gather the live slots of every slice in ascending order, renumber
        the ids, and tell the external strategies about the new slots. */
    method CompactSlots()
      requires Columns() && Mirrored() && Shaped(schema, layout) && Linked(layout)
      modifies this`idToSlot, this`slotToID, this`slotToKey, this`live, this`freeList, this`deadCount, this`leftover, this`layout, this`moved, columns
      ensures Mirrored()
      ensures layout == Compact(schema, external, old(layout))
      ensures moved == old(moved) + |LiveSlots(old(live))|
    {
      ghost var want := Compact(schema, external, layout);
      var liveSlots := CollectLive();
      GatherColumns(liveSlots);
      GatherRows(liveSlots);
      live := seq(|liveSlots|, k => true);
      freeList := [];
      deadCount := 0;
      RebuildStrategies();
      layout := want;
    }

    /** The per-slot slices beside the columns, and the ids' new slots. */
    method GatherRows(liveSlots: seq<nat>)
      requires Shaped(schema, layout) && Linked(layout) && liveSlots == LiveSlots(live)
      requires idToSlot == layout.idToSlot && slotToID == layout.slotToID && slotToKey == layout.slotToKey
      requires live == layout.live && leftover == layout.leftover
      modifies this`idToSlot, this`slotToID, this`slotToKey, this`leftover, this`moved
      ensures moved == old(moved) + |liveSlots|
      ensures var want := Compact(schema, seq(|layout.memory|, i => false), layout);
              idToSlot == want.idToSlot && slotToID == want.slotToID && slotToKey == want.slotToKey && leftover == want.leftover
    {
      var newLeftover: seq<Fields> := [];
      if schema.mapBacked {
        newLeftover := Gather(leftover, liveSlots);
      }
      var newSlotToID := Gather(slotToID, liveSlots);
      var newSlotToKey := Gather(slotToKey, liveSlots);
      Renumber(liveSlots);
      leftover := newLeftover;
      slotToID := newSlotToID;
      slotToKey := newSlotToKey;
    }

    method CollectLive() returns (liveSlots: seq<nat>)
      ensures liveSlots == LiveSlots(live)
    {
      liveSlots := [];
      for slot := 0 to |live|
        invariant liveSlots == LiveSlots(live[..slot])
      {
        assert live[..slot + 1][..slot] == live[..slot];
        if live[slot] {
          liveSlots := liveSlots + [slot];
        }
      }
      assert live[..|live|] == live;
    }

    method GatherColumns(liveSlots: seq<nat>)
      requires Columns() && forall i, k | 0 <= i < |columns| && 0 <= k < |liveSlots| :: liveSlots[k] < |columns[i].values|
      modifies columns
      ensures forall i | 0 <= i < |columns| :: columns[i].values == Pick(old(columns[i].values), liveSlots)
      ensures forall i | 0 <= i < |columns| :: columns[i].recorded == old(columns[i].recorded)
    {
      for i := 0 to |columns|
        modifies columns
        invariant forall j | 0 <= j < i :: columns[j].values == Pick(old(columns[j].values), liveSlots)
        invariant forall j | i <= j < |columns| :: columns[j].values == old(columns[j].values)
        invariant forall j | 0 <= j < |columns| :: columns[j].recorded == old(columns[j].recorded)
      {
        var next := Gather(columns[i].values, liveSlots);
        columns[i].values := next;
      }
    }

    /** Every live id's slot becomes its position among the live slots. */
    method Renumber(liveSlots: seq<nat>)
      requires Linked(layout) && idToSlot == layout.idToSlot && slotToID == layout.slotToID && live == layout.live
      requires liveSlots == LiveSlots(live)
      modifies this`idToSlot, this`moved
      ensures moved == old(moved) + |liveSlots|
      ensures idToSlot == map id | id in old(idToSlot) :: Rank(live, old(idToSlot)[id])
    {
      for k := 0 to |liveSlots|
        invariant moved == old(moved) + k
        invariant Renumbered(layout, k, idToSlot)
      {
        RenumberOne(layout, k, idToSlot);
        var id := slotToID[liveSlots[k]];
        idToSlot, moved := idToSlot[id := k], moved + 1;
      }
      AllRenumbered(layout, idToSlot);
    }

    /** rebuildStrategies: the default strategy scans the slices, an external one
        is told every slot's value again. */
    method RebuildStrategies()
      requires Columns()
      modifies columns
      ensures forall i | 0 <= i < |columns| :: columns[i].values == old(columns[i].values)
      ensures forall i | 0 <= i < |columns| :: columns[i].recorded ==
                if columns[i].external
                then old(columns[i].recorded) + (map k: int | 0 <= k < |columns[i].values| :: columns[i].values[k])
                else old(columns[i].recorded)
    {
      for i := 0 to |columns|
        modifies columns
        invariant forall j | 0 <= j < |columns| :: columns[j].values == old(columns[j].values)
        invariant forall j | 0 <= j < i :: columns[j].recorded ==
                    if columns[j].external
                    then old(columns[j].recorded) + (map k: int | 0 <= k < |columns[j].values| :: columns[j].values[k])
                    else old(columns[j].recorded)
        invariant forall j | i <= j < |columns| :: columns[j].recorded == old(columns[j].recorded)
      {
        if columns[i].external {
          columns[i].Retell();
        }
      }
    }

    /** Any run of operations answers exactly as the map does. */
    method Run(ops: seq<Op>) returns (replies: seq<Reply>)
      requires Valid()
      modifies this, columns
      ensures Valid()
      ensures (rows, replies) == T.Run(schema, usable, old(rows), ops)
      ensures deadCount == DeadAfterRun(schema, usable, old(rows), old(deadCount), ops)
      ensures moved == old(moved) + MovedInRun(schema, usable, old(rows), old(deadCount), ops)
      ensures moved + deadCount <= old(moved) + old(deadCount) + EffectiveDeletes(schema, usable, old(rows), ops)
    {
      replies := [];
      for n := 0 to |ops|
        invariant Valid()
        invariant (rows, replies) == T.Run(schema, usable, old(rows), ops[..n])
        invariant deadCount == DeadAfterRun(schema, usable, old(rows), old(deadCount), ops[..n])
        invariant moved == old(moved) + MovedInRun(schema, usable, old(rows), old(deadCount), ops[..n])
      {
        assert ops[..n + 1][..n] == ops[..n];
        var reply := Perform(ops[n]);
        replies := replies + [reply];
      }
      assert ops[..|ops|] == ops;
      MovesAreAmortised(schema, usable, old(rows), old(deadCount), ops);
    }

    method Perform(op: Op) returns (reply: Reply)
      requires Valid()
      modifies this, columns
      ensures Valid()
      ensures (rows, reply) == Step(schema, usable, old(rows), op)
      ensures deadCount == DeadAfter(schema, usable, old(rows), old(deadCount), op)
      ensures moved == old(moved) + MovedBy(old(rows), old(deadCount), op)
    {
      match op
      case StoreOp(id, key, data, overwrite) =>
        var failure := Store(id, key, data, overwrite);
        reply := Done(failure);
      case UpdateOp(id, updates) =>
        var failure := Update(id, updates);
        reply := Done(failure);
      case DeleteOp(id) =>
        Delete(id);
        reply := Done(None);
      case ExistsOp(id) =>
        var found := Exists(id);
        reply := Found(found);
      case LoadOp(id) =>
        var view := Load(id);
        reply := Loaded(view);
      case RowsOp =>
        var listed := Rows();
        reply := Listed(listed);
    }
  }
}

