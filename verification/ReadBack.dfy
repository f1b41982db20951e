/** What the operations of a columnar collection leave to be read: the laws of a store,
    an update and a delete, on what a load and a listing of the rows reply. */
module ReadBack {
  import opened Ordering
  import opened Values
  import opened PathUpdate
  import opened Table

  // ---- What a reader sees ---------------------------------------------------------

  /** The reply to a load. */
  ghost function Load(schema: Schema, t: Table, id: string): Result<Fields, Failure>
    requires ValidTable(schema, t)
  {
    Step(schema, true, t, LoadOp(id)).1.view
  }

  /** The reply to a listing. */
  ghost function Rows(schema: Schema, t: Table): seq<Row>
    requires ValidTable(schema, t)
  {
    Step(schema, true, t, RowsOp).1.rows.value
  }

  /** A path as a load of the id shows it. */
  ghost function ReadAt(schema: Schema, t: Table, id: string, q: seq<string>): Option<Value>
    requires ValidTable(schema, t) && q != []
  {
    var loaded := Load(schema, t, id);
    if loaded.Ok? then Get(loaded.value, q) else None
  }

  /** How a path of a record that was written reads: as it was written, after a trip
      through JSON; but a declared column that is absent or null reads as its zero value. */
  function AsRead(schema: Schema, q: seq<string>, written: Option<Value>): Option<Value>
    requires q != []
  {
    var column := FindColumn(schema.columns, q[0]);
    if |q| == 1 && column.Some? && (written.None? || written.value.Nil?) then Some(Norm(Zero(schema.columns[column.value].elem)))
    else if written.None? then None
    else Some(Norm(written.value))
  }

  /** What is stored of a record reads back, path by path. */
  lemma DecodedReads(schema: Schema, data: Fields, q: seq<string>)
    requires ValidSchema(schema) && Decode(schema, Some(data)).Ok? && q != []
    ensures Get(View(schema, Decode(schema, Some(data)).value), q) == AsRead(schema, q, Get(data, q))
  {
    var k := q[0];
    var column := FindColumn(schema.columns, k);
    ViewOfDecoded(schema, data, k);
    NormGet(data, q);
    if column.Some? {
      var zero := Zero(schema.columns[column.value].elem);
      assert !zero.Obj? && !Norm(zero).Obj?;
    }
  }

  lemma ListHolds(schema: Schema, t: Table, row: Row)
    requires ValidTable(schema, t)
    ensures row in List(schema, t, t.Keys) <==> row.id in t && row == RowOf(schema, t, row.id)
  {
    var order := SortedIds(t.Keys);
    SortedIdsAscend(t.Keys);
    var rows := List(schema, t, t.Keys);
    if row in rows {
      var i :| 0 <= i < |rows| && rows[i] == row;
      assert order[i] in order;
    }
    if row.id in t && row == RowOf(schema, t, row.id) {
      var i :| 0 <= i < |order| && order[i] == row.id;
      assert rows[i] == row;
    }
  }

  lemma ListedIff(schema: Schema, t: Table, row: Row)
    requires ValidTable(schema, t)
    ensures row in Rows(schema, t) <==> row.id in t && Load(schema, t, row.id) == Ok(row.data) && row.key == Some(t[row.id].key)
  {
    ListHolds(schema, t, row);
  }

  lemma ListedAscend(schema: Schema, t: Table)
    requires ValidTable(schema, t)
    ensures seq(|Rows(schema, t)|, i requires 0 <= i < |Rows(schema, t)| => Rows(schema, t)[i].id) == SortedIds(t.Keys)
  {
  }

  /** A listing shows, by ascending id, what a load of each id shows, with its key. */
  lemma RowsAreLoads(schema: Schema, t: Table)
    requires ValidTable(schema, t)
    ensures StrictlyAscending(StrLess, seq(|Rows(schema, t)|, i requires 0 <= i < |Rows(schema, t)| => Rows(schema, t)[i].id))
    ensures forall row :: row in Rows(schema, t) <==>
              row.id in t && Load(schema, t, row.id) == Ok(row.data) && row.key == Some(t[row.id].key)
    ensures forall id :: Step(schema, true, t, ExistsOp(id)).1 == Found(Load(schema, t, id).Ok?)
  {
    SortedIdsAscend(t.Keys);
    ListedAscend(schema, t);
    forall row
      ensures row in Rows(schema, t) <==> row.id in t && Load(schema, t, row.id) == Ok(row.data) && row.key == Some(t[row.id].key)
    {
      ListedIff(schema, t, row);
    }
  }

  /** Nothing but one id is touched: every other id loads and is listed as before. */
  ghost predicate OthersStand(schema: Schema, t: Table, t': Table, id: string)
    requires ValidTable(schema, t) && ValidTable(schema, t')
  {
    && (forall other | other != id :: Load(schema, t', other) == Load(schema, t, other))
    && (forall row: Row | row.id != id :: row in Rows(schema, t') <==> row in Rows(schema, t))
  }

  lemma SameElsewhere(schema: Schema, t: Table, t': Table, id: string)
    requires ValidTable(schema, t) && ValidTable(schema, t')
    requires forall other | other != id :: (other in t' <==> other in t) && (other in t ==> t'[other] == t[other])
    ensures OthersStand(schema, t, t', id)
  {
    RowsAreLoads(schema, t);
    RowsAreLoads(schema, t');
  }

  /** The id is stored and listed with this key. */
  ghost predicate HeldUnder(schema: Schema, t: Table, id: string, key: Key)
    requires ValidTable(schema, t)
  {
    Load(schema, t, id).Ok? && Row(id, Load(schema, t, id).value, Some(key)) in Rows(schema, t)
  }

  // ---- Store ---------------------------------------------------------------------------

  /** A store is refused as a duplicate if and only if the id is there and overwrite is
      off. When it succeeds every path of the record reads back, under the key given; when
      it fails nothing changed; and no other id is touched. */
  lemma StoreReads(schema: Schema, t: Table, id: string, key: Key, data: Option<Fields>, overwrite: bool)
    requires ValidSchema(schema) && ValidTable(schema, t)
    ensures var (t', reply) := Step(schema, true, t, StoreOp(id, key, data, overwrite));
            && ValidTable(schema, t')
            && (reply == Done(Some(AlreadyExists)) <==> Load(schema, t, id).Ok? && !overwrite)
            && (reply == Done(None) <==> (overwrite || Load(schema, t, id).Err?) && Decode(schema, data).Ok?)
            && (reply != Done(None) ==> t' == t)
            && OthersStand(schema, t, t', id)
            && (reply == Done(None) ==> HeldUnder(schema, t', id, key))
            && (reply == Done(None) ==> forall q: seq<string> | q != [] :: ReadAt(schema, t', id, q) == AsRead(schema, q, Get(data.value, q)))
  {
    var op := StoreOp(id, key, data, overwrite);
    StepValid(schema, true, t, op);
    var (t', reply) := Step(schema, true, t, op);
    SameElsewhere(schema, t, t', id);
    HeldIff(schema, t', id, key);
    DecodeNeverExists(schema, data);
    if reply == Done(None) {
      forall q: seq<string> | q != []
        ensures ReadAt(schema, t', id, q) == AsRead(schema, q, Get(data.value, q))
      {
        DecodedReads(schema, data.value, q);
      }
    }
  }

  lemma {:induction false} CellsNeverExist(columns: seq<ColumnSpec>, m: Fields)
    ensures DecodeCells(columns, m).Err? ==> DecodeCells(columns, m).error.Mismatch?
  {
    if columns != [] {
      CellsNeverExist(columns[..|columns| - 1], m);
    }
  }

  lemma DecodeNeverExists(schema: Schema, data: Option<Fields>)
    ensures Decode(schema, data) != Err(AlreadyExists) && Decode(schema, data) != Err(NotFound)
  {
    if data.Some? {
      CellsNeverExist(schema.columns, NormFields(data.value));
    }
  }

  /** The column can show this value: it is null, or reads like a value of the column's type. */
  ghost predicate Fits(t: ElemType, v: Value) {
    v.Nil? || exists w :: HasType(w, t) && Norm(w) == Norm(v)
  }

  /** assignInto succeeds exactly on what the column can show. */
  lemma AssignsIff(t: ElemType, raw: Value)
    requires Norm(raw) == raw
    ensures AssignInto(t, raw).Some? <==> Fits(t, raw)
  {
    if AssignInto(t, raw).Some? {
      AssignIntoTyped(t, raw);
      AssignIntoNorm(t, raw);
    }
    if w :| HasType(w, t) && Norm(w) == raw {
      CellRoundTrips(t, w);
    }
  }

  lemma {:induction false} CellsDecodeIff(columns: seq<ColumnSpec>, m: Fields)
    requires NormFields(m) == m
    ensures DecodeCells(columns, m).Ok? <==>
            forall i | 0 <= i < |columns| && columns[i].name in m :: Fits(columns[i].elem, m[columns[i].name])
  {
    if columns != [] {
      var n := |columns| - 1;
      CellsDecodeIff(columns[..n], m);
      assert forall i | 0 <= i < n :: columns[..n][i] == columns[i];
      if columns[n].name in m {
        assert Norm(m[columns[n].name]) == NormFields(m)[columns[n].name];
        AssignsIff(columns[n].elem, m[columns[n].name]);
      }
    }
  }

  /** A record can be stored exactly when it is an object whose fields fit their columns,
      and, in a struct, all have one. */
  lemma DecodesIff(schema: Schema, data: Option<Fields>)
    ensures Decode(schema, data).Ok? <==>
            && data.Some?
            && (!schema.mapBacked ==> forall k | k in data.value :: Declared(schema.columns, k))
            && (forall i | 0 <= i < |schema.columns| && schema.columns[i].name in data.value ::
                  Fits(schema.columns[i].elem, data.value[schema.columns[i].name]))
  {
    if data.Some? {
      var m := NormFields(data.value);
      NormFieldsIdempotent(data.value);
      CellsDecodeIff(schema.columns, m);
      forall i | 0 <= i < |schema.columns| && schema.columns[i].name in m
        ensures Fits(schema.columns[i].elem, m[schema.columns[i].name]) == Fits(schema.columns[i].elem, data.value[schema.columns[i].name])
      {
        NormIdempotent(data.value[schema.columns[i].name]);
      }
      if !schema.mapBacked && Undeclared(schema.columns, m) == map[] {
        forall k | k in data.value
          ensures Declared(schema.columns, k)
        {
          assert k !in Undeclared(schema.columns, m);
        }
      }
    }
  }

  // ---- Update --------------------------------------------------------------------------

  /** When an update goes through, and what a refusal says. */
  lemma UpdateSucceedsIff(schema: Schema, t: Table, id: string, updates: seq<Update>)
    requires ValidSchema(schema) && ValidTable(schema, t)
    ensures var reply := Step(schema, true, t, UpdateOp(id, updates)).1;
            && (reply == Done(Some(NotFound)) <==> Load(schema, t, id).Err?)
            && (reply == Done(None) && !schema.mapBacked ==>
                  forall i | 0 <= i < |updates| && updates[i].fieldName != "" :: Declared(schema.columns, updates[i].fieldName))
            && (reply == Done(None) <==>
                  && Load(schema, t, id).Ok? && NamesKnown(schema, updates)
                  && ApplyAll(Load(schema, t, id).value, updates).Ok?
                  && Decode(schema, Some(ApplyAll(Load(schema, t, id).value, updates).value)).Ok?)
  {
    if id in t && ApplyAll(View(schema, t[id].row), updates).Ok? {
      DecodeNeverExists(schema, Some(ApplyAll(View(schema, t[id].row), updates).value));
    }
  }

  /** seen is how a path the update touches last reads. */
  ghost predicate ShowsWrite(schema: Schema, u: PathUpdate.Update, q: seq<string>, seen: Option<Value>)
    requires q != []
  {
    exists r :: WrittenBy(u, q, r) && seen == AsRead(schema, q, r)
  }

  /** The path reads as before if no update touches it, and otherwise as the last update
      that does wrote it. */
  ghost predicate PathUpdated(schema: Schema, t: Table, t': Table, id: string, updates: seq<PathUpdate.Update>, q: seq<string>)
    requires ValidTable(schema, t) && ValidTable(schema, t') && q != []
  {
    && ((forall i | 0 <= i < |updates| :: !Touches(updates[i], q)) ==> ReadAt(schema, t', id, q) == ReadAt(schema, t, id, q))
    && (forall n: nat | LastTouch(updates, n, q) :: ShowsWrite(schema, updates[n], q, ReadAt(schema, t', id, q)))
  }

  lemma DecodedPath(schema: Schema, before: Fields, updates: seq<PathUpdate.Update>, q: seq<string>)
    requires ValidSchema(schema) && q != [] && ApplyAll(before, updates).Ok?
    requires Decode(schema, Some(before)).Ok? && View(schema, Decode(schema, Some(before)).value) == before
    requires Decode(schema, Some(ApplyAll(before, updates).value)).Ok?
    ensures var seen := Get(View(schema, Decode(schema, Some(ApplyAll(before, updates).value)).value), q);
            && ((forall i | 0 <= i < |updates| :: !Touches(updates[i], q)) ==> seen == Get(before, q))
            && (forall n: nat | LastTouch(updates, n, q) :: ShowsWrite(schema, updates[n], q, seen))
  {
    ApplyReads(before, updates, q);
    DecodedReads(schema, ApplyAll(before, updates).value, q);
    DecodedReads(schema, before, q);
  }

  /** What an update that goes through stores. */
  lemma UpdateStores(schema: Schema, t: Table, id: string, updates: seq<PathUpdate.Update>) returns (next: Fields)
    requires ValidSchema(schema) && ValidTable(schema, t)
    requires Step(schema, true, t, UpdateOp(id, updates)).1 == Done(None)
    ensures id in t && ApplyAll(View(schema, t[id].row), updates) == Ok(next) && Decode(schema, Some(next)).Ok?
    ensures Step(schema, true, t, UpdateOp(id, updates)).0 == t[id := Stored(Decode(schema, Some(next)).value, t[id].key)]
  {
    next := ApplyAll(View(schema, t[id].row), updates).value;
  }

  lemma ReadAtIs(schema: Schema, t: Table, id: string, q: seq<string>)
    requires ValidTable(schema, t) && id in t && q != []
    ensures ReadAt(schema, t, id, q) == Get(View(schema, t[id].row), q)
  {
  }

  lemma UpdatedPath(schema: Schema, t: Table, id: string, updates: seq<PathUpdate.Update>, q: seq<string>)
    requires ValidSchema(schema) && ValidTable(schema, t) && q != []
    requires Step(schema, true, t, UpdateOp(id, updates)).1 == Done(None)
    ensures ValidTable(schema, Step(schema, true, t, UpdateOp(id, updates)).0)
    ensures PathUpdated(schema, t, Step(schema, true, t, UpdateOp(id, updates)).0, id, updates, q)
  {
    StepValid(schema, true, t, UpdateOp(id, updates));
    var t' := Step(schema, true, t, UpdateOp(id, updates)).0;
    var next := UpdateStores(schema, t, id, updates);
    assert t'[id].row == Decode(schema, Some(next)).value;
    ReadAtIs(schema, t, id, q);
    ReadAtIs(schema, t', id, q);
    ViewDecodes(schema, t[id].row);
    DecodedPath(schema, View(schema, t[id].row), updates, q);
  }

  /** What an update leaves alone: everything when it fails, and the key and every other
      id when it succeeds. */
  lemma UpdateKeeps(schema: Schema, t: Table, id: string, updates: seq<Update>)
    requires ValidSchema(schema) && ValidTable(schema, t)
    ensures var (t', reply) := Step(schema, true, t, UpdateOp(id, updates));
            && ValidTable(schema, t')
            && (reply != Done(None) ==> t' == t)
            && OthersStand(schema, t, t', id)
            && (forall key | HeldUnder(schema, t, id, key) :: HeldUnder(schema, t', id, key))
  {
    StepValid(schema, true, t, UpdateOp(id, updates));
    var t' := Step(schema, true, t, UpdateOp(id, updates)).0;
    SameElsewhere(schema, t, t', id);
    forall key | HeldUnder(schema, t, id, key)
      ensures HeldUnder(schema, t', id, key)
    {
      HeldIff(schema, t, id, key);
      HeldIff(schema, t', id, key);
    }
  }

  lemma HeldIff(schema: Schema, t: Table, id: string, key: Key)
    requires ValidTable(schema, t)
    ensures HeldUnder(schema, t, id, key) <==> id in t && t[id].key == key
  {
    RowsAreLoads(schema, t);
  }

  /** What an update changes: every path it does not touch reads as it did, and one it
      touches reads as the last update that does wrote it. */
  lemma UpdateReads(schema: Schema, t: Table, id: string, updates: seq<PathUpdate.Update>)
    requires ValidSchema(schema) && ValidTable(schema, t)
    requires Step(schema, true, t, UpdateOp(id, updates)).1 == Done(None)
    ensures var t' := Step(schema, true, t, UpdateOp(id, updates)).0;
            ValidTable(schema, t') && forall q: seq<string> | q != [] :: PathUpdated(schema, t, t', id, updates, q)
  {
    StepValid(schema, true, t, UpdateOp(id, updates));
    forall q: seq<string> | q != []
      ensures PathUpdated(schema, t, Step(schema, true, t, UpdateOp(id, updates)).0, id, updates, q)
    {
      UpdatedPath(schema, t, id, updates, q);
    }
  }

  // ---- Delete --------------------------------------------------------------------------

  /** A delete takes away the id, which then loads as not found, and nothing else. */
  lemma DeleteReads(schema: Schema, t: Table, id: string)
    requires ValidTable(schema, t)
    ensures var (t', reply) := Step(schema, true, t, DeleteOp(id));
            && ValidTable(schema, t') && reply == Done(None)
            && Load(schema, t', id) == Err(NotFound)
            && Step(schema, true, t', ExistsOp(id)).1 == Found(false)
            && OthersStand(schema, t, t', id)
  {
    StepValid(schema, true, t, DeleteOp(id));
    SameElsewhere(schema, t, Step(schema, true, t, DeleteOp(id)).0, id);
  }

  // ---- Whole runs ------------------------------------------------------------------------

  /** The operation may change what is stored under the id. */
  predicate Writes(op: Op, id: string) {
    (op.StoreOp? || op.UpdateOp? || op.DeleteOp?) && op.id == id
  }

  lemma OneStepElsewhere(schema: Schema, t: Table, op: Op, id: string)
    requires ValidTable(schema, t) && !Writes(op, id)
    ensures ValidTable(schema, Step(schema, true, t, op).0)
    ensures Load(schema, Step(schema, true, t, op).0, id) == Load(schema, t, id)
  {
    StepValid(schema, true, t, op);
  }

  lemma StoredPath(schema: Schema, t: Table, op: Op, q: seq<string>)
    requires ValidSchema(schema) && ValidTable(schema, t) && q != [] && op.StoreOp? && Step(schema, true, t, op).1 == Done(None)
    ensures op.data.Some? && ValidTable(schema, Step(schema, true, t, op).0)
    ensures ReadAt(schema, Step(schema, true, t, op).0, op.id, q) == AsRead(schema, q, Get(op.data.value, q))
  {
    StoreReads(schema, t, op.id, op.key, op.data, op.overwrite);
  }

  /** The collection after a run. */
  ghost function After(schema: Schema, t: Table, ops: seq<Op>): (t': Table)
    requires ValidTable(schema, t)
    ensures ValidTable(schema, t')
  {
    Run(schema, true, t, ops).0
  }

  lemma AfterLast(schema: Schema, t: Table, ops: seq<Op>)
    requires ValidTable(schema, t) && ops != []
    ensures After(schema, t, ops) == Step(schema, true, After(schema, t, ops[..|ops| - 1]), ops[|ops| - 1]).0
  {
  }

  /** After any run, a load replies what the last write of the id stored: every path of
      that record, whatever happened to other ids since. */
  lemma {:induction false} LoadTellsLastStore(schema: Schema, t: Table, ops: seq<Op>, n: nat, q: seq<string>)
    requires ValidSchema(schema) && ValidTable(schema, t) && q != [] && n < |ops| && ops[n].StoreOp?
    requires Step(schema, true, After(schema, t, ops[..n]), ops[n]).1 == Done(None)
    requires forall i | n < i < |ops| :: !Writes(ops[i], ops[n].id)
    ensures ops[n].data.Some?
    ensures ReadAt(schema, After(schema, t, ops), ops[n].id, q) == AsRead(schema, q, Get(ops[n].data.value, q))
    decreases |ops|
  {
    var last := |ops| - 1;
    var mid := After(schema, t, ops[..last]);
    AfterLast(schema, t, ops);
    if n == last {
      StoredPath(schema, mid, ops[n], q);
    } else {
      assert ops[..last][..n] == ops[..n];
      LoadTellsLastStore(schema, t, ops[..last], n, q);
      OneStepElsewhere(schema, mid, ops[last], ops[n].id);
    }
  }
}
