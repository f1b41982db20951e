/** What a columnar collection stands for: a map from id to the row's typed
    cells, its leftover fields and its full key. Decoding and reassembling a row
    live here too, because both the map and the engine go through them. */
module Table {
  import opened Ordering
  import opened Values
  import PathUpdate

  /** A record key with its parent chain. */
  datatype Key = Key(collection: string, id: Value, parent: Option<Key>)

  /** One enumerated row: its id, decoded field view and stored key. */
  datatype Row = Row(id: string, data: Fields, key: Option<Key>)

  /** Go element types of a column; TAny is the []any fallback. */
  datatype ElemType = TInt | TInt64 | TFloat | TString | TBool | TAny

  datatype ColumnSpec = ColumnSpec(name: string, elem: ElemType)

  /** mapBacked collections keep undeclared fields; struct collections reject them. */
  datatype Schema = Schema(mapBacked: bool, columns: seq<ColumnSpec>)

  ghost predicate ValidSchema(schema: Schema) {
    forall i, j | 0 <= i < j < |schema.columns| :: schema.columns[i].name != schema.columns[j].name
  }

  predicate Declared(columns: seq<ColumnSpec>, name: string) {
    exists i | 0 <= i < |columns| :: columns[i].name == name
  }

  datatype Failure =
    | Unusable
    | AlreadyExists
    | NotFound
    | NotSerializable
    | UnknownField
    | Mismatch(column: string)
    | NotAMap(segment: string)

  datatype Decoded = Decoded(cells: seq<Value>, leftover: Fields)

  function Zero(t: ElemType): Value {
    match t
    case TInt => Int(0)
    case TInt64 => Int64(0)
    case TFloat => Float(0.0)
    case TString => Str("")
    case TBool => Bool(false)
    case TAny => Nil
  }

  predicate InInt64(n: int) {
    -0x8000_0000_0000_0000 <= n < 0x8000_0000_0000_0000
  }

  predicate Whole(x: real) {
    x.Floor as real == x && InInt64(x.Floor)
  }

  /** The values a column of type t can hold. */
  predicate HasType(v: Value, t: ElemType) {
    match t
    case TInt => v.Int? && InInt64(v.i)
    case TInt64 => v.Int64? && InInt64(v.i64)
    case TFloat => v.Float?
    case TString => v.Str?
    case TBool => v.Bool?
    case TAny => Norm(v) == v
  }

  /** assignInto: decode a normalised value into a cell; null leaves the zero
      value, and only a type mismatch fails. */
  function AssignInto(t: ElemType, raw: Value): Option<Value> {
    if t == TAny then Some(raw)
    else if raw.Nil? then Some(Zero(t))
    else
      match t
      case TInt => if raw.Float? && Whole(raw.x) then Some(Int(raw.x.Floor)) else None
      case TInt64 => if raw.Float? && Whole(raw.x) then Some(Int64(raw.x.Floor)) else None
      case TFloat => if raw.Float? then Some(raw) else None
      case TString => if raw.Str? then Some(raw) else None
      case TBool => if raw.Bool? then Some(raw) else None
  }

  function DecodeCells(columns: seq<ColumnSpec>, m: Fields): (r: Result<seq<Value>, Failure>)
    ensures r.Ok? ==> |r.value| == |columns|
  {
    if columns == [] then Ok([])
    else
      var n := |columns| - 1;
      var c := columns[n];
      match DecodeCells(columns[..n], m)
      case Err(e) => Err(e)
      case Ok(cells) =>
        match if c.name in m then AssignInto(c.elem, m[c.name]) else Some(Zero(c.elem))
        case None => Err(Mismatch(c.name))
        case Some(v) => Ok(cells + [v])
  }

  function Undeclared(columns: seq<ColumnSpec>, m: Fields): Fields {
    map k | k in m && !Declared(columns, k) :: m[k]
  }

  /** prepareWrite: data is None when the record does not marshal to an object. */
  function Decode(schema: Schema, data: Option<Fields>): Result<Decoded, Failure> {
    if data.None? then Err(NotSerializable)
    else
      var m := NormFields(data.value);
      if !schema.mapBacked && Undeclared(schema.columns, m) != map[] then Err(UnknownField)
      else
        match DecodeCells(schema.columns, m)
        case Err(e) => Err(e)
        case Ok(cells) => Ok(Decoded(cells, if schema.mapBacked then Undeclared(schema.columns, m) else map[]))
  }

  function Overlay(base: Fields, columns: seq<ColumnSpec>, cells: seq<Value>): Fields
    requires |cells| == |columns|
  {
    if columns == [] then base
    else
      var n := |columns| - 1;
      Overlay(base, columns[..n], cells[..n])[columns[n].name := cells[n]]
  }

  /** rowData: leftover fields overlaid with the column cells, normalised. */
  function View(schema: Schema, row: Decoded): Fields
    requires |row.cells| == |schema.columns|
  {
    NormFields(Overlay(row.leftover, schema.columns, row.cells))
  }

  ghost predicate WellTyped(schema: Schema, row: Decoded) {
    && |row.cells| == |schema.columns|
    && (forall i | 0 <= i < |row.cells| :: HasType(row.cells[i], schema.columns[i].elem))
    && NormFields(row.leftover) == row.leftover
    && (forall k | k in row.leftover :: !Declared(schema.columns, k))
    && (!schema.mapBacked ==> row.leftover == map[])
  }

  // ---- Decoding and reassembling ------------------------------------------

  lemma AssignIntoTyped(t: ElemType, raw: Value)
    requires Norm(raw) == raw
    ensures AssignInto(t, raw).Some? ==> HasType(AssignInto(t, raw).value, t)
  {
  }

  lemma {:induction false} DecodeCellsTyped(columns: seq<ColumnSpec>, m: Fields, i: nat)
    requires NormFields(m) == m && DecodeCells(columns, m).Ok? && i < |columns|
    ensures HasType(DecodeCells(columns, m).value[i], columns[i].elem)
    ensures Some(DecodeCells(columns, m).value[i]) ==
            if columns[i].name in m then AssignInto(columns[i].elem, m[columns[i].name]) else Some(Zero(columns[i].elem))
  {
    var n := |columns| - 1;
    if i < n {
      DecodeCellsTyped(columns[..n], m, i);
    } else if columns[n].name in m {
      assert Norm(m[columns[n].name]) == NormFields(m)[columns[n].name];
      AssignIntoTyped(columns[n].elem, m[columns[n].name]);
    }
  }

  /** Whatever is decoded is well typed. */
  lemma DecodeTyped(schema: Schema, data: Option<Fields>)
    requires Decode(schema, data).Ok?
    ensures WellTyped(schema, Decode(schema, data).value)
  {
    var m := NormFields(data.value);
    NormFieldsIdempotent(data.value);
    var row := Decode(schema, data).value;
    forall i | 0 <= i < |row.cells|
      ensures HasType(row.cells[i], schema.columns[i].elem)
    {
      DecodeCellsTyped(schema.columns, m, i);
    }
    forall k | k in row.leftover
      ensures Norm(row.leftover[k]) == row.leftover[k]
    {
      assert NormFields(m)[k] == m[k];
    }
    assert NormFields(row.leftover) == row.leftover;
  }

  lemma {:induction false} OverlayAt(base: Fields, columns: seq<ColumnSpec>, cells: seq<Value>, k: string)
    requires |cells| == |columns|
    requires forall i, j | 0 <= i < j < |columns| :: columns[i].name != columns[j].name
    ensures k in Overlay(base, columns, cells) <==> k in base || Declared(columns, k)
    ensures k in base && !Declared(columns, k) ==> Overlay(base, columns, cells)[k] == base[k]
    ensures forall i | 0 <= i < |columns| && columns[i].name == k ::
              k in Overlay(base, columns, cells) && Overlay(base, columns, cells)[k] == cells[i]
  {
    if columns != [] {
      var n := |columns| - 1;
      OverlayAt(base, columns[..n], cells[..n], k);
      assert Declared(columns, k) <==> Declared(columns[..n], k) || columns[n].name == k by {
        if i :| 0 <= i < |columns| && columns[i].name == k && i < n { assert columns[..n][i].name == k; }
        if i :| 0 <= i < n && columns[..n][i].name == k { assert columns[i].name == k; }
      }
      assert forall i | 0 <= i < n :: columns[..n][i] == columns[i] && cells[..n][i] == cells[i];
    }
  }

  /** What a reader sees of a stored row: the record's own normalised fields,
      with every declared column that was absent, or null in a typed column,
      reading as that column's zero value, and nothing else. */
  lemma ViewOfDecoded(schema: Schema, data: Fields, k: string)
    requires ValidSchema(schema) && Decode(schema, Some(data)).Ok?
    ensures var v := View(schema, Decode(schema, Some(data)).value);
            && (!Declared(schema.columns, k) ==> (k in v <==> k in data) && (k in data ==> v[k] == Norm(data[k])))
            && (forall i | 0 <= i < |schema.columns| && schema.columns[i].name == k ::
                  && k in v
                  && v[k] == if k in data && !Norm(data[k]).Nil? then Norm(data[k]) else Norm(Zero(schema.columns[i].elem)))
  {
    var row := Decode(schema, Some(data)).value;
    var m := NormFields(data);
    OverlayAt(row.leftover, schema.columns, row.cells, k);
    NormFieldsIdempotent(data);
    if k in data { NormIdempotent(data[k]); }
    forall i | 0 <= i < |schema.columns| && schema.columns[i].name == k
      ensures k in View(schema, row) && View(schema, row)[k] ==
              if k in data && !Norm(data[k]).Nil? then Norm(data[k]) else Norm(Zero(schema.columns[i].elem))
    {
      DecodeCellsTyped(schema.columns, m, i);
      if k in data { AssignIntoNorm(schema.columns[i].elem, m[k]); }
    }
  }

  lemma AssignIntoNorm(t: ElemType, raw: Value)
    requires Norm(raw) == raw && AssignInto(t, raw).Some?
    ensures Norm(AssignInto(t, raw).value) == if raw.Nil? then Norm(Zero(t)) else raw
  {
  }

  lemma CellRoundTrips(t: ElemType, v: Value)
    requires HasType(v, t)
    ensures AssignInto(t, Norm(v)) == Some(v)
  {
  }

  lemma {:induction false} CellsRoundTrip(columns: seq<ColumnSpec>, cells: seq<Value>, m: Fields)
    requires |cells| == |columns|
    requires forall i | 0 <= i < |columns| :: HasType(cells[i], columns[i].elem)
    requires forall i | 0 <= i < |columns| :: columns[i].name in m && m[columns[i].name] == Norm(cells[i])
    ensures DecodeCells(columns, m) == Ok(cells)
  {
    if columns != [] {
      var n := |columns| - 1;
      CellsRoundTrip(columns[..n], cells[..n], m);
      CellRoundTrips(columns[n].elem, cells[n]);
      assert cells == cells[..n] + [cells[n]];
    }
  }

  /** Reading a row and writing it back stores the same row: the step update is
      built on. */
  lemma ViewDecodes(schema: Schema, row: Decoded)
    requires ValidSchema(schema) && WellTyped(schema, row)
    ensures Decode(schema, Some(View(schema, row))) == Ok(row)
  {
    var over := Overlay(row.leftover, schema.columns, row.cells);
    var v := View(schema, row);
    NormFieldsIdempotent(over);
    forall i | 0 <= i < |schema.columns|
      ensures schema.columns[i].name in v && v[schema.columns[i].name] == Norm(row.cells[i])
    {
      OverlayAt(row.leftover, schema.columns, row.cells, schema.columns[i].name);
    }
    CellsRoundTrip(schema.columns, row.cells, v);
    var rest := Undeclared(schema.columns, v);
    forall k
      ensures k in rest <==> k in row.leftover
      ensures k in row.leftover ==> rest[k] == row.leftover[k]
    {
      OverlayAt(row.leftover, schema.columns, row.cells, k);
      if k in row.leftover {
        assert NormFields(row.leftover)[k] == row.leftover[k];
      }
    }
    assert rest == row.leftover;
  }

  // ---- The table and its operations -----------------------------------------

  datatype Stored = Stored(row: Decoded, key: Key)

  type Table = map<string, Stored>

  ghost predicate ValidTable(schema: Schema, t: Table) {
    forall id | id in t :: WellTyped(schema, t[id].row)
  }

  function Store(schema: Schema, t: Table, id: string, key: Key, data: Option<Fields>, overwrite: bool): Result<Table, Failure> {
    if !overwrite && id in t then Err(AlreadyExists)
    else
      match Decode(schema, data)
      case Err(e) => Err(e)
      case Ok(row) => Ok(t[id := Stored(row, key)])
  }

  /** Top-level field names an update may not introduce into a struct. */
  predicate NamesKnown(schema: Schema, updates: seq<PathUpdate.Update>) {
    forall i | 0 <= i < |updates| ::
      updates[i].fieldName == "" || Declared(schema.columns, updates[i].fieldName) || schema.mapBacked
  }

  function Update(schema: Schema, t: Table, id: string, updates: seq<PathUpdate.Update>): Result<Table, Failure>
    requires forall id | id in t :: |t[id].row.cells| == |schema.columns|
  {
    if id !in t then Err(NotFound)
    else if !NamesKnown(schema, updates) then Err(UnknownField)
    else
      match PathUpdate.ApplyAll(View(schema, t[id].row), updates)
      case Err(segment) => Err(NotAMap(segment))
      case Ok(next) =>
        match Decode(schema, Some(next))
        case Err(e) => Err(e)
        case Ok(row) => Ok(t[id := Stored(row, t[id].key)])
  }

  function Delete(t: Table, id: string): Table {
    t - {id}
  }

  function RowOf(schema: Schema, t: Table, id: string): Row
    requires id in t && |t[id].row.cells| == |schema.columns|
  {
    Row(id, View(schema, t[id].row), Some(t[id].key))
  }

  /** rows: every row, by ascending id. */
  ghost function List(schema: Schema, t: Table, ids: set<string>): seq<Row>
    requires ids <= t.Keys
    requires forall id | id in t :: |t[id].row.cells| == |schema.columns|
  {
    var order := SortedIds(ids);
    SortedIdsAscend(ids);
    seq(|order|, i requires 0 <= i < |order| => RowOf(schema, t, order[i]))
  }

  // ---- Runs -----------------------------------------------------------------

  datatype Op =
    | StoreOp(id: string, key: Key, data: Option<Fields>, overwrite: bool)
    | UpdateOp(id: string, updates: seq<PathUpdate.Update>)
    | DeleteOp(id: string)
    | ExistsOp(id: string)
    | LoadOp(id: string)
    | RowsOp

  datatype Reply =
    | Done(failure: Option<Failure>)
    | Found(found: bool)
    | Loaded(view: Result<Fields, Failure>)
    | Listed(rows: Result<seq<Row>, Failure>)

  /** One operation on the map. An unusable engine stores nothing and answers
      every operation that can fail with the same error. */
  ghost function Step(schema: Schema, usable: bool, t: Table, op: Op): (Table, Reply)
    requires ValidTable(schema, t)
  {
    match op
    case StoreOp(id, key, data, overwrite) =>
      if !usable then (t, Done(Some(Unusable)))
      else (
        match Store(schema, t, id, key, data, overwrite)
        case Err(e) => (t, Done(Some(e)))
        case Ok(t') => (t', Done(None)))
    case UpdateOp(id, updates) =>
      if !usable then (t, Done(Some(Unusable)))
      else (
        match Update(schema, t, id, updates)
        case Err(e) => (t, Done(Some(e)))
        case Ok(t') => (t', Done(None)))
    case DeleteOp(id) => (Delete(t, id), Done(None))
    case ExistsOp(id) => (t, Found(id in t))
    case LoadOp(id) =>
      (t, Loaded(if !usable then Err(Unusable) else if id in t then Ok(View(schema, t[id].row)) else Err(NotFound)))
    case RowsOp => (t, Listed(if usable then Ok(List(schema, t, t.Keys)) else Err(Unusable)))
  }

  lemma StepValid(schema: Schema, usable: bool, t: Table, op: Op)
    requires ValidTable(schema, t)
    ensures ValidTable(schema, Step(schema, usable, t, op).0)
  {
    match op
    case StoreOp(id, key, data, overwrite) =>
      if Decode(schema, data).Ok? { DecodeTyped(schema, data); }
    case UpdateOp(id, updates) =>
      if id in t {
        var next := PathUpdate.ApplyAll(View(schema, t[id].row), updates);
        if next.Ok? && Decode(schema, Some(next.value)).Ok? { DecodeTyped(schema, Some(next.value)); }
      }
    case _ =>
  }

  ghost function Run(schema: Schema, usable: bool, t: Table, ops: seq<Op>): (r: (Table, seq<Reply>))
    requires ValidTable(schema, t)
    ensures ValidTable(schema, r.0)
  {
    if ops == [] then (t, [])
    else
      var n := |ops| - 1;
      var (mid, replies) := Run(schema, usable, t, ops[..n]);
      StepValid(schema, usable, mid, ops[n]);
      var (last, reply) := Step(schema, usable, mid, ops[n]);
      (last, replies + [reply])
  }

  /** How many deletes of a run remove a row. */
  ghost function EffectiveDeletes(schema: Schema, usable: bool, t: Table, ops: seq<Op>): nat
    requires ValidTable(schema, t)
  {
    if ops == [] then 0
    else
      var n := |ops| - 1;
      EffectiveDeletes(schema, usable, t, ops[..n])
      + if ops[n].DeleteOp? && ops[n].id in Run(schema, usable, t, ops[..n]).0 then 1 else 0
  }

  // ---- What compaction costs ---------------------------------------------------

  /** maybeCompact fires once at least half of the slots are dead. */
  predicate Fires(rows: nat, dead: nat) {
    dead > 0 && 2 * dead >= rows + dead
  }

  /** The dead slots after an operation: a new row takes one, a delete leaves one, and
      a compaction clears them. */
  ghost function DeadAfter(schema: Schema, usable: bool, t: Table, dead: nat, op: Op): nat
    requires ValidTable(schema, t)
  {
    var t' := Step(schema, usable, t, op).0;
    match op
    case StoreOp(id, _, _, _) => if id in t' && id !in t && dead > 0 then dead - 1 else dead
    case DeleteOp(id) => if id !in t then dead else if Fires(|t'|, dead + 1) then 0 else dead + 1
    case _ => dead
  }

  /** The live rows the compaction in an operation moves: all of them, if there is one. */
  ghost function MovedBy(t: Table, dead: nat, op: Op): nat {
    if op.DeleteOp? && op.id in t && Fires(|Delete(t, op.id)|, dead + 1) then |Delete(t, op.id)| else 0
  }

  ghost function DeadAfterRun(schema: Schema, usable: bool, t: Table, dead: nat, ops: seq<Op>): nat
    requires ValidTable(schema, t)
  {
    if ops == [] then dead
    else
      var n := |ops| - 1;
      DeadAfter(schema, usable, Run(schema, usable, t, ops[..n]).0, DeadAfterRun(schema, usable, t, dead, ops[..n]), ops[n])
  }

  /** All rows moved by all compactions of a run. */
  ghost function MovedInRun(schema: Schema, usable: bool, t: Table, dead: nat, ops: seq<Op>): nat
    requires ValidTable(schema, t)
  {
    if ops == [] then 0
    else
      var n := |ops| - 1;
      MovedInRun(schema, usable, t, dead, ops[..n])
      + MovedBy(Run(schema, usable, t, ops[..n]).0, DeadAfterRun(schema, usable, t, dead, ops[..n]), ops[n])
  }

  /** The amortised bound: over any run, the rows all compactions move, and the dead
      slots left, are at most the deletes that removed a row, and the dead slots there
      were. From an empty engine, no more rows are moved than deleted. */
  lemma {:induction false} MovesAreAmortised(schema: Schema, usable: bool, t: Table, dead: nat, ops: seq<Op>)
    requires ValidTable(schema, t)
    ensures MovedInRun(schema, usable, t, dead, ops) + DeadAfterRun(schema, usable, t, dead, ops)
            <= dead + EffectiveDeletes(schema, usable, t, ops)
  {
    if ops != [] {
      MovesAreAmortised(schema, usable, t, dead, ops[..|ops| - 1]);
    }
  }

  /** An update without changes leaves every row as it is. */
  lemma EmptyUpdateIsIdentity(schema: Schema, t: Table, id: string)
    requires ValidSchema(schema) && ValidTable(schema, t) && id in t
    ensures Update(schema, t, id, []) == Ok(t)
  {
    ViewDecodes(schema, t[id].row);
    assert t[id := Stored(t[id].row, t[id].key)] == t;
  }

  // ---- Equality indexes -----------------------------------------------------

  /** How a column is indexed: by an external strategy, or by a default strategy
      that scans the column, or (orphaned) an abandoned empty one. */
  datatype Indexing = Indexing(external: bool, orphaned: bool)

  function FindColumn(columns: seq<ColumnSpec>, name: string): (r: Option<nat>)
    ensures r.Some? ==> r.value < |columns| && columns[r.value].name == name
    ensures r.None? ==> !Declared(columns, name)
  {
    if columns == [] then None
    else if columns[|columns| - 1].name == name then Some(|columns| - 1)
    else
      var r := FindColumn(columns[..|columns| - 1], name);
      assert r.None? ==> forall i | 0 <= i < |columns| - 1 :: columns[..|columns| - 1][i] == columns[i];
      r
  }

  /** The ids a column's strategy answers for an equality with value; None when it
      has no opinion. */
  ghost function Selected(schema: Schema, ix: Indexing, t: Table, i: nat, value: Value): Option<set<string>>
    requires i < |schema.columns| && ValidTable(schema, t)
  {
    if !ix.external && schema.columns[i].elem == TAny then None
    else if !ix.external && (ix.orphaned || value.Arr? || value.Obj?) then Some({})
    else Some(set id | id in t && t[id].row.cells[i] == value)
  }

  /** The predicate shape candidateSlots has an opinion about: field == constant. */
  datatype Equality = Equality(field: string, constant: Value)

  /** The ids candidateRows lists for field == constant. */
  ghost function Candidates(schema: Schema, ix: seq<Indexing>, t: Table, eq: Equality): Option<set<string>>
    requires |ix| == |schema.columns| && ValidTable(schema, t)
  {
    var i := FindColumn(schema.columns, eq.field);
    if i.None? then None else Selected(schema, ix[i.value], t, i.value, eq.constant)
  }
}
