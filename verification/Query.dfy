/** Resolving expressions against the recordsets of a query, and the ORDER BY
    comparator shared by the single-source and join paths. */
module Resolving {
  import opened Ordering
  import opened Values
  import opened Where

  /** Per recordset name or alias, that recordset's row. A row a LEFT join did not
      find is an empty map, which reads like Go's nil map. */
  type Sources = map<string, Fields>

  datatype QueryError =
    | UnknownSource(field: string)
    | NotAField(column: nat)
    | NotGrouped(column: nat)
    | Unsupported
    | JoinCount(n: nat)
    | UnsupportedJoin

  datatype OrderKey = OrderKey(expr: Expr, descending: bool)

  datatype Column = Column(alias: string, expr: Expr)

  datatype RecordsetSource = RecordsetSource(name: string, alias: string)

  datatype Resolved = Resolved(value: Value, present: bool)

  function SourceKey(rs: RecordsetSource): string {
    if rs.alias != "" then rs.alias else rs.name
  }

  function RowOfSource(sources: Sources, source: string): Fields {
    if source in sources then sources[source] else map[]
  }

  /** resolveJoinExpr. Whether it fails does not depend on the row. */
  function Resolve(e: Expr, sources: Sources, known: set<string>): (r: Result<Resolved, QueryError>)
    ensures r.Ok? <==> Resolvable(e, known)
  {
    match e
    case FieldRef(source, name) =>
      if source !in known then Err(UnknownSource(name))
      else Ok(Resolved(At(RowOfSource(sources, source), name), name in RowOfSource(sources, source)))
    case Constant(value) => Ok(Resolved(value, true))
    case _ => Err(Unsupported)
  }

  predicate Resolvable(e: Expr, known: set<string>) {
    e.Constant? || (e.FieldRef? && e.source in known)
  }

  /** Equality of ON and of WHERE over a join: numbers by value, else Go equality. */
  predicate ValuesEqual(a: Value, b: Value) {
    if Number(a).Some? && Number(b).Some? then Number(a) == Number(b) else a == b
  }

  // ---- ORDER BY ---------------------------------------------------------------------

  predicate KnownKey(key: OrderKey, known: set<string>) {
    key.expr.FieldRef? && key.expr.source != "" ==> key.expr.source in known
  }

  /** The error validateOrderSources reports, for the first offending key. */
  function OrderError(orderBy: seq<OrderKey>, known: set<string>): (r: Option<QueryError>)
    ensures r.None? <==> forall i | 0 <= i < |orderBy| :: KnownKey(orderBy[i], known)
  {
    if orderBy == [] then None
    else if !KnownKey(orderBy[0], known) then Some(UnknownSource(orderBy[0].expr.name))
    else OrderError(orderBy[1..], known)
  }

  method ValidateOrderSources(orderBy: seq<OrderKey>, known: set<string>) returns (err: Option<QueryError>)
    ensures err == OrderError(orderBy, known)
  {
    for i := 0 to |orderBy|
      invariant OrderError(orderBy, known) == OrderError(orderBy[i..], known)
    {
      var key := orderBy[i];
      if key.expr.FieldRef? && key.expr.source != "" && key.expr.source !in known {
        return Some(UnknownSource(key.expr.name));
      }
    }
    err := None;
  }

  /** One ORDER BY key; keys that are not fields are skipped. */
  function KeyCompare(fmt: Printer, key: OrderKey, a: Sources, b: Sources): int {
    match key.expr
    case FieldRef(source, name) =>
      var c := Compare(fmt, At(RowOfSource(a, source), name), At(RowOfSource(b, source), name));
      if key.descending then -c else c
    case _ => 0
  }

  /** A row as the sort sees it. */
  datatype Sortable = Sortable(id: string, sources: Sources)

  /** All keys in turn, then the id. */
  function RowCompare(fmt: Printer, orderBy: seq<OrderKey>, a: Sortable, b: Sortable): int {
    if orderBy == [] then
      if StrLess(a.id, b.id) then -1 else if StrLess(b.id, a.id) then 1 else 0
    else
      var c := KeyCompare(fmt, orderBy[0], a.sources, b.sources);
      if c != 0 then c else RowCompare(fmt, orderBy[1..], a, b)
  }

  /** The comparator closure of orderBySources. */
  method RowLess(fmt: Printer, orderBy: seq<OrderKey>, a: Sortable, b: Sortable) returns (less: bool)
    ensures less == (RowCompare(fmt, orderBy, a, b) < 0)
  {
    for i := 0 to |orderBy|
      invariant RowCompare(fmt, orderBy, a, b) == RowCompare(fmt, orderBy[i..], a, b)
    {
      match orderBy[i].expr {
        case FieldRef(source, name) =>
          var c := Compare(fmt, At(RowOfSource(a.sources, source), name), At(RowOfSource(b.sources, source), name));
          if orderBy[i].descending {
            c := -c;
          }
          if c != 0 {
            return c < 0;
          }
        case _ =>
      }
    }
    less := StrLess(a.id, b.id);
  }

  function KeyValue(key: OrderKey, s: Sources): Value {
    if key.expr.FieldRef? then At(RowOfSource(s, key.expr.source), key.expr.name) else Nil
  }

  /** Each ORDER BY column holds only numbers or no numbers. */
  ghost predicate HomogeneousKeys(orderBy: seq<OrderKey>, rows: seq<Sources>) {
    forall k | 0 <= k < |orderBy| :: Homogeneous(seq(|rows|, i requires 0 <= i < |rows| => KeyValue(orderBy[k], rows[i])))
  }

  lemma KeyIsPreorder(fmt: Printer, key: OrderKey, a: Sources, b: Sources, c: Sources)
    requires Homogeneous([KeyValue(key, a), KeyValue(key, b), KeyValue(key, c)])
    ensures KeyCompare(fmt, key, a, b) == -KeyCompare(fmt, key, b, a)
    ensures KeyCompare(fmt, key, a, b) <= 0 && KeyCompare(fmt, key, b, c) <= 0 ==> KeyCompare(fmt, key, a, c) <= 0
    ensures KeyCompare(fmt, key, a, b) < 0 && KeyCompare(fmt, key, b, c) <= 0 ==> KeyCompare(fmt, key, a, c) < 0
    ensures KeyCompare(fmt, key, a, b) <= 0 && KeyCompare(fmt, key, b, c) < 0 ==> KeyCompare(fmt, key, a, c) < 0
  {
    var x, y, z := KeyValue(key, a), KeyValue(key, b), KeyValue(key, c);
    CompareIsPreorder(fmt, x, y, z);
    assert Homogeneous([z, y, x]) by {
      assert forall v :: v in [z, y, x] <==> v in [x, y, z];
    }
    CompareIsPreorder(fmt, z, y, x);
    CompareFlips(fmt, x, z);
  }

  lemma {:induction false} RowIsPreorder(fmt: Printer, orderBy: seq<OrderKey>, a: Sortable, b: Sortable, c: Sortable)
    requires forall k | 0 <= k < |orderBy| ::
               Homogeneous([KeyValue(orderBy[k], a.sources), KeyValue(orderBy[k], b.sources), KeyValue(orderBy[k], c.sources)])
    ensures RowCompare(fmt, orderBy, a, b) < 0 <==> RowCompare(fmt, orderBy, b, a) > 0
    ensures RowCompare(fmt, orderBy, a, b) == 0 <==> RowCompare(fmt, orderBy, b, a) == 0
    ensures RowCompare(fmt, orderBy, a, b) == 0 ==> a.id == b.id
    ensures RowCompare(fmt, orderBy, a, b) <= 0 && RowCompare(fmt, orderBy, b, c) <= 0 ==> RowCompare(fmt, orderBy, a, c) <= 0
    ensures RowCompare(fmt, orderBy, a, b) < 0 && RowCompare(fmt, orderBy, b, c) <= 0 ==> RowCompare(fmt, orderBy, a, c) < 0
    ensures RowCompare(fmt, orderBy, a, b) <= 0 && RowCompare(fmt, orderBy, b, c) < 0 ==> RowCompare(fmt, orderBy, a, c) < 0
  {
    if orderBy == [] {
      TextIsPreorder(a.id, b.id, c.id);
      StrLessTotal(a.id, b.id);
    } else {
      KeyIsPreorder(fmt, orderBy[0], a.sources, b.sources, c.sources);
      RowIsPreorder(fmt, orderBy[1..], a, b, c);
    }
  }

  lemma SomeAreHomogeneous(all: seq<Value>, some: seq<Value>)
    requires Homogeneous(all) && forall v | v in some :: v in all
    ensures Homogeneous(some)
  {
  }

  /** On any columns, mixed or not, the comparator decides every pair of distinct ids
      one way. */
  lemma {:induction false} RowsDecide(fmt: Printer, orderBy: seq<OrderKey>, a: Sortable, b: Sortable)
    ensures RowCompare(fmt, orderBy, a, b) < 0 <==> RowCompare(fmt, orderBy, b, a) > 0
    ensures RowCompare(fmt, orderBy, a, b) == 0 ==> a.id == b.id
  {
    if orderBy == [] {
      StrLessTotal(a.id, b.id);
    } else {
      CompareFlips(fmt, KeyValue(orderBy[0], a.sources), KeyValue(orderBy[0], b.sources));
      RowsDecide(fmt, orderBy[1..], a, b);
    }
  }

  predicate Precedes(fmt: Printer, orderBy: seq<OrderKey>, a: Sortable, b: Sortable) {
    RowCompare(fmt, orderBy, a, b) < 0
  }

  /** orderBySources: rows sorted stably by the comparator over their sources and ids. */
  method OrderBySources<T(!new)>(fmt: Printer, rows: seq<T>, orderBy: seq<OrderKey>, sortable: T -> Sortable, ghost less: (T, T) -> bool)
      returns (sorted: seq<T>)
    requires forall a, b :: less(a, b) <==> Precedes(fmt, orderBy, sortable(a), sortable(b))
    ensures sorted == SortBy(rows, less)
  {
    sorted := [];
    for i := |rows| downto 0
      invariant sorted == SortBy(rows[i..], less)
    {
      assert rows[i..][0] == rows[i] && rows[i..][1..] == rows[i + 1..];
      sorted := InsertRow(fmt, rows[i], sorted, orderBy, sortable, less);
    }
    assert rows[0..] == rows;
  }

  method InsertRow<T(!new)>(fmt: Printer, x: T, rows: seq<T>, orderBy: seq<OrderKey>, sortable: T -> Sortable, ghost less: (T, T) -> bool)
      returns (grown: seq<T>)
    requires forall a, b :: less(a, b) <==> Precedes(fmt, orderBy, sortable(a), sortable(b))
    ensures grown == Insert(x, rows, less)
  {
    var k := 0;
    while k < |rows|
      invariant 0 <= k <= |rows|
      invariant Insert(x, rows, less) == rows[..k] + Insert(x, rows[k..], less)
    {
      var before := RowLess(fmt, orderBy, sortable(rows[k]), sortable(x));
      assert rows[k..][0] == rows[k] && rows[k..][1..] == rows[k + 1..];
      if !before {
        return rows[..k] + [x] + rows[k..];
      }
      assert rows[..k] + ([rows[k]] + Insert(x, rows[k + 1..], less)) == rows[..k + 1] + Insert(x, rows[k + 1..], less);
      k := k + 1;
    }
    grown := rows + [x];
  }

  /** On homogeneous columns and distinct ids, ORDER BY with the id as tiebreak is a
      strict total order. */
  lemma PrecedesIsTotal(fmt: Printer, orderBy: seq<OrderKey>, rows: seq<Sortable>)
    requires HomogeneousKeys(orderBy, seq(|rows|, i requires 0 <= i < |rows| => rows[i].sources))
    requires forall a, b | a in rows && b in rows && a.id == b.id :: a == b
    ensures TotalOn((a, b) => Precedes(fmt, orderBy, a, b), rows)
  {
    var less := (a, b) => Precedes(fmt, orderBy, a, b);
    forall a, b, c | a in rows && b in rows && c in rows
      ensures less(a, b) ==> !less(b, a)
      ensures a != b ==> less(a, b) || less(b, a)
      ensures less(a, b) && less(b, c) ==> less(a, c)
      ensures less(a, c) ==> less(a, b) || less(b, c)
    {
      ThreeRows(orderBy, rows, a, b, c);
      RowIsPreorder(fmt, orderBy, a, b, c);
      ThreeRows(orderBy, rows, c, b, a);
      RowIsPreorder(fmt, orderBy, c, b, a);
      ThreeRows(orderBy, rows, a, c, b);
      RowIsPreorder(fmt, orderBy, a, c, b);
    }
  }

  lemma ThreeRows(orderBy: seq<OrderKey>, rows: seq<Sortable>, a: Sortable, b: Sortable, c: Sortable)
    requires HomogeneousKeys(orderBy, seq(|rows|, i requires 0 <= i < |rows| => rows[i].sources))
    requires a in rows && b in rows && c in rows
    ensures forall k | 0 <= k < |orderBy| ::
              Homogeneous([KeyValue(orderBy[k], a.sources), KeyValue(orderBy[k], b.sources), KeyValue(orderBy[k], c.sources)])
  {
    var rs := seq(|rows|, i requires 0 <= i < |rows| => rows[i].sources);
    forall k | 0 <= k < |orderBy|
      ensures Homogeneous([KeyValue(orderBy[k], a.sources), KeyValue(orderBy[k], b.sources), KeyValue(orderBy[k], c.sources)])
    {
      var vs := seq(|rs|, i requires 0 <= i < |rs| => KeyValue(orderBy[k], rs[i]));
      var i, j, l :| 0 <= i < |rows| && 0 <= j < |rows| && 0 <= l < |rows| && rows[i] == a && rows[j] == b && rows[l] == c;
      assert vs[i] == KeyValue(orderBy[k], a.sources) && vs[j] == KeyValue(orderBy[k], b.sources) && vs[l] == KeyValue(orderBy[k], c.sources);
      SomeAreHomogeneous(vs, [vs[i], vs[j], vs[l]]);
    }
  }

  /** A column that mixes numbers and text may have no order at all: these three
      rows are out of order in every arrangement. */
  lemma MixedColumnUnsortable(fmt: Printer, s: seq<Sortable>)
    requires fmt(Float(9.0)) == "9" && fmt(Float(10.0)) == "10" && fmt(Str("1a")) == "1a"
    requires multiset(s) == multiset{Cell("a", Float(9.0)), Cell("b", Float(10.0)), Cell("c", Str("1a"))}
    ensures !Sorted((a, b) => Precedes(fmt, [OrderKey(FieldRef("", "x"), false)], a, b), s)
  {
    var orderBy := [OrderKey(FieldRef("", "x"), false)];
    var a, b, c := Cell("a", Float(9.0)), Cell("b", Float(10.0)), Cell("c", Str("1a"));
    MixedColumnCycles(fmt);
    assert Precedes(fmt, orderBy, a, b) && Precedes(fmt, orderBy, b, c) && Precedes(fmt, orderBy, c, a);
    assert a in multiset(s) && b in multiset(s) && c in multiset(s);
    CycleIsUnsorted(s, (a, b) => Precedes(fmt, orderBy, a, b), a, b, c);
  }

  function Cell(id: string, v: Value): Sortable {
    Sortable(id, map["" := map["x" := v]])
  }
}

/** Single-source queries: filter, order, limit, project. */
module Query {
  import opened Ordering
  import opened Values
  import opened Where
  import opened T = Table
  import opened Resolving
  import IndexScan
  import opened Contests

  datatype Query = Query(
    base: RecordsetSource,
    parent: Option<Key>,
    where: Option<Cond>,
    orderBy: seq<OrderKey>,
    limit: int,
    columns: seq<Column>,
    withData: bool)

  /** A result record: its key and, unless the query asks for keys only, its data. */
  datatype Record = Record(key: Key, data: Option<Fields>)

  /** How record.Key.String prints a key. */
  type PathPrinter = Key -> string

  function BaseSources(base: RecordsetSource, data: Fields): Sources {
    var src := map["" := data, base.name := data];
    if base.alias != "" then src[base.alias := data] else src
  }

  function Known(base: RecordsetSource): set<string> {
    if base.alias != "" then {"", base.name, base.alias} else {"", base.name}
  }

  predicate IsChildOf(path: PathPrinter, key: Option<Key>, parent: Key) {
    key.Some? && key.value.parent.Some? && path(key.value.parent.value) == path(parent)
  }

  predicate Keeps(fmt: Printer, path: PathPrinter, q: Query, row: Row) {
    Matches(fmt, row.data, q.where) && (q.parent.Some? ==> IsChildOf(path, row.key, q.parent.value))
  }

  predicate KnownColumn(c: Column, known: set<string>) {
    c.expr.FieldRef? && (c.expr.source == "" || c.expr.source in known)
  }

  /** The error validateColumns reports for columns i and on. */
  function ColumnError(columns: seq<Column>, known: set<string>, i: nat): (r: Option<QueryError>)
    requires i <= |columns|
    ensures r.None? <==> forall j | i <= j < |columns| :: KnownColumn(columns[j], known)
    decreases |columns| - i
  {
    if i == |columns| then None
    else if !columns[i].expr.FieldRef? then Some(NotAField(i))
    else if !KnownColumn(columns[i], known) then Some(UnknownSource(columns[i].expr.name))
    else ColumnError(columns, known, i + 1)
  }

  method ValidateColumns(columns: seq<Column>, known: set<string>) returns (err: Option<QueryError>)
    ensures err == ColumnError(columns, known, 0)
  {
    for i := 0 to |columns|
      invariant ColumnError(columns, known, 0) == ColumnError(columns, known, i)
    {
      if !columns[i].expr.FieldRef? {
        return Some(NotAField(i));
      }
      var source := columns[i].expr.source;
      if source != "" && source !in known {
        return Some(UnknownSource(columns[i].expr.name));
      }
    }
    err := None;
  }

  /** The error a query is rejected with once it has rows to look at. */
  function Rejection(q: Query): Option<QueryError> {
    var err := OrderError(q.orderBy, Known(q.base));
    if err.Some? then err else ColumnError(q.columns, Known(q.base), 0)
  }

  function ColumnKey(c: Column): string
    requires c.expr.FieldRef?
  {
    if c.alias != "" then c.alias else c.expr.name
  }

  function Project(columns: seq<Column>, sources: Sources): Fields
    requires forall i | 0 <= i < |columns| :: columns[i].expr.FieldRef?
  {
    if columns == [] then map[]
    else
      var n := |columns| - 1;
      Project(columns[..n], sources)[ColumnKey(columns[n]) := At(RowOfSource(sources, columns[n].expr.source), columns[n].expr.name)]
  }

  /** A projected row holds, under each output name, the value of the last column
      with that name, and nothing else. */
  lemma {:induction false} ProjectAt(columns: seq<Column>, sources: Sources, k: string)
    requires forall i | 0 <= i < |columns| :: columns[i].expr.FieldRef?
    ensures (exists i :: LastNamed(columns, i, k)) <==> k in Project(columns, sources)
    ensures forall i | LastNamed(columns, i, k) ::
              k in Project(columns, sources) && Project(columns, sources)[k] == At(RowOfSource(sources, columns[i].expr.source), columns[i].expr.name)
  {
    if columns != [] {
      var n := |columns| - 1;
      ProjectAt(columns[..n], sources, k);
      if ColumnKey(columns[n]) == k {
        assert LastNamed(columns, n, k);
      } else {
        SkipsLast(columns, k);
        if k in Project(columns[..n], sources) {
          var i :| LastNamed(columns[..n], i, k);
          assert LastNamed(columns, i, k);
        }
        assert forall j | 0 <= j < n :: columns[..n][j] == columns[j];
      }
    }
  }

  lemma SkipsLast(columns: seq<Column>, k: string)
    requires columns != [] && forall i | 0 <= i < |columns| :: columns[i].expr.FieldRef?
    requires ColumnKey(columns[|columns| - 1]) != k
    ensures forall i :: LastNamed(columns, i, k) <==> LastNamed(columns[..|columns| - 1], i, k)
  {
    var n := |columns| - 1;
    assert forall j | 0 <= j < n :: columns[..n][j] == columns[j];
  }

  predicate LastNamed(columns: seq<Column>, i: int, k: string)
    requires forall i | 0 <= i < |columns| :: columns[i].expr.FieldRef?
  {
    0 <= i < |columns| && ColumnKey(columns[i]) == k && forall j | i < j < |columns| :: ColumnKey(columns[j]) != k
  }

  method ProjectRow(columns: seq<Column>, sources: Sources) returns (out: Fields)
    requires forall i | 0 <= i < |columns| :: columns[i].expr.FieldRef?
    ensures out == Project(columns, sources)
  {
    out := map[];
    for i := 0 to |columns|
      invariant out == Project(columns[..i], sources)
    {
      assert columns[..i + 1][..i] == columns[..i];
      out := out[ColumnKey(columns[i]) := At(RowOfSource(sources, columns[i].expr.source), columns[i].expr.name)];
    }
    assert columns[..|columns|] == columns;
  }

  function ResultKey(q: Query, row: Row): Key {
    if row.key.Some? then row.key.value else Key(q.base.name, Str(row.id), None)
  }

  function ToRecord(q: Query, row: Row): Record
    requires forall i | 0 <= i < |q.columns| :: q.columns[i].expr.FieldRef?
  {
    Record(ResultKey(q, row),
           if q.columns != [] then Some(Project(q.columns, BaseSources(q.base, row.data)))
           else if q.withData then Some(row.data)
           else None)
  }

  predicate Before(fmt: Printer, q: Query, a: Row, b: Row) {
    Precedes(fmt, q.orderBy, Sortable(a.id, BaseSources(q.base, a.data)), Sortable(b.id, BaseSources(q.base, b.data)))
  }

  function Keeper(fmt: Printer, path: PathPrinter, q: Query): Row -> bool {
    (r: Row) => Keeps(fmt, path, q, r)
  }

  function Order(fmt: Printer, q: Query): (Row, Row) -> bool {
    (a: Row, b: Row) => Before(fmt, q, a, b)
  }

  /** A positive LIMIT cuts to a prefix. */
  function Limited<T>(s: seq<T>, limit: int): (r: seq<T>)
    ensures r <= s
  {
    if 0 < limit < |s| then s[..limit] else s
  }

  /** The rows of the answer, in order. */
  function Picked(fmt: Printer, path: PathPrinter, q: Query, rows: seq<Row>): seq<Row> {
    Limited(SortBy(Filter(rows, Keeper(fmt, path, q)), Order(fmt, q)), q.limit)
  }

  function Answer(fmt: Printer, path: PathPrinter, q: Query, rows: seq<Row>): Result<seq<Record>, QueryError> {
    if rows == [] then Ok([])
    else if Rejection(q).Some? then Err(Rejection(q).value)
    else
      assert forall i | 0 <= i < |q.columns| :: KnownColumn(q.columns[i], Known(q.base));
      Ok(Records(q, Picked(fmt, path, q, rows)))
  }

  function Records(q: Query, rows: seq<Row>): seq<Record>
    requires forall i | 0 <= i < |q.columns| :: q.columns[i].expr.FieldRef?
  {
    seq(|rows|, i requires 0 <= i < |rows| => ToRecord(q, rows[i]))
  }

  method KeepRows(fmt: Printer, path: PathPrinter, q: Query, rows: seq<Row>) returns (kept: seq<Row>)
    ensures kept == Filter(rows, Keeper(fmt, path, q))
  {
    ghost var keep := Keeper(fmt, path, q);
    kept := [];
    for i := 0 to |rows|
      invariant kept == Filter(rows[..i], keep)
    {
      assert rows[..i + 1] == rows[..i] + [rows[i]];
      FilterSnoc(rows[..i], rows[i], keep);
      if !Matches(fmt, rows[i].data, q.where) {
        continue;
      }
      if q.parent.Some? && !IsChildOf(path, rows[i].key, q.parent.value) {
        continue;
      }
      kept := kept + [rows[i]];
    }
    assert rows[..|rows|] == rows;
  }

  method BuildRecords(q: Query, rows: seq<Row>) returns (out: seq<Record>)
    requires forall i | 0 <= i < |q.columns| :: q.columns[i].expr.FieldRef?
    ensures out == Records(q, rows)
  {
    out := [];
    for i := 0 to |rows|
      invariant |out| == i && forall j | 0 <= j < i :: out[j] == ToRecord(q, rows[j])
    {
      var key := ResultKey(q, rows[i]);
      if |q.columns| > 0 {
        var data := ProjectRow(q.columns, BaseSources(q.base, rows[i].data));
        out := out + [Record(key, Some(data))];
      } else {
        out := out + [Record(key, if q.withData then Some(rows[i].data) else None)];
      }
    }
  }

  method Execute(fmt: Printer, path: PathPrinter, q: Query, rows: seq<Row>) returns (r: Result<seq<Record>, QueryError>)
    ensures r == Answer(fmt, path, q, rows)
  {
    if |rows| == 0 {
      return Ok([]);
    }
    var known := {"", q.base.name};
    if q.base.alias != "" {
      known := known + {q.base.alias};
    }
    assert known == Known(q.base);
    var err := ValidateOrderSources(q.orderBy, known);
    if err.Some? {
      return Err(err.value);
    }
    err := ValidateColumns(q.columns, known);
    if err.Some? {
      return Err(err.value);
    }
    var kept := KeepRows(fmt, path, q, rows);
    kept := OrderBySources(fmt, kept, q.orderBy, (row: Row) => Sortable(row.id, BaseSources(q.base, row.data)), Order(fmt, q));
    if 0 < q.limit < |kept| {
      kept := kept[..q.limit];
    }
    assert forall i | 0 <= i < |q.columns| :: KnownColumn(q.columns[i], known);
    var out := BuildRecords(q, kept);
    r := Ok(out);
  }

  // ---- What an answer is -----------------------------------------------------------

  ghost predicate DistinctIds(rows: seq<Row>) {
    forall a, b | a in rows && b in rows && a.id == b.id :: a == b
  }

  function SourcesOf(q: Query, rows: seq<Row>): seq<Sources> {
    Map(rows, (r: Row) => BaseSources(q.base, r.data))
  }

  lemma BeforeIsTotal(fmt: Printer, q: Query, rows: seq<Row>)
    requires DistinctIds(rows) && HomogeneousKeys(q.orderBy, SourcesOf(q, rows))
    ensures TotalOn(Order(fmt, q), rows)
  {
    var sortable := Map(rows, (r: Row) => Sortable(r.id, BaseSources(q.base, r.data)));
    assert SourcesOf(q, rows) == seq(|sortable|, i requires 0 <= i < |sortable| => sortable[i].sources);
    forall a, b | a in sortable && b in sortable && a.id == b.id
      ensures a == b
    {
      var i, j :| 0 <= i < |rows| && 0 <= j < |rows| && sortable[i] == a && sortable[j] == b;
      assert rows[i] in rows && rows[j] in rows;
    }
    PrecedesIsTotal(fmt, q.orderBy, sortable);
    forall r | r in rows
      ensures Sortable(r.id, BaseSources(q.base, r.data)) in sortable
    {
      var i :| 0 <= i < |rows| && rows[i] == r;
      assert sortable[i] == Sortable(r.id, BaseSources(q.base, r.data));
    }
    var less := (a, b) => Precedes(fmt, q.orderBy, a, b);
    forall a, b | a in rows && b in rows
      ensures Before(fmt, q, a, b) == less(Sortable(a.id, BaseSources(q.base, a.data)), Sortable(b.id, BaseSources(q.base, b.data)))
    {
    }
  }

  /** An ungrouped query is a function of the row set: in whatever order the engine
      enumerates them, the answer is the same sequence. */
  lemma AnswerForgetsOrder(fmt: Printer, path: PathPrinter, q: Query, rows: seq<Row>, rows': seq<Row>)
    requires multiset(rows) == multiset(rows') && DistinctIds(rows)
    requires HomogeneousKeys(q.orderBy, SourcesOf(q, Filter(rows, Keeper(fmt, path, q))))
    ensures Answer(fmt, path, q, rows) == Answer(fmt, path, q, rows')
  {
    SamePopulation(rows, rows');
    var keep := Keeper(fmt, path, q);
    FilterPermutation(rows, rows', keep);
    BeforeIsTotal(fmt, q, Filter(rows, keep));
    SortForgetsOrder(Filter(rows, keep), Filter(rows', keep), Order(fmt, q));
  }

  /** The answer is the matching rows of the right parent, each once, in ORDER BY
      order with the id last, cut to the first limit of them. */
  lemma PickedIsTop(fmt: Printer, path: PathPrinter, q: Query, rows: seq<Row>)
    requires DistinctIds(rows)
    requires HomogeneousKeys(q.orderBy, SourcesOf(q, Filter(rows, Keeper(fmt, path, q))))
    ensures var kept := Filter(rows, Keeper(fmt, path, q));
            var top := Picked(fmt, path, q, rows);
            var sorted := SortBy(kept, Order(fmt, q));
            && multiset(sorted) == multiset(kept)
            && Sorted(Order(fmt, q), sorted)
            && top <= sorted
            && |top| == (if 0 < q.limit < |kept| then q.limit else |kept|)
            && (forall a, b | a in top && b in kept && b !in top :: Before(fmt, q, a, b))
  {
    var keep := Keeper(fmt, path, q);
    var less := Order(fmt, q);
    var kept := Filter(rows, keep);
    var sorted := SortBy(kept, less);
    var top := Picked(fmt, path, q, rows);
    BeforeIsTotal(fmt, q, kept);
    SortIsPermutation(kept, less);
    SortSorts(kept, less);
    forall a, b | a in top && b in kept && b !in top
      ensures Before(fmt, q, a, b)
    {
      assert top == sorted[..|top|];
      PrefixIsSmallest(kept, less, |top|, a, b);
    }
  }

  // ---- When the order of enumeration shows ---------------------------------------------

  lemma BeforeDecides(fmt: Printer, q: Query, rows: seq<Row>, s: set<Row>)
    requires DistinctIds(rows) && forall r | r in s :: r in rows
    ensures Contest(Order(fmt, q), s)
  {
    var less := Order(fmt, q);
    forall a, b | a in s && b in s
      ensures less(a, b) ==> !less(b, a)
      ensures a != b ==> less(a, b) || less(b, a)
    {
      var x, y := Sortable(a.id, BaseSources(q.base, a.data)), Sortable(b.id, BaseSources(q.base, b.data));
      RowsDecide(fmt, q.orderBy, x, y);
      RowsDecide(fmt, q.orderBy, y, x);
    }
  }

  /** How many records the query returns of so many rows. */
  function Places(q: Query, kept: nat): nat {
    if 0 < q.limit < kept then q.limit else kept
  }

  /** No two rows are stored under the same key. */
  ghost predicate DistinctKeys(q: Query, rows: seq<Row>) {
    forall a, b | a in rows && b in rows && ResultKey(q, a) == ResultKey(q, b) :: a == b
  }

  ghost function Elements(rows: seq<Row>): set<Row> {
    set r | r in rows
  }

  /** Distinct rows show as distinct records. */
  lemma RecordsTell(q: Query, all: seq<Row>, a: seq<Row>, b: seq<Row>)
    requires forall i | 0 <= i < |q.columns| :: q.columns[i].expr.FieldRef?
    requires DistinctKeys(q, all) && (forall r | r in a :: r in all) && (forall r | r in b :: r in all)
    ensures Records(q, a) == Records(q, b) <==> a == b
  {
    if Records(q, a) == Records(q, b) {
      assert |a| == |Records(q, a)| && |b| == |Records(q, b)|;
      forall i | 0 <= i < |a|
        ensures a[i] == b[i]
      {
        assert Records(q, a)[i] == ToRecord(q, a[i]) && Records(q, b)[i] == ToRecord(q, b[i]);
        assert a[i] in a && b[i] in b;
      }
    }
  }

  /** One enumeration of the rows against another. */
  lemma AnswersAgreeIff(fmt: Printer, path: PathPrinter, q: Query, rows: seq<Row>, rows': seq<Row>)
    requires multiset(rows) == multiset(rows') && DistinctKeys(q, rows) && Rejection(q).None?
    ensures Answer(fmt, path, q, rows) == Answer(fmt, path, q, rows') <==>
            Picked(fmt, path, q, rows) == Picked(fmt, path, q, rows')
  {
    SamePopulation(rows, rows');
    var a, b := Picked(fmt, path, q, rows), Picked(fmt, path, q, rows');
    PickedFrom(fmt, path, q, rows);
    PickedFrom(fmt, path, q, rows');
    assert forall i | 0 <= i < |q.columns| :: KnownColumn(q.columns[i], Known(q.base));
    if rows != [] {
      RecordsTell(q, rows, a, b);
    } else {
      assert rows' == [];
    }
  }

  lemma PickedFrom(fmt: Printer, path: PathPrinter, q: Query, rows: seq<Row>)
    ensures forall r | r in Picked(fmt, path, q, rows) :: r in rows
  {
    var kept := Filter(rows, Keeper(fmt, path, q));
    SortIsPermutation(kept, Order(fmt, q));
  }

  /** Whether the answer depends on the order the engine enumerates the rows in, with
      no condition on the columns: every order gives one answer if and only if the
      query is rejected, or for each place of the answer one of the kept rows left goes
      before all the others left. */
  lemma AnswerForgetsOrderIff(fmt: Printer, path: PathPrinter, q: Query, rows: seq<Row>)
    requires Distinct(rows) && DistinctIds(rows) && DistinctKeys(q, rows)
    ensures var kept := Filter(rows, Keeper(fmt, path, q));
            (forall rows' | multiset(rows') == multiset(rows) :: Answer(fmt, path, q, rows') == Answer(fmt, path, q, rows))
            <==> Rejection(q).Some? || Decided(Order(fmt, q), Elements(kept), Places(q, |kept|))
  {
    var keep, less := Keeper(fmt, path, q), Order(fmt, q);
    var kept := Filter(rows, keep);
    var s := Elements(kept);
    FilterDistinct(rows, keep);
    assert Lists(kept, s);
    ListsCount(kept, s);
    BeforeDecides(fmt, q, rows, s);
    var n := Places(q, |kept|);
    PrefixForgetsOrderIff(less, kept, s, n);
    if Rejection(q).None? {
      if Decided(less, s, n) {
        forall rows' | multiset(rows') == multiset(rows)
          ensures Answer(fmt, path, q, rows') == Answer(fmt, path, q, rows)
        {
          EnumerationAgrees(fmt, path, q, rows, rows');
        }
      } else {
        var p :| Lists(p, s) && FirstOf(SortBy(p, less), n) != FirstOf(SortBy(kept, less), n);
        OtherEnumeration(fmt, path, q, rows, p);
      }
    } else {
      forall rows' | multiset(rows') == multiset(rows)
        ensures Answer(fmt, path, q, rows') == Answer(fmt, path, q, rows)
      {
        SamePopulation(rows, rows');
      }
    }
  }

  /** Without a LIMIT: if and only if no three kept rows go before one another in a
      circle, as rows of homogeneous columns never do. */
  lemma UnlimitedForgetsOrderIff(fmt: Printer, path: PathPrinter, q: Query, rows: seq<Row>)
    requires Distinct(rows) && DistinctIds(rows) && DistinctKeys(q, rows) && q.limit <= 0
    ensures var kept := Filter(rows, Keeper(fmt, path, q));
            (forall rows' | multiset(rows') == multiset(rows) :: Answer(fmt, path, q, rows') == Answer(fmt, path, q, rows))
            <==> Rejection(q).Some? || NoCircle(Order(fmt, q), Elements(kept))
  {
    var kept := Filter(rows, Keeper(fmt, path, q));
    FilterDistinct(rows, Keeper(fmt, path, q));
    assert Lists(kept, Elements(kept));
    ListsCount(kept, Elements(kept));
    BeforeDecides(fmt, q, rows, Elements(kept));
    DecidedIffNoCircle(Order(fmt, q), Elements(kept));
    AnswerForgetsOrderIff(fmt, path, q, rows);
  }

  function MixedRow(id: string, v: Value): Row {
    Row(id, map["x" := v], Some(Key("t", Str(id), None)))
  }

  function ByX(): Query {
    Query(RecordsetSource("t", ""), None, None, [OrderKey(FieldRef("", "x"), false)], 0, [], true)
  }

  lemma MixedRowsCircle(fmt: Printer)
    requires fmt(Float(9.0)) == "9" && fmt(Float(10.0)) == "10" && fmt(Str("1a")) == "1a"
    ensures Circle(Order(fmt, ByX()), MixedRow("a", Float(9.0)), MixedRow("b", Float(10.0)), MixedRow("c", Str("1a")))
  {
    MixedColumnCycles(fmt);
    var orderBy := ByX().orderBy;
    assert orderBy[1..] == [];
  }

  /** ORDER BY x over 9, 10 and "1a": each of these two enumerations of the same three
      rows is its own answer. */
  lemma MixedColumnTwoAnswers(fmt: Printer, path: PathPrinter)
    requires fmt(Float(9.0)) == "9" && fmt(Float(10.0)) == "10" && fmt(Str("1a")) == "1a"
    ensures var a, b, c := MixedRow("a", Float(9.0)), MixedRow("b", Float(10.0)), MixedRow("c", Str("1a"));
            && multiset([a, b, c]) == multiset([b, c, a])
            && Answer(fmt, path, ByX(), [a, b, c]) == Ok(Records(ByX(), [a, b, c]))
            && Answer(fmt, path, ByX(), [b, c, a]) == Ok(Records(ByX(), [b, c, a]))
            && Records(ByX(), [a, b, c]) != Records(ByX(), [b, c, a])
  {
    MixedRowsCircle(fmt);
    CircleAnswers(fmt, path, MixedRow("a", Float(9.0)), MixedRow("b", Float(10.0)), MixedRow("c", Str("1a")));
  }

  /** Three rows in a circle are an answer in each of their turns. */
  lemma CircleAnswers(fmt: Printer, path: PathPrinter, a: Row, b: Row, c: Row)
    requires DistinctIds([a, b, c]) && Circle(Order(fmt, ByX()), a, b, c) && ResultKey(ByX(), a) != ResultKey(ByX(), b)
    ensures multiset([a, b, c]) == multiset([b, c, a])
    ensures Answer(fmt, path, ByX(), [a, b, c]) == Ok(Records(ByX(), [a, b, c]))
    ensures Answer(fmt, path, ByX(), [b, c, a]) == Ok(Records(ByX(), [b, c, a]))
    ensures Records(ByX(), [a, b, c]) != Records(ByX(), [b, c, a])
  {
    OneWay(fmt, a, b, c);
    ThreeSteps(fmt, path, a, b, c);
    ThreeSteps(fmt, path, b, c, a);
    RecordsDiffer(a, b, c);
  }

  lemma OneWay(fmt: Printer, a: Row, b: Row, c: Row)
    requires DistinctIds([a, b, c]) && Circle(Order(fmt, ByX()), a, b, c)
    ensures var less := Order(fmt, ByX()); !less(b, a) && !less(c, b) && !less(a, c)
  {
    BeforeDecides(fmt, ByX(), [a, b, c], {a, b, c});
  }

  lemma RecordsDiffer(a: Row, b: Row, c: Row)
    requires ResultKey(ByX(), a) != ResultKey(ByX(), b)
    ensures Records(ByX(), [a, b, c]) != Records(ByX(), [b, c, a])
  {
    assert Records(ByX(), [a, b, c])[0].key == ResultKey(ByX(), a);
    assert Records(ByX(), [b, c, a])[0].key == ResultKey(ByX(), b);
  }

  lemma ThreeSteps(fmt: Printer, path: PathPrinter, a: Row, b: Row, c: Row)
    requires var less := Order(fmt, ByX()); !less(b, a) && !less(c, b)
    ensures Answer(fmt, path, ByX(), [a, b, c]) == Ok(Records(ByX(), [a, b, c]))
  {
    assert Stepwise(Order(fmt, ByX()), [a, b, c]);
    SteppedIsAnswer(fmt, path, [a, b, c]);
  }

  lemma SteppedIsAnswer(fmt: Printer, path: PathPrinter, rows: seq<Row>)
    requires rows != [] && Stepwise(Order(fmt, ByX()), rows)
    ensures Answer(fmt, path, ByX(), rows) == Ok(Records(ByX(), rows))
  {
    KeepsAll(fmt, path, rows);
    SortLeavesSteps(rows, Order(fmt, ByX()));
  }

  lemma KeepsAll(fmt: Printer, path: PathPrinter, rows: seq<Row>)
    requires rows != []
    ensures Rejection(ByX()).None?
    ensures Picked(fmt, path, ByX(), rows) == SortBy(rows, Order(fmt, ByX()))
  {
    FilterAll(rows, Keeper(fmt, path, ByX()));
    var orderBy := ByX().orderBy;
    assert OrderError(orderBy[1..], Known(ByX().base)).None?;
  }

  lemma {:induction false} FilterDistinct<T(!new)>(rows: seq<T>, keep: T -> bool)
    requires Distinct(rows)
    ensures Distinct(Filter(rows, keep))
  {
    if rows != [] {
      assert forall i | 0 <= i < |rows[1..]| :: rows[1..][i] == rows[i + 1];
      FilterDistinct(rows[1..], keep);
      var rest := Filter(rows[1..], keep);
      forall i | 0 <= i < |rest|
        ensures rest[i] != rows[0]
      {
        assert rest[i] in rest;
        assert rest[i] in rows[1..];
      }
    }
  }

  lemma PickedIsFirst(fmt: Printer, path: PathPrinter, q: Query, rows: seq<Row>)
    ensures var kept := Filter(rows, Keeper(fmt, path, q));
            Picked(fmt, path, q, rows) == FirstOf(SortBy(kept, Order(fmt, q)), Places(q, |kept|))
  {
    SortIsPermutation(Filter(rows, Keeper(fmt, path, q)), Order(fmt, q));
  }

  lemma EnumerationAgrees(fmt: Printer, path: PathPrinter, q: Query, rows: seq<Row>, rows': seq<Row>)
    requires multiset(rows') == multiset(rows) && Distinct(rows) && DistinctIds(rows) && DistinctKeys(q, rows) && Rejection(q).None?
    requires var kept := Filter(rows, Keeper(fmt, path, q)); Decided(Order(fmt, q), Elements(kept), Places(q, |kept|))
    ensures Answer(fmt, path, q, rows') == Answer(fmt, path, q, rows)
  {
    var keep, less := Keeper(fmt, path, q), Order(fmt, q);
    var kept, kept' := Filter(rows, keep), Filter(rows', keep);
    var s := Elements(kept);
    FilterDistinct(rows, keep);
    FilterPermutation(rows, rows', keep);
    assert Lists(kept, s);
    SameLists(kept, kept', s);
    ListsCount(kept, s);
    ListsCount(kept', s);
    BeforeDecides(fmt, q, rows, s);
    SameFirst(less, kept, kept', s, Places(q, |kept|));
    PickedIsFirst(fmt, path, q, rows);
    PickedIsFirst(fmt, path, q, rows');
    AnswersAgreeIff(fmt, path, q, rows, rows');
  }

  /** Any listing of the kept rows comes from some enumeration of all. */
  lemma OtherEnumeration(fmt: Printer, path: PathPrinter, q: Query, rows: seq<Row>, p: seq<Row>)
    requires Distinct(rows) && DistinctKeys(q, rows) && Rejection(q).None?
    requires var kept := Filter(rows, Keeper(fmt, path, q));
             && Lists(p, Elements(kept))
             && FirstOf(SortBy(p, Order(fmt, q)), Places(q, |kept|)) != FirstOf(SortBy(kept, Order(fmt, q)), Places(q, |kept|))
    ensures exists rows' :: multiset(rows') == multiset(rows) && Answer(fmt, path, q, rows') != Answer(fmt, path, q, rows)
  {
    var keep, less := Keeper(fmt, path, q), Order(fmt, q);
    var kept := Filter(rows, keep);
    var n := Places(q, |kept|);
    var rows' := WholeEnumeration(rows, keep, p);
    ListsCount(p, Elements(kept));
    ListsCount(kept, Elements(kept));
    PickedIsFirst(fmt, path, q, rows);
    PickedIsFirst(fmt, path, q, rows');
    assert Picked(fmt, path, q, rows') == FirstOf(SortBy(p, less), n);
    AnswersAgreeIff(fmt, path, q, rows, rows');
  }

  lemma WholeEnumeration(rows: seq<Row>, keep: Row -> bool, p: seq<Row>) returns (rows': seq<Row>)
    requires Distinct(rows) && Lists(p, Elements(Filter(rows, keep)))
    ensures multiset(rows') == multiset(rows) && Filter(rows', keep) == p
    ensures Lists(Filter(rows, keep), Elements(Filter(rows, keep)))
  {
    var kept := Filter(rows, keep);
    var drop := (r: Row) => !keep(r);
    rows' := p + Filter(rows, drop);
    FilterDistinct(rows, keep);
    assert Lists(kept, Elements(kept));
    ListsPermute(p, kept, Elements(kept));
    FilterSplits(rows, keep, drop);
    FilterConcat(p, Filter(rows, drop), keep);
    FilterAll(p, keep);
    FilterNone(Filter(rows, drop), keep);
  }

  lemma {:induction false} FilterSplits<T(!new)>(rows: seq<T>, keep: T -> bool, drop: T -> bool)
    requires forall i | 0 <= i < |rows| :: drop(rows[i]) == !keep(rows[i])
    ensures multiset(Filter(rows, keep)) + multiset(Filter(rows, drop)) == multiset(rows)
  {
    if rows != [] {
      assert rows == [rows[0]] + rows[1..];
      assert forall i | 0 <= i < |rows[1..]| :: rows[1..][i] == rows[i + 1];
      FilterSplits(rows[1..], keep, drop);
      var a, b := multiset(Filter(rows[1..], keep)), multiset(Filter(rows[1..], drop));
      if keep(rows[0]) {
        assert Filter(rows, keep) == [rows[0]] + Filter(rows[1..], keep) && Filter(rows, drop) == Filter(rows[1..], drop);
        assert (multiset{rows[0]} + a) + b == multiset{rows[0]} + (a + b);
      } else {
        assert Filter(rows, drop) == [rows[0]] + Filter(rows[1..], drop) && Filter(rows, keep) == Filter(rows[1..], keep);
        assert a + (multiset{rows[0]} + b) == multiset{rows[0]} + (a + b);
      }
    }
  }

  lemma {:induction false} FilterAll<T(!new)>(rows: seq<T>, keep: T -> bool)
    requires forall r | r in rows :: keep(r)
    ensures Filter(rows, keep) == rows
  {
    if rows != [] {
      assert rows == [rows[0]] + rows[1..];
      FilterAll(rows[1..], keep);
    }
  }

  lemma {:induction false} FilterNone<T(!new)>(rows: seq<T>, keep: T -> bool)
    requires forall r | r in rows :: !keep(r)
    ensures Filter(rows, keep) == []
  {
    if rows != [] {
      assert rows == [rows[0]] + rows[1..];
      FilterNone(rows[1..], keep);
    }
  }

  // ---- Through an equality index -----------------------------------------------------

  /** loadCandidateRows: the strategy's rows when it has an opinion, else all. */
  ghost function Considered(schema: Schema, ix: seq<Indexing>, t: Table, where: Option<Cond>): seq<Row>
    requires |ix| == |schema.columns| && ValidTable(schema, t)
  {
    match AsEquality(where)
    case None => List(schema, t, t.Keys)
    case Some((field, constant)) =>
      match Candidates(schema, ix, t, Equality(field, constant))
      case None => List(schema, t, t.Keys)
      case Some(ids) => List(schema, t, ids * t.Keys)
  }

  /** Narrowing the rows before the query keeps the answer exactly when the query is
      not saved from rejection: an empty candidate list skips its validation. */
  lemma NarrowedAnswer(fmt: Printer, path: PathPrinter, q: Query, some: seq<Row>, all: seq<Row>)
    requires Filter(some, Keeper(fmt, path, q)) == Filter(all, Keeper(fmt, path, q))
    ensures Answer(fmt, path, q, some) == Answer(fmt, path, q, all) <==>
            (some == [] <==> all == []) || Rejection(q).None?
  {
    var a, b := Answer(fmt, path, q, some), Answer(fmt, path, q, all);
    if some != [] && all != [] {
      assert Picked(fmt, path, q, some) == Picked(fmt, path, q, all);
      assert a == b;
    } else if Rejection(q).None? {
      NothingPicked(fmt, path, q, some);
      NothingPicked(fmt, path, q, all);
      assert a == b;
    } else if some == [] && all == [] {
      assert a == b;
    } else {
      assert a.Ok? != b.Ok?;
    }
  }

  lemma NothingPicked(fmt: Printer, path: PathPrinter, q: Query, rows: seq<Row>)
    requires Filter(rows, Keeper(fmt, path, q)) == []
    ensures Rejection(q).None? ==> Answer(fmt, path, q, rows) == Ok([])
  {
    if Rejection(q).None? {
      assert forall i | 0 <= i < |q.columns| :: KnownColumn(q.columns[i], Known(q.base));
      assert Picked(fmt, path, q, rows) == [];
      assert Records(q, []) == [];
    }
  }

  /** A column whose strategy leaves every equality to the scan. */
  predicate NoOpinion(schema: Schema, ix: seq<Indexing>, i: nat)
    requires i < |ix| == |schema.columns|
  {
    !ix[i].external && schema.columns[i].elem == TAny
  }

  ghost predicate SomeCellEquals(t: Table, i: nat, constant: Value)
    requires forall id | id in t :: i < |t[id].row.cells|
  {
    exists id :: id in t && t[id].row.cells[i] == constant
  }

  /** The equality has an index that answers it rightly. */
  ghost predicate WellIndexed(schema: Schema, ix: seq<Indexing>, q: Query, i: nat) {
    && ValidSchema(schema) && |ix| == |schema.columns| && AsEquality(q.where).Some?
    && var (field, constant) := AsEquality(q.where).value;
       && !constant.Arr? && !constant.Obj?
       && FindColumn(schema.columns, field) == Some(i)
       && IndexScan.Safe(schema.columns[i], ix[i], constant)
  }

  lemma ConsideredIsEmptyIff(schema: Schema, ix: seq<Indexing>, t: Table, q: Query, i: nat)
    requires WellIndexed(schema, ix, q, i) && ValidTable(schema, t)
    ensures Considered(schema, ix, t, q.where) != [] <==>
            t != map[] && (NoOpinion(schema, ix, i) || SomeCellEquals(t, i, AsEquality(q.where).value.1))
  {
    var (field, constant) := AsEquality(q.where).value;
    var some := Considered(schema, ix, t, q.where);
    var c := Candidates(schema, ix, t, Equality(field, constant));
    var ids := if c.Some? then c.value * t.Keys else t.Keys;
    IndexScan.ListElements(schema, t, ids);
    assert some == List(schema, t, ids);
    if id :| id in ids {
      assert RowOf(schema, t, id) in some;
    }
    if some != [] {
      assert some[0] in some;
      assert some[0].id in ids && some[0].id in t;
    }
    if t != map[] {
      var id :| id in t;
      assert c.None? ==> id in ids;
    }
    if id :| id in t && t[id].row.cells[i] == constant && (ix[i].external || !ix[i].orphaned) {
      assert id in ids;
    }
    if c.Some? && !ix[i].external && ix[i].orphaned {
      NoCellHolds(schema, ix, t, q, i);
    }
  }

  /** A safe equality on an abandoned column asks for what no cell can hold. */
  lemma NoCellHolds(schema: Schema, ix: seq<Indexing>, t: Table, q: Query, i: nat)
    requires WellIndexed(schema, ix, q, i) && ValidTable(schema, t) && !NoOpinion(schema, ix, i) && !ix[i].external && ix[i].orphaned
    ensures !SomeCellEquals(t, i, AsEquality(q.where).value.1)
  {
    var constant := AsEquality(q.where).value.1;
    forall id | id in t
      ensures t[id].row.cells[i] != constant
    {
      if t[id].row.cells[i] == constant {
        IndexScan.HeldIsRepresentable(schema.columns[i].elem, constant, constant);
        assert false;
      }
    }
  }

  /** A query through the index answers like a full scan if and only if a query that a
      scan would reject still finds a row: one whose cell equals the constant. */
  lemma IndexedAnswerIff(fmt: Printer, path: PathPrinter, schema: Schema, ix: seq<Indexing>, t: Table, q: Query, i: nat)
    requires WellIndexed(schema, ix, q, i) && ValidTable(schema, t)
    ensures Answer(fmt, path, q, Considered(schema, ix, t, q.where)) == Answer(fmt, path, q, List(schema, t, t.Keys)) <==>
            || t == map[] || Rejection(q).None?
            || NoOpinion(schema, ix, i) || SomeCellEquals(t, i, AsEquality(q.where).value.1)
  {
    ConsideredIsEmptyIff(schema, ix, t, q, i);
    IndexedAnswerBy(fmt, path, schema, ix, t, q, i);
  }

  const N_COLUMN := Schema(true, [ColumnSpec("n", TInt)])

  const ONE_ROW: Table := map["a" := Stored(Decoded([Int(1)], map[]), Key("t", Str("a"), None))]

  /** n = 2, in the order of a source that is not there. */
  const ASK_FOR_TWO := Query(RecordsetSource("t", ""), None, Some(Comparison(Equal, FieldRef("", "n"), Constant(Int(2)))),
                             [OrderKey(FieldRef("u", "x"), false)], 0, [], true)

  /** The index finds no row with n = 2, so nothing looks at the ORDER BY a scan rejects. */
  lemma EmptyCandidatesSkipValidation(fmt: Printer, path: PathPrinter)
    ensures ValidTable(N_COLUMN, ONE_ROW)
    ensures Answer(fmt, path, ASK_FOR_TWO, Considered(N_COLUMN, [Indexing(false, false)], ONE_ROW, ASK_FOR_TWO.where)) == Ok([])
    ensures Answer(fmt, path, ASK_FOR_TWO, List(N_COLUMN, ONE_ROW, ONE_ROW.Keys)) == Err(UnknownSource("x"))
  {
    NothingSelected();
    IndexScan.ListElements(N_COLUMN, ONE_ROW, ONE_ROW.Keys);
    assert RowOf(N_COLUMN, ONE_ROW, "a") in List(N_COLUMN, ONE_ROW, ONE_ROW.Keys);
    assert Rejection(ASK_FOR_TWO) == Some(UnknownSource("x")) by {
      assert Known(ASK_FOR_TWO.base) == {"", "t"};
    }
  }

  lemma NothingSelected()
    ensures ValidTable(N_COLUMN, ONE_ROW)
    ensures Considered(N_COLUMN, [Indexing(false, false)], ONE_ROW, ASK_FOR_TWO.where) == []
  {
    assert FindColumn(N_COLUMN.columns, "n") == Some(0);
    assert (set id | id in ONE_ROW && ONE_ROW[id].row.cells[0] == Int(2)) == {};
    assert Selected(N_COLUMN, Indexing(false, false), ONE_ROW, 0, Int(2)) == Some({});
  }

  lemma IndexedAnswerBy(fmt: Printer, path: PathPrinter, schema: Schema, ix: seq<Indexing>, t: Table, q: Query, i: nat)
    requires WellIndexed(schema, ix, q, i) && ValidTable(schema, t)
    ensures Answer(fmt, path, q, Considered(schema, ix, t, q.where)) == Answer(fmt, path, q, List(schema, t, t.Keys)) <==>
            Considered(schema, ix, t, q.where) != [] || t == map[] || Rejection(q).None?
  {
    var (field, constant) := AsEquality(q.where).value;
    var eq := Equality(field, constant);
    var all, some := List(schema, t, t.Keys), Considered(schema, ix, t, q.where);
    var matches := (r: Row) => MatchesCond(fmt, r.data, IndexScan.Condition(eq));
    var keep := Keeper(fmt, path, q);
    IndexScan.SafeAgrees(fmt, schema, ix, t, i, eq);
    if Candidates(schema, ix, t, eq).Some? {
      assert Candidates(schema, ix, t, eq).value * t.Keys == Candidates(schema, ix, t, eq).value;
    }
    assert Filter(some, matches) == Filter(all, matches);
    FilterTwice(some, matches, keep);
    FilterTwice(all, matches, keep);
    assert all == [] <==> t == map[] by {
      IndexScan.ListElements(schema, t, t.Keys);
      if id :| id in t { assert RowOf(schema, t, id) in all; }
    }
    if some != [] {
      SomeImplyAll(schema, t, some, ix, q.where);
    }
    NarrowedAnswer(fmt, path, q, some, all);
  }

  lemma SomeImplyAll(schema: Schema, t: Table, some: seq<Row>, ix: seq<Indexing>, where: Option<Cond>)
    requires |ix| == |schema.columns| && ValidTable(schema, t) && some == Considered(schema, ix, t, where) && some != []
    ensures t != map[]
  {
    IndexScan.ListElements(schema, t, t.Keys);
    if AsEquality(where).Some? {
      var (field, constant) := AsEquality(where).value;
      var c := Candidates(schema, ix, t, Equality(field, constant));
      if c.Some? { IndexScan.ListElements(schema, t, c.value * t.Keys); }
    }
    assert some[0] in some;
  }

  /** Filtering by more than a condition sees through filtering by it first. */
  lemma {:induction false} FilterTwice(s: seq<Row>, first: Row -> bool, keep: Row -> bool)
    requires forall r | keep(r) :: first(r)
    ensures Filter(Filter(s, first), keep) == Filter(s, keep)
  {
    if s != [] {
      FilterTwice(s[1..], first, keep);
      FilterConcat(if first(s[0]) then [s[0]] else [], Filter(s[1..], first), keep);
    }
  }
}
