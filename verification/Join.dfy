/** Queries over one INNER or LEFT equi-join of two collections. */
module Join {
  import opened Ordering
  import opened Values
  import opened Where
  import opened T = Table
  import opened Resolving
  import Query

  datatype JoinKind = Inner | Left | Other

  datatype JoinSpec = JoinSpec(kind: JoinKind, source: RecordsetSource, on: seq<Cond>)

  /** The two source names and what may be qualified. */
  datatype Names = Names(base: string, join: string)

  function Known(n: Names): set<string> {
    {"", n.base, n.join}
  }

  /** One result row. */
  datatype JoinedRow = JoinedRow(baseId: string, sources: Sources, merged: Fields)

  /** Later entries win, as in the map literal the sources are built from. */
  function SourcesFor(n: Names, base: Fields, join: Fields): Sources {
    map["" := base][n.base := base][n.join := join]
  }

  /** mergeData: the joined row's fields shadow the base row's. */
  function Pair(n: Names, br: Row, jr: Row): JoinedRow {
    JoinedRow(br.id, SourcesFor(n, br.data, jr.data), br.data + jr.data)
  }

  function Pad(n: Names, br: Row): JoinedRow {
    JoinedRow(br.id, SourcesFor(n, br.data, map[]), br.data)
  }

  /** matchesJoinCondition: only a single equality is evaluated. */
  function MatchesJoin(cond: Option<Cond>, sources: Sources, known: set<string>): Result<bool, QueryError> {
    match cond
    case None => Ok(true)
    case Some(Comparison(Equal, left, right)) => (
      match Resolve(left, sources, known)
      case Err(e) => Err(e)
      case Ok(l) =>
        match Resolve(right, sources, known)
        case Err(e) => Err(e)
        case Ok(r) => Ok(l.present && r.present && ValuesEqual(l.value, r.value)))
    case Some(_) => Ok(false)
  }

  /** The condition can be evaluated: true of every row or of none. */
  predicate Evaluable(cond: Option<Cond>, known: set<string>) {
    cond.Some? && cond.value.Comparison? && cond.value.op == Equal ==>
      Resolvable(cond.value.left, known) && Resolvable(cond.value.right, known)
  }

  /** allConditionsMatch: the first condition that fails or does not hold decides. */
  function AllMatch(conds: seq<Cond>, sources: Sources, known: set<string>): Result<bool, QueryError> {
    if conds == [] then Ok(true)
    else
      match MatchesJoin(Some(conds[0]), sources, known)
      case Err(e) => Err(e)
      case Ok(false) => Ok(false)
      case Ok(true) => AllMatch(conds[1..], sources, known)
  }

  method AllConditionsMatch(conds: seq<Cond>, sources: Sources, known: set<string>) returns (r: Result<bool, QueryError>)
    ensures r == AllMatch(conds, sources, known)
  {
    for i := 0 to |conds|
      invariant AllMatch(conds, sources, known) == AllMatch(conds[i..], sources, known)
    {
      var ok := MatchesJoin(Some(conds[i]), sources, known);
      match ok {
        case Err(e) => return Err(e);
        case Ok(holds) =>
          if !holds {
            return Ok(false);
          }
      }
    }
    r := Ok(true);
  }

  // ---- The nested loop --------------------------------------------------------------

  /** One base row against the first rows of the other side. */
  function Partners(n: Names, on: seq<Cond>, br: Row, joinRows: seq<Row>): Result<seq<JoinedRow>, QueryError> {
    if joinRows == [] then Ok([])
    else
      var m := |joinRows| - 1;
      match Partners(n, on, br, joinRows[..m])
      case Err(e) => Err(e)
      case Ok(rows) =>
        match AllMatch(on, SourcesFor(n, br.data, joinRows[m].data), Known(n))
        case Err(e) => Err(e)
        case Ok(holds) => Ok(if holds then rows + [Pair(n, br, joinRows[m])] else rows)
  }

  /** All the result rows of one base row. */
  function Joined(n: Names, left: bool, on: seq<Cond>, br: Row, joinRows: seq<Row>): Result<seq<JoinedRow>, QueryError> {
    match Partners(n, on, br, joinRows)
    case Err(e) => Err(e)
    case Ok(rows) => Ok(if rows == [] && left then [Pad(n, br)] else rows)
  }

  function Combined(n: Names, left: bool, on: seq<Cond>, baseRows: seq<Row>, joinRows: seq<Row>): Result<seq<JoinedRow>, QueryError> {
    if baseRows == [] then Ok([])
    else
      var m := |baseRows| - 1;
      match Combined(n, left, on, baseRows[..m], joinRows)
      case Err(e) => Err(e)
      case Ok(rows) =>
        match Joined(n, left, on, baseRows[m], joinRows)
        case Err(e) => Err(e)
        case Ok(more) => Ok(rows + more)
  }

  lemma {:induction false} PartnersStop(n: Names, on: seq<Cond>, br: Row, joinRows: seq<Row>, i: nat)
    requires i <= |joinRows| && Partners(n, on, br, joinRows[..i]).Err?
    ensures Partners(n, on, br, joinRows) == Partners(n, on, br, joinRows[..i])
    decreases |joinRows|
  {
    if i == |joinRows| {
      assert joinRows[..i] == joinRows;
    } else {
      var m := |joinRows| - 1;
      assert joinRows[..m][..i] == joinRows[..i];
      PartnersStop(n, on, br, joinRows[..m], i);
    }
  }

  lemma {:induction false} CombinedStop(n: Names, left: bool, on: seq<Cond>, baseRows: seq<Row>, joinRows: seq<Row>, i: nat)
    requires i <= |baseRows| && Combined(n, left, on, baseRows[..i], joinRows).Err?
    ensures Combined(n, left, on, baseRows, joinRows) == Combined(n, left, on, baseRows[..i], joinRows)
    decreases |baseRows|
  {
    if i == |baseRows| {
      assert baseRows[..i] == baseRows;
    } else {
      var m := |baseRows| - 1;
      assert baseRows[..m][..i] == baseRows[..i];
      CombinedStop(n, left, on, baseRows[..m], joinRows, i);
    }
  }

  method JoinRow(n: Names, left: bool, on: seq<Cond>, br: Row, joinRows: seq<Row>) returns (r: Result<seq<JoinedRow>, QueryError>)
    ensures r == Joined(n, left, on, br, joinRows)
  {
    var rows: seq<JoinedRow> := [];
    var matched := false;
    for j := 0 to |joinRows|
      invariant Partners(n, on, br, joinRows[..j]) == Ok(rows)
      invariant matched == (rows != [])
    {
      var sources := SourcesFor(n, br.data, joinRows[j].data);
      var ok := AllConditionsMatch(on, sources, Known(n));
      assert joinRows[..j + 1][..j] == joinRows[..j];
      match ok {
        case Err(e) =>
          PartnersStop(n, on, br, joinRows, j + 1);
          return Err(e);
        case Ok(holds) =>
          if holds {
            rows := rows + [JoinedRow(br.id, sources, br.data + joinRows[j].data)];
            matched := true;
          }
      }
    }
    assert joinRows[..|joinRows|] == joinRows;
    if !matched && left {
      rows := [Pad(n, br)];
    }
    r := Ok(rows);
  }

  method NestedLoop(n: Names, left: bool, on: seq<Cond>, baseRows: seq<Row>, joinRows: seq<Row>)
      returns (r: Result<seq<JoinedRow>, QueryError>)
    ensures r == Combined(n, left, on, baseRows, joinRows)
  {
    var combined: seq<JoinedRow> := [];
    for i := 0 to |baseRows|
      invariant Combined(n, left, on, baseRows[..i], joinRows) == Ok(combined)
    {
      var more := JoinRow(n, left, on, baseRows[i], joinRows);
      assert baseRows[..i + 1][..i] == baseRows[..i];
      match more {
        case Err(e) =>
          CombinedStop(n, left, on, baseRows, joinRows, i + 1);
          return Err(e);
        case Ok(rows) =>
          combined := combined + rows;
      }
    }
    assert baseRows[..|baseRows|] == baseRows;
    r := Ok(combined);
  }

  /** WHERE over the combined rows. */
  function Kept(where: Option<Cond>, known: set<string>, rows: seq<JoinedRow>): Result<seq<JoinedRow>, QueryError> {
    if rows == [] then Ok([])
    else
      var m := |rows| - 1;
      match Kept(where, known, rows[..m])
      case Err(e) => Err(e)
      case Ok(kept) =>
        match MatchesJoin(where, rows[m].sources, known)
        case Err(e) => Err(e)
        case Ok(holds) => Ok(if holds then kept + [rows[m]] else kept)
  }

  lemma {:induction false} KeptStop(where: Option<Cond>, known: set<string>, rows: seq<JoinedRow>, i: nat)
    requires i <= |rows| && Kept(where, known, rows[..i]).Err?
    ensures Kept(where, known, rows) == Kept(where, known, rows[..i])
    decreases |rows|
  {
    if i == |rows| {
      assert rows[..i] == rows;
    } else {
      var m := |rows| - 1;
      assert rows[..m][..i] == rows[..i];
      KeptStop(where, known, rows[..m], i);
    }
  }

  method FilterJoined(where: Option<Cond>, known: set<string>, rows: seq<JoinedRow>) returns (r: Result<seq<JoinedRow>, QueryError>)
    ensures r == Kept(where, known, rows)
  {
    var kept: seq<JoinedRow> := [];
    for i := 0 to |rows|
      invariant Kept(where, known, rows[..i]) == Ok(kept)
    {
      var ok := MatchesJoin(where, rows[i].sources, known);
      assert rows[..i + 1][..i] == rows[..i];
      match ok {
        case Err(e) =>
          KeptStop(where, known, rows, i + 1);
          return Err(e);
        case Ok(holds) =>
          if holds {
            kept := kept + [rows[i]];
          }
      }
    }
    assert rows[..|rows|] == rows;
    r := Ok(kept);
  }

  /** The rows of a join query before ORDER BY: both sides by ascending id, joined,
      filtered. */
  function JoinRows(n: Names, left: bool, on: seq<Cond>, where: Option<Cond>, baseRows: seq<Row>, joinRows: seq<Row>): Result<seq<JoinedRow>, QueryError> {
    match Combined(n, left, on, SortBy(baseRows, ById), SortBy(joinRows, ById))
    case Err(e) => Err(e)
    case Ok(rows) => Kept(where, Known(n), rows)
  }

  predicate ById(a: Row, b: Row) {
    StrLess(a.id, b.id)
  }

  method ExecuteJoin(n: Names, left: bool, on: seq<Cond>, where: Option<Cond>, baseRows: seq<Row>, joinRows: seq<Row>)
      returns (r: Result<seq<JoinedRow>, QueryError>)
    ensures r == JoinRows(n, left, on, where, baseRows, joinRows)
  {
    var bs, js := SortBy(baseRows, ById), SortBy(joinRows, ById);
    var combined := NestedLoop(n, left, on, bs, js);
    match combined {
      case Err(e) => r := Err(e);
      case Ok(rows) => r := FilterJoined(where, Known(n), rows);
    }
  }

  // ---- The whole query ------------------------------------------------------------------

  datatype JoinQuery = JoinQuery(
    base: RecordsetSource,
    joins: seq<JoinSpec>,
    where: Option<Cond>,
    orderBy: seq<OrderKey>,
    limit: int,
    columns: seq<Column>,
    withData: bool)

  function NamesOf(q: JoinQuery): Names
    requires |q.joins| == 1
  {
    Names(SourceKey(q.base), SourceKey(q.joins[0].source))
  }

  /** What a join query is rejected for, before any row is read. */
  function Rejected(q: JoinQuery): Option<QueryError> {
    if |q.joins| != 1 then Some(JoinCount(|q.joins|))
    else if q.joins[0].kind == Other then Some(UnsupportedJoin)
    else
      var err := OrderError(q.orderBy, Known(NamesOf(q)));
      if err.Some? then err else Query.ColumnError(q.columns, Known(NamesOf(q)), 0)
  }

  function JoinedOrder(fmt: Printer, q: JoinQuery): (JoinedRow, JoinedRow) -> bool {
    (a: JoinedRow, b: JoinedRow) => Precedes(fmt, q.orderBy, Sortable(a.baseId, a.sources), Sortable(b.baseId, b.sources))
  }

  function OutData(q: JoinQuery, r: JoinedRow): Option<Fields>
    requires forall i | 0 <= i < |q.columns| :: q.columns[i].expr.FieldRef?
  {
    if q.columns != [] then Some(Query.Project(q.columns, r.sources))
    else if q.withData then Some(r.merged)
    else None
  }

  function Outs(q: JoinQuery, rows: seq<JoinedRow>): seq<Query.Record>
    requires forall i | 0 <= i < |q.columns| :: q.columns[i].expr.FieldRef?
  {
    seq(|rows|, i requires 0 <= i < |rows| => Query.Record(Key(q.base.name, Str(rows[i].baseId), None), OutData(q, rows[i])))
  }

  function JoinAnswer(fmt: Printer, q: JoinQuery, baseRows: seq<Row>, joinRows: seq<Row>): Result<seq<Query.Record>, QueryError> {
    if Rejected(q).Some? then Err(Rejected(q).value)
    else
      match JoinRows(NamesOf(q), q.joins[0].kind == Left, q.joins[0].on, q.where, baseRows, joinRows)
      case Err(e) => Err(e)
      case Ok(rows) =>
        assert forall i | 0 <= i < |q.columns| :: Query.KnownColumn(q.columns[i], Known(NamesOf(q)));
        Ok(Outs(q, Query.Limited(SortBy(rows, JoinedOrder(fmt, q)), q.limit)))
  }

  method BuildOuts(q: JoinQuery, rows: seq<JoinedRow>) returns (out: seq<Query.Record>)
    requires forall i | 0 <= i < |q.columns| :: q.columns[i].expr.FieldRef?
    ensures out == Outs(q, rows)
  {
    out := [];
    for i := 0 to |rows|
      invariant out == Outs(q, rows[..i])
    {
      var key := Key(q.base.name, Str(rows[i].baseId), None);
      var data := None;
      if |q.columns| > 0 {
        var projected := Query.ProjectRow(q.columns, rows[i].sources);
        data := Some(projected);
      } else if q.withData {
        data := Some(rows[i].merged);
      }
      out := out + [Query.Record(key, data)];
    }
    assert rows[..|rows|] == rows;
  }

  method ExecuteJoinQuery(fmt: Printer, q: JoinQuery, baseRows: seq<Row>, joinRows: seq<Row>)
      returns (r: Result<seq<Query.Record>, QueryError>)
    ensures r == JoinAnswer(fmt, q, baseRows, joinRows)
  {
    if |q.joins| != 1 {
      return Err(JoinCount(|q.joins|));
    }
    var join := q.joins[0];
    if join.kind == Other {
      return Err(UnsupportedJoin);
    }
    var n := Names(SourceKey(q.base), SourceKey(join.source));
    var err := ValidateOrderSources(q.orderBy, Known(n));
    if err.Some? {
      return Err(err.value);
    }
    err := Query.ValidateColumns(q.columns, Known(n));
    if err.Some? {
      return Err(err.value);
    }
    var rows := ExecuteJoin(n, join.kind == Left, join.on, q.where, baseRows, joinRows);
    match rows {
      case Err(e) => r := Err(e);
      case Ok(filtered) =>
        var sorted := OrderBySources(fmt, filtered, q.orderBy, (row: JoinedRow) => Sortable(row.baseId, row.sources), JoinedOrder(fmt, q));
        if 0 < q.limit < |sorted| {
          sorted := sorted[..q.limit];
        }
        assert forall i | 0 <= i < |q.columns| :: Query.KnownColumn(q.columns[i], Known(n));
        var out := BuildOuts(q, sorted);
        r := Ok(out);
    }
  }

  // ---- The result is a function of the two row sets ------------------------------------

  ghost predicate DistinctIds(rows: seq<Row>) {
    forall a, b | a in rows && b in rows && a.id == b.id :: a == b
  }

  lemma ByIdIsTotal(rows: seq<Row>)
    requires DistinctIds(rows)
    ensures TotalOn(ById, rows)
  {
    forall a: Row, b: Row
      ensures !ById(a, a) && !(ById(a, b) && ById(b, a))
      ensures ById(a, b) || ById(b, a) || a.id == b.id
    {
      StrLessTotal(a.id, b.id);
    }
    forall a: Row, b: Row, c: Row | ById(a, b) && ById(b, c)
      ensures ById(a, c)
    {
      StrLessTransitive(a.id, b.id, c.id);
    }
  }

  /** Whatever order the engines enumerate their rows in, the join is the same
      sequence. */
  lemma JoinForgetsOrder(n: Names, left: bool, on: seq<Cond>, where: Option<Cond>,
                         baseRows: seq<Row>, joinRows: seq<Row>, baseRows': seq<Row>, joinRows': seq<Row>)
    requires multiset(baseRows) == multiset(baseRows') && DistinctIds(baseRows)
    requires multiset(joinRows) == multiset(joinRows') && DistinctIds(joinRows)
    ensures JoinRows(n, left, on, where, baseRows, joinRows) == JoinRows(n, left, on, where, baseRows', joinRows')
  {
    ByIdIsTotal(baseRows);
    ByIdIsTotal(joinRows);
    SortForgetsOrder(baseRows, baseRows', ById);
    SortForgetsOrder(joinRows, joinRows', ById);
  }

  /** The whole answer of a join query is a function of the two row sets, even when
      ORDER BY leaves ties or the columns mix types. */
  lemma JoinAnswerForgetsOrder(fmt: Printer, q: JoinQuery, baseRows: seq<Row>, joinRows: seq<Row>, baseRows': seq<Row>, joinRows': seq<Row>)
    requires multiset(baseRows) == multiset(baseRows') && DistinctIds(baseRows)
    requires multiset(joinRows) == multiset(joinRows') && DistinctIds(joinRows)
    ensures JoinAnswer(fmt, q, baseRows, joinRows) == JoinAnswer(fmt, q, baseRows', joinRows')
  {
    if Rejected(q).None? {
      JoinForgetsOrder(NamesOf(q), q.joins[0].kind == Left, q.joins[0].on, q.where, baseRows, joinRows, baseRows', joinRows');
    }
  }

  // ---- LEFT against INNER -----------------------------------------------------------------

  /** The base rows no row of the other side matches. */
  predicate Unmatched(n: Names, on: seq<Cond>, br: Row, joinRows: seq<Row>) {
    Partners(n, on, br, joinRows) == Ok([])
  }

  function Pads(n: Names, on: seq<Cond>, baseRows: seq<Row>, joinRows: seq<Row>): seq<JoinedRow> {
    if baseRows == [] then []
    else
      var m := |baseRows| - 1;
      Pads(n, on, baseRows[..m], joinRows) + if Unmatched(n, on, baseRows[m], joinRows) then [Pad(n, baseRows[m])] else []
  }

  /** A LEFT join is the INNER join plus exactly one padded row per unmatched base
      row, and fails exactly when the INNER join does, with the same error. */
  lemma {:induction false} LeftIsInnerPlusPads(n: Names, on: seq<Cond>, baseRows: seq<Row>, joinRows: seq<Row>)
    ensures Combined(n, true, on, baseRows, joinRows).Err? <==> Combined(n, false, on, baseRows, joinRows).Err?
    ensures Combined(n, true, on, baseRows, joinRows).Err? ==>
              Combined(n, true, on, baseRows, joinRows) == Combined(n, false, on, baseRows, joinRows)
    ensures Combined(n, true, on, baseRows, joinRows).Ok? ==>
              multiset(Combined(n, true, on, baseRows, joinRows).value) ==
              multiset(Combined(n, false, on, baseRows, joinRows).value) + multiset(Pads(n, on, baseRows, joinRows))
  {
    if baseRows != [] {
      var m := |baseRows| - 1;
      LeftIsInnerPlusPads(n, on, baseRows[..m], joinRows);
    }
  }

  /** A partner's row carries its base row's id. */
  lemma {:induction false} PartnersCarryId(n: Names, on: seq<Cond>, br: Row, joinRows: seq<Row>)
    requires Partners(n, on, br, joinRows).Ok?
    ensures forall r | r in Partners(n, on, br, joinRows).value :: r.baseId == br.id
  {
    if joinRows != [] {
      PartnersCarryId(n, on, br, joinRows[..|joinRows| - 1]);
    }
  }

  ghost predicate HasRow(rows: seq<JoinedRow>, id: string) {
    exists i :: 0 <= i < |rows| && rows[i].baseId == id
  }

  ghost predicate HasBase(rows: seq<Row>, id: string) {
    exists i :: 0 <= i < |rows| && rows[i].id == id
  }

  lemma HasRowConcat(a: seq<JoinedRow>, b: seq<JoinedRow>, id: string)
    ensures HasRow(a + b, id) <==> HasRow(a, id) || HasRow(b, id)
  {
    if i :| 0 <= i < |a| && a[i].baseId == id {
      assert (a + b)[i].baseId == id;
    }
    if i :| 0 <= i < |b| && b[i].baseId == id {
      assert (a + b)[|a| + i].baseId == id;
    }
  }

  lemma HasBaseSnoc(rows: seq<Row>, id: string)
    requires rows != []
    ensures HasBase(rows, id) <==> HasBase(rows[..|rows| - 1], id) || rows[|rows| - 1].id == id
  {
    var m := |rows| - 1;
    if i :| 0 <= i < m && rows[..m][i].id == id {
      assert rows[i].id == id;
    }
    if i :| 0 <= i < |rows| && rows[i].id == id && i < m {
      assert rows[..m][i].id == id;
    }
  }

  /** Every base row occurs in a LEFT join, and nothing else does. */
  lemma {:induction false} LeftKeepsEveryBase(n: Names, on: seq<Cond>, baseRows: seq<Row>, joinRows: seq<Row>, id: string)
    requires Combined(n, true, on, baseRows, joinRows).Ok?
    ensures HasRow(Combined(n, true, on, baseRows, joinRows).value, id) <==> HasBase(baseRows, id)
  {
    if baseRows != [] {
      var m := |baseRows| - 1;
      LeftKeepsEveryBase(n, on, baseRows[..m], joinRows, id);
      PartnersCarryId(n, on, baseRows[m], joinRows);
      var more := Joined(n, true, on, baseRows[m], joinRows).value;
      assert more[0] in more && forall i | 0 <= i < |more| :: more[i] in more && more[i].baseId == baseRows[m].id;
      assert HasRow(more, baseRows[m].id);
      HasRowConcat(Combined(n, true, on, baseRows[..m], joinRows).value, more, id);
      HasBaseSnoc(baseRows, id);
    }
  }

  // ---- WHERE and the join ------------------------------------------------------------------

  /** Keeping rows by a condition that can be evaluated is a plain filter. */
  predicate Holds(where: Option<Cond>, known: set<string>, r: JoinedRow) {
    MatchesJoin(where, r.sources, known) == Ok(true)
  }

  function Holder(where: Option<Cond>, known: set<string>): JoinedRow -> bool {
    (r: JoinedRow) => Holds(where, known, r)
  }

  lemma {:induction false} KeptIsFilter(where: Option<Cond>, known: set<string>, rows: seq<JoinedRow>)
    requires Evaluable(where, known)
    ensures Kept(where, known, rows) == Ok(Filter(rows, Holder(where, known)))
  {
    if rows != [] {
      var m := |rows| - 1;
      KeptIsFilter(where, known, rows[..m]);
      assert rows == rows[..m] + [rows[m]];
      FilterSnoc(rows[..m], rows[m], Holder(where, known));
    }
  }

  /** The condition looks at the joined source. */
  predicate NamesJoinSide(where: Option<Cond>, n: Names) {
    && where.Some? && where.value.Comparison? && where.value.op == Equal
    && ((where.value.left.FieldRef? && where.value.left.source == n.join)
        || (where.value.right.FieldRef? && where.value.right.source == n.join))
  }

  /** A WHERE equality on a field of the joined source drops every padded row: under
      it LEFT and INNER return the same rows. */
  lemma {:induction false} WhereOnJoinSideIsInner(n: Names, on: seq<Cond>, where: Option<Cond>, baseRows: seq<Row>, joinRows: seq<Row>)
    requires Evaluable(where, Known(n)) && NamesJoinSide(where, n)
    requires Combined(n, false, on, baseRows, joinRows).Ok?
    ensures Combined(n, true, on, baseRows, joinRows).Ok?
    ensures Kept(where, Known(n), Combined(n, true, on, baseRows, joinRows).value) ==
            Kept(where, Known(n), Combined(n, false, on, baseRows, joinRows).value)
  {
    var keep := Holder(where, Known(n));
    LeftIsInnerPlusPads(n, on, baseRows, joinRows);
    var left, inner := Combined(n, true, on, baseRows, joinRows).value, Combined(n, false, on, baseRows, joinRows).value;
    KeptIsFilter(where, Known(n), left);
    KeptIsFilter(where, Known(n), inner);
    if baseRows != [] {
      var m := |baseRows| - 1;
      WhereOnJoinSideIsInner(n, on, where, baseRows[..m], joinRows);
      var l, i := Combined(n, true, on, baseRows[..m], joinRows).value, Combined(n, false, on, baseRows[..m], joinRows).value;
      KeptIsFilter(where, Known(n), l);
      KeptIsFilter(where, Known(n), i);
      FilterConcat(l, Joined(n, true, on, baseRows[m], joinRows).value, keep);
      FilterConcat(i, Joined(n, false, on, baseRows[m], joinRows).value, keep);
      assert !keep(Pad(n, baseRows[m]));
      assert Filter([Pad(n, baseRows[m])], keep) == [];
    }
  }

  /** The condition looks at base fields and constants only. */
  predicate BaseOperand(e: Expr, n: Names) {
    e.Constant? || (e.FieldRef? && e.source in {"", n.base} && e.source != n.join)
  }

  predicate BaseOnly(where: Option<Cond>, n: Names) {
    where.Some? && where.value.Comparison? && where.value.op == Equal ==>
      BaseOperand(where.value.left, n) && BaseOperand(where.value.right, n)
  }

  /** WHERE asked of a base row before any join. */
  predicate HoldsOnBase(where: Option<Cond>, n: Names, br: Row) {
    Holds(where, Known(n), Pad(n, br))
  }

  lemma BaseOnlySeesBase(where: Option<Cond>, n: Names, br: Row, join: Fields)
    requires BaseOnly(where, n)
    ensures MatchesJoin(where, SourcesFor(n, br.data, join), Known(n)) == MatchesJoin(where, SourcesFor(n, br.data, map[]), Known(n))
    ensures Evaluable(where, Known(n))
  {
    assert forall source | source in {"", n.base} && source != n.join ::
             RowOfSource(SourcesFor(n, br.data, join), source) == br.data == RowOfSource(SourcesFor(n, br.data, map[]), source);
  }

  lemma {:induction false} BaseOnlyKeepsAllOrNone(where: Option<Cond>, n: Names, left: bool, on: seq<Cond>, br: Row, joinRows: seq<Row>)
    requires BaseOnly(where, n) && Partners(n, on, br, joinRows).Ok?
    ensures forall r | r in Partners(n, on, br, joinRows).value :: Holds(where, Known(n), r) == HoldsOnBase(where, n, br)
  {
    if joinRows != [] {
      var m := |joinRows| - 1;
      BaseOnlyKeepsAllOrNone(where, n, left, on, br, joinRows[..m]);
      BaseOnlySeesBase(where, n, br, joinRows[m].data);
    }
  }

  lemma {:induction false} FilterUniform(rows: seq<JoinedRow>, keep: JoinedRow -> bool, all: bool)
    requires forall r | r in rows :: keep(r) == all
    ensures Filter(rows, keep) == if all then rows else []
  {
    if rows != [] {
      FilterUniform(rows[1..], keep, all);
    }
  }

  function BaseHolder(where: Option<Cond>, n: Names): Row -> bool {
    (br: Row) => HoldsOnBase(where, n, br)
  }

  /** WHERE keeps all of a base row's result rows, or none. */
  lemma KeptOfOne(n: Names, left: bool, on: seq<Cond>, where: Option<Cond>, before: seq<JoinedRow>, br: Row, joinRows: seq<Row>)
    requires BaseOnly(where, n) && Joined(n, left, on, br, joinRows).Ok?
    ensures Evaluable(where, Known(n))
    ensures var more := Joined(n, left, on, br, joinRows).value;
            Kept(where, Known(n), before).Ok? &&
            Kept(where, Known(n), before + more) ==
            if HoldsOnBase(where, n, br) then Ok(Kept(where, Known(n), before).value + more) else Kept(where, Known(n), before)
  {
    var keep := Holder(where, Known(n));
    var more := Joined(n, left, on, br, joinRows).value;
    BaseOnlySeesBase(where, n, br, map[]);
    KeptIsFilter(where, Known(n), before);
    KeptIsFilter(where, Known(n), before + more);
    FilterConcat(before, more, keep);
    BaseOnlyKeepsAllOrNone(where, n, left, on, br, joinRows);
    FilterUniform(more, keep, HoldsOnBase(where, n, br));
    assert Filter(before, keep) + [] == Filter(before, keep);
  }

  lemma CombinedSnoc(n: Names, left: bool, on: seq<Cond>, baseRows: seq<Row>, br: Row, joinRows: seq<Row>)
    requires Combined(n, left, on, baseRows, joinRows).Ok? && Joined(n, left, on, br, joinRows).Ok?
    ensures Combined(n, left, on, baseRows + [br], joinRows) ==
            Ok(Combined(n, left, on, baseRows, joinRows).value + Joined(n, left, on, br, joinRows).value)
  {
    assert (baseRows + [br])[..|baseRows|] == baseRows;
  }

  /** A WHERE equality over base fields can be pushed below the join. */
  lemma {:induction false} WherePushesDown(n: Names, left: bool, on: seq<Cond>, where: Option<Cond>, baseRows: seq<Row>, joinRows: seq<Row>)
    requires BaseOnly(where, n) && Combined(n, left, on, baseRows, joinRows).Ok?
    ensures Kept(where, Known(n), Combined(n, left, on, baseRows, joinRows).value) ==
            Combined(n, left, on, Filter(baseRows, BaseHolder(where, n)), joinRows)
  {
    if baseRows != [] {
      var m := |baseRows| - 1;
      var br := baseRows[m];
      WherePushesDown(n, left, on, where, baseRows[..m], joinRows);
      var before := Combined(n, left, on, baseRows[..m], joinRows).value;
      KeptOfOne(n, left, on, where, before, br, joinRows);
      assert baseRows == baseRows[..m] + [br];
      FilterSnoc(baseRows[..m], br, BaseHolder(where, n));
      if HoldsOnBase(where, n, br) {
        CombinedSnoc(n, left, on, Filter(baseRows[..m], BaseHolder(where, n)), br, joinRows);
      }
    }
  }
}
