/** What WHERE and HAVING select, on values: numbers by size, everything else by printed
    text, equality by the normalised constant, arrays by what they contain. */
module Selection {
  import opened Ordering
  import opened Values
  import opened Where
  import opened T = Table
  import opened Resolving
  import opened Query
  import opened Grouping
  import opened GroupedQuery

  /** x stands in the relation to y. */
  predicate Stands(op: Operator, x: real, y: real) {
    match op
    case Equal => x == y
    case Greater => x > y
    case GreaterOrEqual => x >= y
    case Less => x < y
    case LessOrEqual => x <= y
    case _ => false
  }

  /** The text s stands in the relation to t. */
  predicate TextStands(op: Operator, s: string, t: string) {
    match op
    case Equal => s == t
    case Greater => StrLess(t, s)
    case GreaterOrEqual => StrLess(t, s) || s == t
    case Less => StrLess(s, t)
    case LessOrEqual => StrLess(s, t) || s == t
    case _ => false
  }

  predicate BothNumbers(a: Value, b: Value) {
    Number(a).Some? && Number(b).Some?
  }

  predicate Inequality(op: Operator) {
    op in {Greater, GreaterOrEqual, Less, LessOrEqual}
  }

  lemma ComparesByValue(fmt: Printer, op: Operator, a: Value, b: Value)
    ensures BothNumbers(a, b) ==> (CompareOp(fmt, op, a, b) <==> Stands(op, Number(a).value, Number(b).value))
    ensures !BothNumbers(a, b) ==> (CompareOp(fmt, op, a, b) <==> TextStands(op, fmt(a), fmt(b)))
  {
    StrLessTotal(fmt(a), fmt(b));
  }

  /** A constant is the same number after a trip through JSON. */
  lemma NormKeepsNumber(v: Value)
    ensures Number(Norm(v)) == Number(v)
    ensures Number(v).Some? ==> Norm(v) == Float(Number(v).value)
  {
  }

  // ---- WHERE ----------------------------------------------------------------------------

  /** field op constant */
  function Compares(op: Operator, source: string, name: string, constant: Value): Option<Cond> {
    Some(Comparison(op, FieldRef(source, name), Constant(constant)))
  }

  /** An inequality holds of a record exactly when it has the field and the field's number
      stands in the relation to the constant's. */
  lemma NumbersSelect(fmt: Printer, data: Fields, op: Operator, source: string, name: string, constant: Value)
    requires Inequality(op) && Number(constant).Some? && (name in data ==> Number(data[name]).Some?)
    ensures Matches(fmt, data, Compares(op, source, name, constant)) <==>
            name in data && Stands(op, Number(data[name]).value, Number(constant).value)
  {
    NormKeepsNumber(constant);
    if name in data {
      ComparesByValue(fmt, op, data[name], Norm(constant));
    }
  }

  /** Unless both are numbers, the printed texts stand in the relation. */
  lemma TextsSelect(fmt: Printer, data: Fields, op: Operator, source: string, name: string, constant: Value)
    requires Inequality(op) && (name in data ==> !BothNumbers(data[name], constant))
    ensures Matches(fmt, data, Compares(op, source, name, constant)) <==>
            name in data && TextStands(op, fmt(data[name]), fmt(Norm(constant)))
  {
    NormKeepsNumber(constant);
    if name in data {
      ComparesByValue(fmt, op, data[name], Norm(constant));
    }
  }

  /** An equality holds when the field is what the constant becomes on a trip through JSON,
      and, of a null, when it is missing too. Over stored numbers it is equality of numbers,
      whatever number type the constant has. */
  lemma EqualitySelects(fmt: Printer, data: Fields, source: string, name: string, constant: Value)
    ensures Matches(fmt, data, Compares(Equal, source, name, constant)) <==>
            if name in data then data[name] == Norm(constant) else constant.Nil?
    ensures name in data && data[name].Float? && Number(constant).Some? ==>
              (Matches(fmt, data, Compares(Equal, source, name, constant)) <==> data[name].x == Number(constant).value)
  {
    NormKeepsNumber(constant);
  }

  /** Two array elements are alike: the same number, or the same value that is no container. */
  predicate Alike(a: Value, b: Value) {
    if BothNumbers(a, b) then Number(a).value == Number(b).value else a == b && !a.Arr? && !a.Obj?
  }

  lemma ElementsAlike(a: Value, b: Value)
    ensures ElementEquals(a, b) <==> Alike(a, b)
  {
  }

  ghost predicate Holds(field: Value, v: Value) {
    field.Arr? && exists x :: x in field.elems && Alike(x, v)
  }

  lemma ContainsHolds(field: Value, v: Value)
    ensures FieldContains(field, v) <==> Holds(field, v)
  {
    if field.Arr? {
      forall i | 0 <= i < |field.elems|
        ensures ElementEquals(field.elems[i], v) == Alike(field.elems[i], v)
      {
        ElementsAlike(field.elems[i], v);
      }
    }
  }

  /** constant In field holds when the field is an array with an element like the constant. */
  lemma ContainsSelects(fmt: Printer, data: Fields, source: string, name: string, constant: Value)
    ensures Matches(fmt, data, Some(Comparison(In, Constant(constant), FieldRef(source, name)))) <==>
            name in data && Holds(data[name], Norm(constant))
  {
    ContainsHolds(At(data, name), Norm(constant));
  }

  /** field against an array holds, under any operator, when the field is an array with an
      element like one of it. */
  lemma ContainsAnySelects(fmt: Printer, data: Fields, op: Operator, source: string, name: string, values: seq<Value>)
    ensures Matches(fmt, data, Some(Comparison(op, FieldRef(source, name), Array(Arr(values))))) <==>
            name in data && exists v :: v in values && Holds(data[name], v)
    ensures forall other: Value | !other.Arr? :: !Matches(fmt, data, Some(Comparison(op, FieldRef(source, name), Array(other))))
  {
    forall i | 0 <= i < |values|
      ensures FieldContains(At(data, name), values[i]) == Holds(At(data, name), values[i])
    {
      ContainsHolds(At(data, name), values[i]);
    }
    if name in data && exists v :: v in values && Holds(data[name], v) {
      var v :| v in values && Holds(data[name], v);
      var i :| 0 <= i < |values| && values[i] == v;
      assert FieldContains(At(data, name), values[i]);
    }
    if FieldContainsAny(At(data, name), Arr(values)) {
      var i :| 0 <= i < |values| && FieldContains(At(data, name), values[i]);
      assert values[i] in values;
    }
  }

  /** AND needs every condition, and an empty one holds; OR, and any other group, selects
      nothing. */
  lemma GroupsSelect(fmt: Printer, data: Fields, op: Operator, conds: seq<Cond>)
    ensures Matches(fmt, data, Some(Group(op, conds))) <==> op == And && forall c | c in conds :: Matches(fmt, data, Some(c))
    ensures Matches(fmt, data, None)
  {
    forall c | c in conds && MatchesCond(fmt, data, Group(op, conds))
      ensures Matches(fmt, data, Some(c))
    {
      var i :| 0 <= i < |conds| && conds[i] == c;
    }
    forall i | 0 <= i < |conds| && forall c | c in conds :: Matches(fmt, data, Some(c))
      ensures MatchesCond(fmt, data, conds[i])
    {
      assert Matches(fmt, data, Some(conds[i]));
    }
  }

  // ---- The answer -------------------------------------------------------------------------

  /** LIMIT cuts nothing off. */
  predicate Uncut(fmt: Printer, path: PathPrinter, q: Query, rows: seq<Row>) {
    q.limit <= 0 || |Filter(rows, Keeper(fmt, path, q))| <= q.limit
  }

  /** The answer has only rows that match and have the parent asked for, and all of them unless
      LIMIT cuts some off. */
  lemma AnswerHas(fmt: Printer, path: PathPrinter, q: Query, rows: seq<Row>, row: Row)
    ensures var asked := row in rows && Matches(fmt, row.data, q.where) && (q.parent.Some? ==> IsChildOf(path, row.key, q.parent.value));
            && (row in Picked(fmt, path, q, rows) ==> asked)
            && (asked && Uncut(fmt, path, q, rows) ==> row in Picked(fmt, path, q, rows))
  {
    var kept := Filter(rows, Keeper(fmt, path, q));
    SortIsPermutation(kept, Order(fmt, q));
    assert forall x | x in Picked(fmt, path, q, rows) :: x in SortBy(kept, Order(fmt, q));
  }

  /** So a row is in the answer to field op number only if, and, unless LIMIT cuts it off, exactly
      if, it has the field and its number stands in the relation. */
  lemma AnswerToNumber(fmt: Printer, path: PathPrinter, q: Query, rows: seq<Row>, row: Row,
                       op: Operator, source: string, name: string, constant: Value)
    requires q.where == Compares(op, source, name, constant) && Inequality(op) && Number(constant).Some?
    requires name in row.data ==> Number(row.data[name]).Some?
    ensures var asked := && row in rows && name in row.data && Stands(op, Number(row.data[name]).value, Number(constant).value)
                         && (q.parent.Some? ==> IsChildOf(path, row.key, q.parent.value));
            && (row in Picked(fmt, path, q, rows) ==> asked)
            && (asked && Uncut(fmt, path, q, rows) ==> row in Picked(fmt, path, q, rows))
  {
    AnswerHas(fmt, path, q, rows, row);
    NumbersSelect(fmt, row.data, op, source, name, constant);
  }

  /** Every name a field may be qualified with sees the row. */
  lemma NamesSeeRow(base: RecordsetSource, data: Fields, source: string)
    requires source in Known(base)
    ensures RowOfSource(BaseSources(base, data), source) == data
    ensures base.name in Known(base) && (base.alias != "" ==> base.alias in Known(base))
  {
  }

  /** What a result record is: the row's key, or one made of the collection and the id; and the
      row's data, nothing, or, with columns, the fields they name, nulls for those that are
      missing. */
  lemma RecordIs(q: Query, row: Row, i: nat)
    requires forall j | 0 <= j < |q.columns| :: q.columns[j].expr.FieldRef? && q.columns[j].expr.source in Known(q.base)
    ensures var r := ToRecord(q, row);
            && r.key == (if row.key.Some? then row.key.value else Key(q.base.name, Str(row.id), None))
            && (q.columns == [] ==> r.data == if q.withData then Some(row.data) else None)
            && (q.columns != [] ==> r.data.Some?)
            && (LastNamed(q.columns, i, if i < |q.columns| then ColumnKey(q.columns[i]) else "") ==>
                  && ColumnKey(q.columns[i]) in r.data.value
                  && r.data.value[ColumnKey(q.columns[i])] ==
                     if q.columns[i].expr.name in row.data then row.data[q.columns[i].expr.name] else Nil)
  {
    if i < |q.columns| {
      ProjectAt(q.columns, BaseSources(q.base, row.data), ColumnKey(q.columns[i]));
      NamesSeeRow(q.base, row.data, q.columns[i].expr.source);
    }
  }

  /** A query over rows is refused exactly when an ORDER BY key or a column is qualified with a
      name the query does not have, or a column is not a field. */
  lemma RefusedIff(fmt: Printer, path: PathPrinter, q: Query, rows: seq<Row>)
    ensures Answer(fmt, path, q, rows).Err? <==>
            rows != [] &&
            ((exists i :: 0 <= i < |q.orderBy| && q.orderBy[i].expr.FieldRef? && q.orderBy[i].expr.source !in Known(q.base))
             || (exists i :: 0 <= i < |q.columns| && !(q.columns[i].expr.FieldRef? && q.columns[i].expr.source in Known(q.base))))
    ensures rows == [] ==> Answer(fmt, path, q, rows) == Ok([])
  {
  }

  // ---- HAVING -------------------------------------------------------------------------------

  /** HAVING compares the two values of the group: numbers by size, anything else by text. */
  lemma HavingSelects(fmt: Printer, op: Operator, left: Expr, right: Expr, g: AggGroup, known: set<string>, a: Value, b: Value)
    requires g.rows != [] && GroupValue(fmt, left, g, known) == Ok(a) && GroupValue(fmt, right, g, known) == Ok(b)
    ensures MatchesHaving(fmt, Comparison(op, left, right), g, known) ==
            Ok(if BothNumbers(a, b) then Stands(op, Number(a).value, Number(b).value) else TextStands(op, fmt(a), fmt(b)))
  {
    ComparesByValue(fmt, op, a, b);
  }

  predicate Decides(fmt: Printer, c: Cond, g: AggGroup, known: set<string>, holds: bool)
    requires g.rows != []
  {
    MatchesHaving(fmt, c, g, known) == Ok(holds)
  }

  lemma SomeDecides(fmt: Printer, conds: seq<Cond>, g: AggGroup, known: set<string>, holds: bool)
    requires g.rows != []
    ensures (exists i :: 0 <= i < |conds| && MatchesHaving(fmt, conds[i], g, known) == Ok(holds)) <==>
            exists c :: c in conds && Decides(fmt, c, g, known, holds)
  {
    if i :| 0 <= i < |conds| && MatchesHaving(fmt, conds[i], g, known) == Ok(holds) {
      assert conds[i] in conds && Decides(fmt, conds[i], g, known, holds);
    }
    if c :| c in conds && Decides(fmt, c, g, known, holds) {
      var i :| 0 <= i < |conds| && conds[i] == c;
      assert MatchesHaving(fmt, conds[i], g, known) == Ok(holds);
    }
  }

  /** Without errors, HAVING with OR keeps a group for which some condition holds, and with any
      other operator one for which none fails. */
  lemma HavingGroups(fmt: Printer, op: Operator, conds: seq<Cond>, g: AggGroup, known: set<string>)
    requires g.rows != [] && forall i | 0 <= i < |conds| :: MatchesHaving(fmt, conds[i], g, known).Ok?
    ensures op == Or ==>
              MatchesHaving(fmt, Group(op, conds), g, known) == Ok(exists c :: c in conds && Decides(fmt, c, g, known, true))
    ensures op != Or ==>
              MatchesHaving(fmt, Group(op, conds), g, known) == Ok(forall c | c in conds :: !Decides(fmt, c, g, known, false))
  {
    HavingMeans(fmt, conds, op == Or, g, known);
    SomeDecides(fmt, conds, g, known, op == Or);
  }

  /** What a group's value is: an output column under its name, once projected; otherwise the
      field of its first row; a constant is normalised. */
  lemma GroupValueIs(fmt: Printer, g: AggGroup, known: set<string>, source: string, name: string, constant: Value)
    requires g.rows != []
    ensures g.out.Some? && name in g.out.value ==> GroupValue(fmt, FieldRef("", name), g, known) == Ok(g.out.value[name])
    ensures source in known && (source != "" || g.out.None? || name !in g.out.value) ==>
              GroupValue(fmt, FieldRef(source, name), g, known) ==
              Ok(if source in g.rows[0] && name in g.rows[0][source] then g.rows[0][source][name] else Nil)
    ensures GroupValue(fmt, Constant(constant), g, known) == Ok(Norm(constant))
  {
  }

  // ---- The rows of groups -------------------------------------------------------------------------

  /** A group's output row has exactly the columns' names. */
  lemma {:induction false} GroupRowNames(fmt: Printer, show: Shower, columns: seq<Column>, g: AggGroup, known: set<string>, name: string)
    requires g.rows != [] && ProjectGroup(fmt, show, columns, g, known).Ok?
    ensures name in ProjectGroup(fmt, show, columns, g, known).value <==> exists c :: c in columns && ColumnOutKey(show, c) == name
  {
    if columns != [] {
      var n := |columns| - 1;
      GroupRowNames(fmt, show, columns[..n], g, known, name);
      assert forall c :: c in columns <==> c in columns[..n] || c == columns[n];
    }
  }

  lemma {:induction false} GroupRuleIff(show: Shower, groupBy: seq<Expr>, columns: seq<Column>, i: nat)
    requires i <= |columns|
    ensures GroupRuleError(show, groupBy, columns, i).None? <==>
            forall j | i <= j < |columns| :: columns[j].expr.Aggregate? || exists e :: e in groupBy && show(e) == show(columns[j].expr)
    decreases |columns| - i
  {
    if i < |columns| {
      GroupRuleIff(show, groupBy, columns, i + 1);
      if e :| e in groupBy && show(e) == show(columns[i].expr) {
        var k :| 0 <= k < |groupBy| && groupBy[k] == e;
      }
    }
  }

  /** A grouped query is refused before any row is looked at exactly when a GROUP BY field is
      qualified with a name the query does not have, or a column is neither an aggregate nor
      prints like a GROUP BY expression. */
  lemma GroupRefusedIff(show: Shower, q: GroupQuery, known: set<string>)
    ensures GroupRefusal(show, q, known).None? <==>
            && (forall e | e in q.groupBy && e.FieldRef? && e.source != "" :: e.source in known)
            && (forall j | 0 <= j < |q.columns| ::
                  q.columns[j].expr.Aggregate? || exists e :: e in q.groupBy && show(e) == show(q.columns[j].expr))
  {
    GroupRuleIff(show, q.groupBy, q.columns, 0);
  }
}
