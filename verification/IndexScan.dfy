/** When the equality index answers a query exactly as a full scan would. */
module IndexScan {
  import opened Ordering
  import opened Values
  import opened Where
  import opened T = Table

  predicate ById(a: Row, b: Row) {
    StrLess(a.id, b.id)
  }

  /** The condition field == constant. */
  function Condition(eq: Equality): Cond {
    Comparison(Equal, FieldRef("", eq.field), Constant(eq.constant))
  }

  /** What the query keeps of a list of rows. */
  function Kept(fmt: Printer, rows: seq<Row>, eq: Equality): seq<Row> {
    Filter(rows, (r: Row) => MatchesCond(fmt, r.data, Condition(eq)))
  }

  // ---- Lists of rows ----------------------------------------------------------

  lemma ListElements(schema: Schema, t: Table, ids: set<string>)
    requires ValidTable(schema, t) && ids <= t.Keys
    ensures StrictlyAscending(ById, List(schema, t, ids))
    ensures forall r :: r in List(schema, t, ids) <==> r.id in ids && r == RowOf(schema, t, r.id)
  {
    SortedIdsAscend(ids);
    var order, list := SortedIds(ids), List(schema, t, ids);
    forall r
      ensures r in list <==> r.id in ids && r == RowOf(schema, t, r.id)
    {
      if r in list {
        var k :| 0 <= k < |list| && list[k] == r;
        assert order[k] in order;
      }
      if r.id in ids {
        assert r.id in order;
        var k :| 0 <= k < |order| && order[k] == r.id;
        assert list[k] == RowOf(schema, t, r.id);
      }
    }
  }

  lemma ByIdIsTotal(schema: Schema, t: Table, rows: seq<Row>)
    requires ValidTable(schema, t)
    requires forall r | r in rows :: r.id in t && r == RowOf(schema, t, r.id)
    ensures TotalOn(ById, rows)
  {
    forall a: Row, b: Row
      ensures !ById(a, a)
      ensures ById(a, b) || ById(b, a) || a.id == b.id
      ensures !(ById(a, b) && ById(b, a))
    {
      StrLessTotal(a.id, b.id);
    }
    forall a: Row, b: Row, c: Row | ById(a, b) && ById(b, c)
      ensures ById(a, c)
    {
      StrLessTransitive(a.id, b.id, c.id);
    }
  }

  /** Re-filtering any candidate rows that include every match gives the same
      sequence as filtering all rows, whatever strategy chose the candidates. */
  lemma CandidatesSuffice(schema: Schema, t: Table, ids: set<string>, keep: Row -> bool)
    requires ValidTable(schema, t) && ids <= t.Keys
    requires forall id | id in t && keep(RowOf(schema, t, id)) :: id in ids
    ensures Filter(List(schema, t, ids), keep) == Filter(List(schema, t, t.Keys), keep)
  {
    var some, all := List(schema, t, ids), List(schema, t, t.Keys);
    ListElements(schema, t, ids);
    ListElements(schema, t, t.Keys);
    FilterAscending(some, keep, ById);
    FilterAscending(all, keep, ById);
    ByIdIsTotal(schema, t, Filter(some, keep));
    forall r
      ensures r in Filter(some, keep) <==> r in Filter(all, keep)
    {
      if r in Filter(all, keep) { assert keep(RowOf(schema, t, r.id)); }
    }
    AscendingUnique(Filter(some, keep), Filter(all, keep), ById);
  }

  // ---- Equality on a column -----------------------------------------------------

  /** The condition on the view is equality of normal forms on the cell. */
  lemma MatchOnView(fmt: Printer, schema: Schema, t: Table, id: string, i: nat, eq: Equality)
    requires ValidSchema(schema) && ValidTable(schema, t) && id in t
    requires i < |schema.columns| && schema.columns[i].name == eq.field
    ensures MatchesCond(fmt, RowOf(schema, t, id).data, Condition(eq)) <==>
            Norm(t[id].row.cells[i]) == Norm(eq.constant)
  {
    OverlayAt(t[id].row.leftover, schema.columns, t[id].row.cells, eq.field);
  }

  /** The constant has the column's own Go type. */
  predicate SameType(elem: ElemType, c: Value) {
    match elem
    case TInt => c.Int?
    case TInt64 => c.Int64?
    case TFloat => c.Float?
    case TString => c.Str?
    case TBool => c.Bool?
    case TAny => Norm(c) == c
  }

  /** Some value of the column normalises like the constant. */
  predicate Representable(elem: ElemType, c: Value) {
    match elem
    case TInt | TInt64 => Norm(c).Float? && Whole(Norm(c).x)
    case TFloat => Norm(c).Float?
    case TString => c.Str?
    case TBool => c.Bool?
    case TAny => true
  }

  function Witness(elem: ElemType, c: Value): Value
    requires Representable(elem, c)
  {
    match elem
    case TInt => Int(Norm(c).x.Floor)
    case TInt64 => Int64(Norm(c).x.Floor)
    case _ => Norm(c)
  }

  lemma WitnessFits(elem: ElemType, c: Value)
    requires Representable(elem, c)
    ensures HasType(Witness(elem, c), elem) && Norm(Witness(elem, c)) == Norm(c)
  {
    NormIdempotent(c);
  }

  /** The caller's side of the bargain: the column has no opinion, or is not an
      abandoned one and is asked about a scalar constant of its own type, or is
      asked about a value it cannot hold. */
  predicate Safe(spec: ColumnSpec, ix: Indexing, c: Value) {
    || (!ix.external && spec.elem == TAny)
    || (SameType(spec.elem, c) && (ix.external || !ix.orphaned))
    || !Representable(spec.elem, c)
  }

  /** On one cell: comparing Go values agrees with comparing normal forms exactly
      for constants of the column's type and for values no cell can hold. */
  lemma SameAnswer(elem: ElemType, c: Value, v: Value)
    requires HasType(v, elem) && (SameType(elem, c) || !Representable(elem, c))
    ensures v == c <==> Norm(v) == Norm(c)
  {
  }

  lemma HeldIsRepresentable(elem: ElemType, c: Value, v: Value)
    requires HasType(v, elem) && Norm(v) == Norm(c)
    ensures Representable(elem, c)
  {
  }

  /** A table with one row, whose column i holds v. */
  function OneRow(schema: Schema, i: nat, v: Value): Table
    requires i < |schema.columns|
  {
    map["" := Stored(
      Decoded(seq(|schema.columns|, j requires 0 <= j < |schema.columns| => if j == i then v else Zero(schema.columns[j].elem)), map[]),
      Key("", Nil, None))]
  }

  lemma OneRowValid(schema: Schema, i: nat, v: Value)
    requires i < |schema.columns| && HasType(v, schema.columns[i].elem)
    ensures ValidTable(schema, OneRow(schema, i, v))
  {
    assert NormFields(map[]) == map[];
  }

  /** The query through the index equals the query by scan. */
  ghost predicate Agree(fmt: Printer, schema: Schema, ix: seq<Indexing>, t: Table, eq: Equality)
    requires |ix| == |schema.columns| && ValidTable(schema, t)
  {
    match Candidates(schema, ix, t, eq)
    case None => true
    case Some(ids) => ids <= t.Keys && Kept(fmt, List(schema, t, ids), eq) == Kept(fmt, List(schema, t, t.Keys), eq)
  }

  lemma SafeAgrees(fmt: Printer, schema: Schema, ix: seq<Indexing>, t: Table, i: nat, eq: Equality)
    requires ValidSchema(schema) && |ix| == |schema.columns| && ValidTable(schema, t)
    requires FindColumn(schema.columns, eq.field) == Some(i) && Safe(schema.columns[i], ix[i], eq.constant)
    requires !eq.constant.Arr? && !eq.constant.Obj?
    ensures Agree(fmt, schema, ix, t, eq)
  {
    var answer := Candidates(schema, ix, t, eq);
    if answer.Some? {
      var keep := (r: Row) => MatchesCond(fmt, r.data, Condition(eq));
      forall id | id in t && keep(RowOf(schema, t, id))
        ensures id in answer.value
      {
        MatchOnView(fmt, schema, t, id, i, eq);
        var v := t[id].row.cells[i];
        HeldIsRepresentable(schema.columns[i].elem, eq.constant, v);
        SameAnswer(schema.columns[i].elem, eq.constant, v);
      }
      CandidatesSuffice(schema, t, answer.value, keep);
    }
  }

  /** Outside Safe there is a table on which the index loses a row the scan finds. */
  lemma UnsafeDisagrees(fmt: Printer, schema: Schema, ix: seq<Indexing>, i: nat, eq: Equality) returns (t: Table)
    requires ValidSchema(schema) && |ix| == |schema.columns|
    requires FindColumn(schema.columns, eq.field) == Some(i) && !Safe(schema.columns[i], ix[i], eq.constant)
    requires !eq.constant.Arr? && !eq.constant.Obj?
    ensures ValidTable(schema, t) && !Agree(fmt, schema, ix, t, eq)
  {
    var elem := schema.columns[i].elem;
    var v := Witness(elem, eq.constant);
    WitnessFits(elem, eq.constant);
    t := OneRow(schema, i, v);
    OneRowValid(schema, i, v);
    MatchOnView(fmt, schema, t, "", i, eq);
    var row := RowOf(schema, t, "");
    ListElements(schema, t, t.Keys);
    assert row in Kept(fmt, List(schema, t, t.Keys), eq);
    var answer := Candidates(schema, ix, t, eq);
    assert answer.Some? && "" !in answer.value;
    if answer.value <= t.Keys {
      ListElements(schema, t, answer.value);
      assert row !in Kept(fmt, List(schema, t, answer.value), eq);
    }
  }

  /** For a scalar constant, the index is invisible on every table if and only if
      the column and the constant are Safe. */
  lemma IndexInvisibleIff(fmt: Printer, schema: Schema, ix: seq<Indexing>, i: nat, eq: Equality)
    requires ValidSchema(schema) && |ix| == |schema.columns|
    requires FindColumn(schema.columns, eq.field) == Some(i)
    requires !eq.constant.Arr? && !eq.constant.Obj?
    ensures (forall t | ValidTable(schema, t) :: Agree(fmt, schema, ix, t, eq)) <==>
            Safe(schema.columns[i], ix[i], eq.constant)
  {
    if Safe(schema.columns[i], ix[i], eq.constant) {
      forall t | ValidTable(schema, t)
        ensures Agree(fmt, schema, ix, t, eq)
      {
        SafeAgrees(fmt, schema, ix, t, i, eq);
      }
    } else {
      var t := UnsafeDisagrees(fmt, schema, ix, i, eq);
    }
  }

  /** A concrete loss: an int column asked for int64(5) finds nothing although the
      scan finds the row; so does a column declared twice. */
  lemma LostRows(fmt: Printer)
    ensures !Safe(ColumnSpec("n", TInt), Indexing(false, false), Int64(5))
    ensures !Safe(ColumnSpec("n", TInt), Indexing(false, true), Int(5))
    ensures Safe(ColumnSpec("n", TInt), Indexing(false, false), Int(5))
    ensures Safe(ColumnSpec("n", TInt), Indexing(false, false), Float(2.5))
  {
    assert (5.0 as real).Floor == 5 && (2.5 as real).Floor == 2;
  }
}
