/** A whole structured query over the rows of its collections: one source or a join, plain
    or grouped. */
module Executor {
  import opened Ordering
  import opened Values
  import opened Where
  import opened T = Table
  import opened Resolving
  import opened GroupKeys
  import opened Grouping
  import opened GroupedQuery
  import opened GroupedAnswers
  import opened RowOrder
  import Query
  import Join

  datatype StructuredQuery = StructuredQuery(
    base: RecordsetSource,
    parent: Option<Key>,
    joins: seq<Join.JoinSpec>,
    where: Option<Cond>,
    groupBy: seq<Expr>,
    having: Option<Cond>,
    orderBy: seq<OrderKey>,
    offset: int,
    limit: int,
    columns: seq<Column>,
    withData: bool)

  /** Records, or the output rows of groups; a group's key is its position. */
  datatype Reply = Records(records: seq<Query.Record>) | GroupRows(rows: seq<Fields>)

  function PlainOf(q: StructuredQuery): Query.Query {
    Query.Query(q.base, q.parent, q.where, q.orderBy, q.limit, q.columns, q.withData)
  }

  function JoinOf(q: StructuredQuery): Join.JoinQuery {
    Join.JoinQuery(q.base, q.joins, q.where, q.orderBy, q.limit, q.columns, q.withData)
  }

  function GroupingOf(q: StructuredQuery): GroupQuery {
    GroupQuery(q.groupBy, q.columns, q.having, q.orderBy, q.offset, q.limit)
  }

  function BaseOf(base: RecordsetSource): Row -> Sources {
    (r: Row) => Query.BaseSources(base, r.data)
  }

  function JoinedOf(r: Join.JoinedRow): Sources {
    r.sources
  }

  /** What the groups of a query over one source are made of. */
  function Kept(fmt: Printer, path: Query.PathPrinter, q: StructuredQuery, rows: seq<Row>): seq<Sources> {
    Map(Filter(rows, Query.Keeper(fmt, path, PlainOf(q))), BaseOf(q.base))
  }

  /** A grouped query over one source. */
  function GroupedOverBase(fmt: Printer, path: Query.PathPrinter, show: Shower, q: StructuredQuery, rows: seq<Row>): Result<seq<Fields>, QueryError> {
    if rows == [] then Ok([])
    else
      var err := OrderError(q.orderBy, Query.Known(q.base));
      if err.Some? then Err(err.value)
      else GroupedAnswer(fmt, show, GroupingOf(q), Query.Known(q.base), Kept(fmt, path, q, rows))
  }

  /** What a grouped join is rejected for before any row is read; its columns are checked
      with the groups. */
  function JoinRejection(q: StructuredQuery): Option<QueryError> {
    if |q.joins| != 1 then Some(JoinCount(|q.joins|))
    else if q.joins[0].kind == Join.Other then Some(UnsupportedJoin)
    else OrderError(q.orderBy, Join.Known(Join.NamesOf(JoinOf(q))))
  }

  /** A grouped query over a join. */
  function GroupedOverJoin(fmt: Printer, show: Shower, q: StructuredQuery, baseRows: seq<Row>, joinRows: seq<Row>): Result<seq<Fields>, QueryError> {
    if JoinRejection(q).Some? then Err(JoinRejection(q).value)
    else
      var n := Join.NamesOf(JoinOf(q));
      match Join.JoinRows(n, q.joins[0].kind == Join.Left, q.joins[0].on, q.where, baseRows, joinRows)
      case Err(e) => Err(e)
      case Ok(joined) => GroupedAnswer(fmt, show, GroupingOf(q), Join.Known(n), Map(joined, JoinedOf))
  }

  function AsRecords(r: Result<seq<Query.Record>, QueryError>): Result<Reply, QueryError> {
    match r
    case Err(e) => Err(e)
    case Ok(records) => Ok(Records(records))
  }

  function AsGroups(r: Result<seq<Fields>, QueryError>): Result<Reply, QueryError> {
    match r
    case Err(e) => Err(e)
    case Ok(rows) => Ok(GroupRows(rows))
  }

  function Answered(fmt: Printer, path: Query.PathPrinter, show: Shower, q: StructuredQuery, baseRows: seq<Row>, joinRows: seq<Row>): Result<Reply, QueryError> {
    if q.joins == [] then
      if q.groupBy == [] then AsRecords(Query.Answer(fmt, path, PlainOf(q), baseRows))
      else AsGroups(GroupedOverBase(fmt, path, show, q, baseRows))
    else if q.groupBy == [] then AsRecords(Join.JoinAnswer(fmt, JoinOf(q), baseRows, joinRows))
    else AsGroups(GroupedOverJoin(fmt, show, q, baseRows, joinRows))
  }

  // ---- The loops -----------------------------------------------------------------------

  method SourcesOfRows(base: RecordsetSource, rows: seq<Row>) returns (srcs: seq<Sources>)
    ensures srcs == Map(rows, BaseOf(base))
  {
    srcs := [];
    for i := 0 to |rows|
      invariant srcs == Map(rows[..i], BaseOf(base))
    {
      srcs := srcs + [Query.BaseSources(base, rows[i].data)];
    }
    assert rows[..|rows|] == rows;
  }

  method SourcesOfJoined(rows: seq<Join.JoinedRow>) returns (srcs: seq<Sources>)
    ensures srcs == Map(rows, JoinedOf)
  {
    srcs := [];
    for i := 0 to |rows|
      invariant srcs == Map(rows[..i], JoinedOf)
    {
      srcs := srcs + [rows[i].sources];
    }
    assert rows[..|rows|] == rows;
  }

  method ExecuteGroupedBase(fmt: Printer, path: Query.PathPrinter, show: Shower, q: StructuredQuery, rows: seq<Row>)
      returns (r: Result<seq<Fields>, QueryError>)
    ensures r == GroupedOverBase(fmt, path, show, q, rows)
  {
    if |rows| == 0 {
      return Ok([]);
    }
    var known := Query.Known(q.base);
    var err := ValidateOrderSources(q.orderBy, known);
    if err.Some? {
      return Err(err.value);
    }
    var kept := Query.KeepRows(fmt, path, PlainOf(q), rows);
    var srcs := SourcesOfRows(q.base, kept);
    r := ExecuteGrouped(fmt, show, GroupingOf(q), known, srcs);
  }

  method ExecuteGroupedJoin(fmt: Printer, show: Shower, q: StructuredQuery, baseRows: seq<Row>, joinRows: seq<Row>)
      returns (r: Result<seq<Fields>, QueryError>)
    ensures r == GroupedOverJoin(fmt, show, q, baseRows, joinRows)
  {
    if |q.joins| != 1 {
      return Err(JoinCount(|q.joins|));
    }
    var join := q.joins[0];
    if join.kind == Join.Other {
      return Err(UnsupportedJoin);
    }
    var n := Join.Names(SourceKey(q.base), SourceKey(join.source));
    var err := ValidateOrderSources(q.orderBy, Join.Known(n));
    if err.Some? {
      return Err(err.value);
    }
    var joined := Join.ExecuteJoin(n, join.kind == Join.Left, join.on, q.where, baseRows, joinRows);
    match joined {
      case Err(e) => r := Err(e);
      case Ok(rows) =>
        var srcs := SourcesOfJoined(rows);
        r := ExecuteGrouped(fmt, show, GroupingOf(q), Join.Known(n), srcs);
    }
  }

  /** ExecuteQueryToRecordsReader and executeJoinQuery, over the rows loaded for the base
      and for the joined collection. */
  method ExecuteQuery(fmt: Printer, path: Query.PathPrinter, show: Shower, q: StructuredQuery, baseRows: seq<Row>, joinRows: seq<Row>)
      returns (r: Result<Reply, QueryError>)
    ensures r == Answered(fmt, path, show, q, baseRows, joinRows)
  {
    if |q.joins| > 0 {
      if |q.groupBy| > 0 {
        var groups := ExecuteGroupedJoin(fmt, show, q, baseRows, joinRows);
        return AsGroups(groups);
      }
      var joined := Join.ExecuteJoinQuery(fmt, JoinOf(q), baseRows, joinRows);
      return AsRecords(joined);
    }
    if |q.groupBy| > 0 {
      var groups := ExecuteGroupedBase(fmt, path, show, q, baseRows);
      return AsGroups(groups);
    }
    var records := Query.Execute(fmt, path, PlainOf(q), baseRows);
    r := AsRecords(records);
  }

  /** Every clause of the query reaches the branch that runs it. */
  lemma ClausesReach(fmt: Printer, path: Query.PathPrinter, show: Shower, q: StructuredQuery, baseRows: seq<Row>, joinRows: seq<Row>)
    ensures q.joins == [] && q.groupBy == [] ==>
              Answered(fmt, path, show, q, baseRows, joinRows) ==
              AsRecords(Query.Answer(fmt, path, Query.Query(q.base, q.parent, q.where, q.orderBy, q.limit, q.columns, q.withData), baseRows))
    ensures q.joins != [] && q.groupBy == [] ==>
              Answered(fmt, path, show, q, baseRows, joinRows) ==
              AsRecords(Join.JoinAnswer(fmt, Join.JoinQuery(q.base, q.joins, q.where, q.orderBy, q.limit, q.columns, q.withData), baseRows, joinRows))
    ensures forall known, rows ::
              GroupedAnswer(fmt, show, GroupingOf(q), known, rows) ==
              GroupedAnswer(fmt, show, GroupQuery(q.groupBy, q.columns, q.having, q.orderBy, q.offset, q.limit), known, rows)
    ensures forall s ::
              s in Kept(fmt, path, q, baseRows) <==>
              exists row :: row in baseRows && Matches(fmt, row.data, q.where)
                            && (q.parent.Some? ==> Query.IsChildOf(path, row.key, q.parent.value))
                            && s == Query.BaseSources(q.base, row.data)
  {
    forall s
      ensures s in Kept(fmt, path, q, baseRows) <==>
              exists row :: row in baseRows && Matches(fmt, row.data, q.where)
                            && (q.parent.Some? ==> Query.IsChildOf(path, row.key, q.parent.value))
                            && s == Query.BaseSources(q.base, row.data)
    {
      KeptHolds(fmt, path, q, baseRows, s);
    }
  }

  lemma KeptHolds(fmt: Printer, path: Query.PathPrinter, q: StructuredQuery, rows: seq<Row>, s: Sources)
    ensures s in Kept(fmt, path, q, rows) <==>
            exists row :: row in rows && Matches(fmt, row.data, q.where)
                          && (q.parent.Some? ==> Query.IsChildOf(path, row.key, q.parent.value))
                          && s == Query.BaseSources(q.base, row.data)
  {
    var kept := Filter(rows, Query.Keeper(fmt, path, PlainOf(q)));
    if s in Kept(fmt, path, q, rows) {
      var i :| 0 <= i < |kept| && Map(kept, BaseOf(q.base))[i] == s;
      assert kept[i] in kept;
    }
    if row :| row in rows && Matches(fmt, row.data, q.where)
              && (q.parent.Some? ==> Query.IsChildOf(path, row.key, q.parent.value)) && s == Query.BaseSources(q.base, row.data) {
      assert row in kept;
      var i :| 0 <= i < |kept| && kept[i] == row;
      assert Map(kept, BaseOf(q.base))[i] == s;
    }
  }

  // ---- What does not depend on enumeration -----------------------------------------------------

  /** A query over a join has one answer, grouped or not, with ORDER BY or without, in
      whatever order the engines enumerate the rows. */
  lemma JoinsHaveOneAnswer(fmt: Printer, path: Query.PathPrinter, show: Shower, q: StructuredQuery,
                           baseRows: seq<Row>, joinRows: seq<Row>, baseRows': seq<Row>, joinRows': seq<Row>)
    requires q.joins != []
    requires multiset(baseRows) == multiset(baseRows') && Join.DistinctIds(baseRows)
    requires multiset(joinRows) == multiset(joinRows') && Join.DistinctIds(joinRows)
    ensures Answered(fmt, path, show, q, baseRows, joinRows) == Answered(fmt, path, show, q, baseRows', joinRows')
  {
    if q.groupBy == [] {
      Join.JoinAnswerForgetsOrder(fmt, JoinOf(q), baseRows, joinRows, baseRows', joinRows');
    } else if JoinRejection(q).None? {
      Join.JoinForgetsOrder(Join.NamesOf(JoinOf(q)), q.joins[0].kind == Join.Left, q.joins[0].on, q.where,
                            baseRows, joinRows, baseRows', joinRows');
    }
  }

  function SettingOf(fmt: Printer, show: Shower, q: StructuredQuery): Setting {
    Setting(fmt, show, GroupingOf(q), Query.Known(q.base))
  }

  /** One element taken out of a list and put in front. */
  lemma PutInFront<S(!new)>(s: seq<S>, i: nat, rest: seq<S>)
    requires i < |s| && multiset(rest) == multiset(s[..i] + s[i + 1..])
    ensures multiset([s[i]] + rest) == multiset(s)
  {
    assert s == s[..i] + [s[i]] + s[i + 1..];
    assert multiset(s) == multiset(s[..i]) + multiset{s[i]} + multiset(s[i + 1..]);
    assert multiset(s[..i] + s[i + 1..]) == multiset(s[..i]) + multiset(s[i + 1..]);
  }

  lemma TailMaps<S(!new), T(!new)>(s: seq<S>, i: nat, f: S -> T, t: seq<T>)
    requires i < |s| && t != [] && t[0] == f(s[i]) && multiset(Map(s, f)) == multiset(t)
    ensures multiset(Map(s[..i] + s[i + 1..], f)) == multiset(t[1..])
  {
    MapTakesOut(s, i, f);
    assert t == [t[0]] + t[1..];
    assert multiset(t) == multiset{t[0]} + multiset(t[1..]);
    assert multiset(t[1..]) == multiset(t) - multiset{t[0]};
  }

  /** Rearranging what a list maps to is rearranging the list. */
  lemma {:induction false} Unmapped<S(!new), T(!new)>(s: seq<S>, f: S -> T, t: seq<T>) returns (r: seq<S>)
    requires multiset(Map(s, f)) == multiset(t)
    ensures multiset(r) == multiset(s) && Map(r, f) == t
    decreases |t|
  {
    SamePopulation(Map(s, f), t);
    if t == [] {
      r := [];
      assert s == [];
    } else {
      assert t[0] in t;
      assert t[0] in Map(s, f);
      var i :| 0 <= i < |Map(s, f)| && Map(s, f)[i] == t[0];
      TailMaps(s, i, f, t);
      var rest := Unmapped(s[..i] + s[i + 1..], f, t[1..]);
      PutInFront(s, i, rest);
      r := [s[i]] + rest;
      assert Map(r, f) == [f(s[i])] + Map(rest, f);
      assert t == [t[0]] + t[1..];
    }
  }

  /** Any order of the kept rows comes from an order of all rows. */
  lemma WholeOrder(rows: seq<Row>, keep: Row -> bool, kept: seq<Row>) returns (rows': seq<Row>)
    requires multiset(kept) == multiset(Filter(rows, keep))
    ensures multiset(rows') == multiset(rows) && Filter(rows', keep) == kept
  {
    var drop := (r: Row) => !keep(r);
    rows' := kept + Filter(rows, drop);
    SamePopulation(kept, Filter(rows, keep));
    Query.FilterSplits(rows, keep, drop);
    FilterConcat(kept, Filter(rows, drop), keep);
    Query.FilterAll(kept, keep);
    Query.FilterNone(Filter(rows, drop), keep);
    assert kept + [] == kept;
  }

  /** A grouped query over one source looks at rows only if there are any and ORDER BY names
      known sources. */
  lemma GroupedIsAnswer(fmt: Printer, path: Query.PathPrinter, show: Shower, q: StructuredQuery, rows: seq<Row>)
    requires rows != [] && OrderError(q.orderBy, Query.Known(q.base)).None?
    ensures GroupedOverBase(fmt, path, show, q, rows) == Answer(SettingOf(fmt, show, q), Kept(fmt, path, q, rows))
  {
  }

  lemma KeptPermutes(fmt: Printer, path: Query.PathPrinter, q: StructuredQuery, rows: seq<Row>, rows': seq<Row>)
    requires multiset(rows') == multiset(rows)
    ensures multiset(Kept(fmt, path, q, rows')) == multiset(Kept(fmt, path, q, rows))
    ensures rows' == [] <==> rows == []
  {
    SamePopulation(rows, rows');
    FilterPermutation(rows', rows, Query.Keeper(fmt, path, PlainOf(q)));
    MapPermutes(Filter(rows', Query.Keeper(fmt, path, PlainOf(q))), Filter(rows, Query.Keeper(fmt, path, PlainOf(q))), BaseOf(q.base));
  }

  lemma KeptInOrder(fmt: Printer, path: Query.PathPrinter, q: StructuredQuery, rows: seq<Row>, srcs: seq<Sources>) returns (rows': seq<Row>)
    requires multiset(srcs) == multiset(Kept(fmt, path, q, rows))
    ensures multiset(rows') == multiset(rows) && Kept(fmt, path, q, rows') == srcs && (rows' == [] <==> rows == [])
  {
    var keep := Query.Keeper(fmt, path, PlainOf(q));
    var kept := Unmapped(Filter(rows, keep), BaseOf(q.base), srcs);
    rows' := WholeOrder(rows, keep, kept);
    SamePopulation(rows, rows');
  }

  /** A grouped query over one source has one answer, or one error, in whatever order the
      engine enumerates the rows, if and only if there are no rows, it is rejected or refused,
      or the groups of the rows it keeps are order-free. */
  lemma GroupedOverBaseIff(fmt: Printer, f64: Float64s, path: Query.PathPrinter, show: Shower, q: StructuredQuery, rows: seq<Row>)
    requires var k, srcs := SettingOf(fmt, show, q), Kept(fmt, path, q, rows);
             && Groupable(fmt, f64, k.q, k.known, srcs) && SettledQuery(k, RowSet(srcs))
             && (AllFine(ItemSet(k, srcs)) ==> HomogeneousItems(KeptOf(ItemSet(k, srcs)), |q.orderBy|))
    ensures var k, srcs := SettingOf(fmt, show, q), Kept(fmt, path, q, rows);
            (forall rows' | multiset(rows') == multiset(rows) ::
               GroupedOverBase(fmt, path, show, q, rows') == GroupedOverBase(fmt, path, show, q, rows))
            <==> rows == [] || OrderError(q.orderBy, k.known).Some? || GroupRefusal(show, k.q, k.known).Some? || OrderFree(k, ItemSet(k, srcs))
  {
    var k, srcs := SettingOf(fmt, show, q), Kept(fmt, path, q, rows);
    if rows != [] && OrderError(q.orderBy, k.known).None? {
      RowOrderForgottenIff(k, f64, srcs);
      GroupedIsAnswer(fmt, path, show, q, rows);
      if forall srcs' | multiset(srcs') == multiset(srcs) :: Answer(k, srcs') == Answer(k, srcs) {
        forall rows' | multiset(rows') == multiset(rows)
          ensures GroupedOverBase(fmt, path, show, q, rows') == GroupedOverBase(fmt, path, show, q, rows)
        {
          KeptPermutes(fmt, path, q, rows, rows');
          GroupedIsAnswer(fmt, path, show, q, rows');
        }
      } else {
        var srcs' :| multiset(srcs') == multiset(srcs) && Answer(k, srcs') != Answer(k, srcs);
        var rows' := KeptInOrder(fmt, path, q, rows, srcs');
        GroupedIsAnswer(fmt, path, show, q, rows');
        assert GroupedOverBase(fmt, path, show, q, rows') != GroupedOverBase(fmt, path, show, q, rows);
      }
    } else {
      forall rows' | multiset(rows') == multiset(rows)
        ensures GroupedOverBase(fmt, path, show, q, rows') == GroupedOverBase(fmt, path, show, q, rows)
      {
        SamePopulation(rows, rows');
      }
    }
  }
}
