/** What a grouped query answers, from rows to output rows. */
module GroupedAnswers {
  import opened Ordering
  import opened Traversal
  import opened Values
  import opened Where
  import opened Resolving
  import opened GroupKeys
  import opened Grouping
  import opened GroupedQuery
  import Query

  // ---- Groups by value -----------------------------------------------------------------

  function ValueOrNil(e: Expr, r: Sources, known: set<string>): Value {
    var v := Resolve(e, r, known);
    if v.Ok? then v.value.value else Nil
  }

  /** The GROUP BY values of a row. */
  function TupleOf(groupBy: seq<Expr>, known: set<string>, r: Sources): seq<Value> {
    seq(|groupBy|, i requires 0 <= i < |groupBy| => ValueOrNil(groupBy[i], r, known))
  }

  function Tuples(groupBy: seq<Expr>, known: set<string>, rows: seq<Sources>): seq<seq<Value>> {
    seq(|rows|, i requires 0 <= i < |rows| => TupleOf(groupBy, known, rows[i]))
  }

  /** Where each key is first seen. */
  function Places<K(==)>(keys: seq<K>): (r: seq<nat>)
    ensures forall p | 0 <= p < |r| :: r[p] < |keys|
  {
    if keys == [] then []
    else
      var n := |keys| - 1;
      Places(keys[..n]) + if keys[n] in FirstSeen(keys[..n]) then [] else [n]
  }

  lemma {:induction false} PlacesAre<K(!new)>(keys: seq<K>)
    ensures |Places(keys)| == |FirstSeen(keys)|
    ensures forall p | 0 <= p < |Places(keys)| :: FirstSeen(keys)[p] == keys[Places(keys)[p]]
  {
    if keys != [] {
      PlacesAre(keys[..|keys| - 1]);
    }
  }

  /** Two ways to label the rows that tell the same rows apart. */
  ghost predicate SamePattern<K(!new), L(!new)>(ks: seq<K>, ls: seq<L>) {
    |ks| == |ls| && forall i, j | 0 <= i < |ks| && 0 <= j < |ks| :: ks[i] == ks[j] <==> ls[i] == ls[j]
  }

  lemma {:induction false} PlacesSame<K(!new), L(!new)>(ks: seq<K>, ls: seq<L>)
    requires SamePattern(ks, ls)
    ensures Places(ks) == Places(ls)
  {
    if ks != [] {
      var n := |ks| - 1;
      PlacesSame(ks[..n], ls[..n]);
      FirstSeenLists(ks[..n]);
      FirstSeenLists(ls[..n]);
      if i :| 0 <= i < n && ks[..n][i] == ks[n] { assert ls[..n][i] == ls[n]; }
      if i :| 0 <= i < n && ls[..n][i] == ls[n] { assert ks[..n][i] == ks[n]; }
    }
  }

  lemma {:induction false} MembersSame<K(!new), L(!new)>(ks: seq<K>, ls: seq<L>, rows: seq<Sources>, k: K, l: L)
    requires |ks| == |ls| == |rows| && forall i | 0 <= i < |ks| :: ks[i] == k <==> ls[i] == l
    ensures Members(ks, rows, k) == Members(ls, rows, l)
  {
    if ks != [] {
      var n := |ks| - 1;
      MembersSame(ks[..n], ls[..n], rows[..n], k, l);
    }
  }

  lemma GroupsSame<K(!new), L(!new)>(ks: seq<K>, ls: seq<L>, rows: seq<Sources>)
    requires SamePattern(ks, ls) && |ks| == |rows|
    ensures Groups(ks, rows) == Groups(ls, rows)
  {
    PlacesSame(ks, ls);
    PlacesAre(ks);
    PlacesAre(ls);
    forall p | 0 <= p < |Places(ks)|
      ensures Groups(ks, rows)[p] == Groups(ls, rows)[p]
    {
      MembersSame(ks, ls, rows, FirstSeen(ks)[p], FirstSeen(ls)[p]);
    }
  }

  /** What the text key needs of the data to tell rows apart. */
  ghost predicate Groupable(fmt: Printer, f64: Float64s, q: GroupQuery, known: set<string>, rows: seq<Sources>) {
    && Faithful(fmt, f64)
    && (forall e | e in q.groupBy :: Resolvable(e, known))
    && (forall e, r | e in q.groupBy && r in rows :: Scalar(f64, ValueOrNil(e, r, known)) && NulFree(ValueOrNil(e, r, known)))
  }

  lemma KeysTellTuples(fmt: Printer, f64: Float64s, q: GroupQuery, known: set<string>, rows: seq<Sources>)
    requires Groupable(fmt, f64, q, known, rows) && Each(rows, RowKey(fmt, q.groupBy, known)).Ok?
    ensures SamePattern(Each(rows, RowKey(fmt, q.groupBy, known)).value, Tuples(q.groupBy, known, rows))
  {
    var keys := Each(rows, RowKey(fmt, q.groupBy, known)).value;
    var ts := Tuples(q.groupBy, known, rows);
    forall e, r | e in q.groupBy && r in rows
      ensures Resolve(e, r, known).value.value == ValueOrNil(e, r, known)
    {
    }
    forall i, j | 0 <= i < |rows| && 0 <= j < |rows|
      ensures keys[i] == keys[j] <==> ts[i] == ts[j]
    {
      SameGroupIffSameValues(fmt, f64, q.groupBy, known, rows, i, j);
      TuplesEqual(q.groupBy, known, rows[i], rows[j]);
    }
  }

  lemma TuplesEqual(groupBy: seq<Expr>, known: set<string>, r: Sources, s: Sources)
    requires forall e | e in groupBy :: Resolvable(e, known)
    ensures TupleOf(groupBy, known, r) == TupleOf(groupBy, known, s) <==>
            forall e | e in groupBy :: Resolve(e, r, known).value.value == Resolve(e, s, known).value.value
  {
    var a, b := TupleOf(groupBy, known, r), TupleOf(groupBy, known, s);
    if a == b {
      forall e | e in groupBy
        ensures Resolve(e, r, known).value.value == Resolve(e, s, known).value.value
      {
        var i :| 0 <= i < |groupBy| && groupBy[i] == e;
        assert a[i] == b[i];
      }
    }
    if forall e | e in groupBy :: Resolve(e, r, known).value.value == Resolve(e, s, known).value.value {
      forall i | 0 <= i < |groupBy|
        ensures a[i] == b[i]
      {
        assert groupBy[i] in groupBy;
      }
    }
  }

  lemma KeysResolve(fmt: Printer, groupBy: seq<Expr>, known: set<string>, rows: seq<Sources>)
    requires forall e | e in groupBy :: Resolvable(e, known)
    ensures Each(rows, RowKey(fmt, groupBy, known)).Ok?
  {
    forall i | 0 <= i < |rows|
      ensures RowKey(fmt, groupBy, known)(rows[i]).Ok?
    {
      forall j | 0 <= j < |groupBy|
        ensures ValueIn(rows[i], known)(groupBy[j]).Ok?
      {
        assert groupBy[j] in groupBy;
      }
    }
  }

  function ByValue(q: GroupQuery, known: set<string>, rows: seq<Sources>): seq<seq<Sources>> {
    Groups(Tuples(q.groupBy, known, rows), rows)
  }

  /** The answer groups rows by their values, as if no text key were involved. */
  lemma AnswerGroupsByValue(fmt: Printer, f64: Float64s, show: Shower, q: GroupQuery, known: set<string>, rows: seq<Sources>)
    requires Groupable(fmt, f64, q, known, rows) && GroupRefusal(show, q, known).None?
    ensures GroupedAnswer(fmt, show, q, known, rows) == Finish(fmt, show, q, known, ByValue(q, known, rows))
  {
    KeysResolve(fmt, q.groupBy, known, rows);
    KeysTellTuples(fmt, f64, q, known, rows);
    GroupsSame(Each(rows, RowKey(fmt, q.groupBy, known)).value, Tuples(q.groupBy, known, rows), rows);
  }

  // ---- Groups without HAVING, ORDER BY and paging ---------------------------------------------

  /** Only grouped and projected. */
  function Plainly(q: GroupQuery): GroupQuery {
    q.(having := None, orderBy := [], offset := 0, limit := 0)
  }

  lemma {:induction false} AllFlagged<T>(s: seq<T>, flags: seq<bool>)
    requires |s| == |flags| && forall i | 0 <= i < |flags| :: flags[i]
    ensures Flagged(s, flags) == s
  {
    if s != [] {
      AllFlagged(s[..|s| - 1], flags[..|s| - 1]);
      assert s == s[..|s| - 1] + [s[|s| - 1]];
    }
  }

  // ---- Two orders of two rows ---------------------------------------------------------------

  /** SELECT x GROUP BY x */
  const BY_X := GroupQuery([FieldRef("", "x")], [Column("", FieldRef("", "x"))], None, [], 0, 0)

  function RowX(x: string): Sources {
    map["" := map["x" := Str(x)]]
  }

  /** The rows x = a and x = b, in either order: each order is its own answer. */
  lemma TwoGroupedAnswers(fmt: Printer, f64: Float64s, show: Shower)
    requires Faithful(fmt, f64)
    ensures multiset([RowX("a"), RowX("b")]) == multiset([RowX("b"), RowX("a")])
    ensures GroupedAnswer(fmt, show, BY_X, {""}, [RowX("a"), RowX("b")]) == Ok([map["x" := Str("a")], map["x" := Str("b")]])
    ensures GroupedAnswer(fmt, show, BY_X, {""}, [RowX("b"), RowX("a")]) == Ok([map["x" := Str("b")], map["x" := Str("a")]])
  {
    AnswerOfTwo(fmt, f64, show, "a", "b");
    AnswerOfTwo(fmt, f64, show, "b", "a");
  }

  lemma AnswerOfTwo(fmt: Printer, f64: Float64s, show: Shower, a: string, b: string)
    requires Faithful(fmt, f64) && a != b && NUL !in a && NUL !in b
    ensures GroupedAnswer(fmt, show, BY_X, {""}, [RowX(a), RowX(b)]) == Ok([map["x" := Str(a)], map["x" := Str(b)]])
  {
    var rows := [RowX(a), RowX(b)];
    GroupsOfX(a, b);
    assert Groupable(fmt, f64, BY_X, {""}, rows) by {
      XIs(a);
      XIs(b);
    }
    AnswerGroupsByValue(fmt, f64, show, BY_X, {""}, rows);
    FinishTwo(fmt, show, a, b);
  }

  lemma XIs(a: string)
    ensures Resolve(FieldRef("", "x"), RowX(a), {""}) == Ok(Resolved(Str(a), true))
    ensures TupleOf(BY_X.groupBy, {""}, RowX(a)) == [Str(a)]
  {
  }

  lemma GroupsOfX(a: string, b: string)
    requires a != b
    ensures ByValue(BY_X, {""}, [RowX(a), RowX(b)]) == [[RowX(a)], [RowX(b)]]
  {
    XIs(a);
    XIs(b);
    assert Tuples(BY_X.groupBy, {""}, [RowX(a), RowX(b)]) == [[Str(a)], [Str(b)]];
    assert [Str(a)][0] != [Str(b)][0];
    TwoGroups([Str(a)], [Str(b)], RowX(a), RowX(b));
  }

  lemma FinishTwo(fmt: Printer, show: Shower, a: string, b: string)
    ensures Finish(fmt, show, BY_X, {""}, [[RowX(a)], [RowX(b)]]) == Ok([map["x" := Str(a)], map["x" := Str(b)]])
  {
    var parts := [[RowX(a)], [RowX(b)]];
    var groups := [AggGroup(parts[0], Some(map["x" := Str(a)])), AggGroup(parts[1], Some(map["x" := Str(b)]))];
    ProjectionOfX(fmt, show, a);
    ProjectionOfX(fmt, show, b);
    EachIs(parts, Projector(fmt, show, BY_X.columns, {""}), groups);
    PlainlyFinished(fmt, show, BY_X, {""}, parts, groups);
    assert Outs(groups) == [map["x" := Str(a)], map["x" := Str(b)]];
  }

  lemma PlainlyFinished(fmt: Printer, show: Shower, q: GroupQuery, known: set<string>, parts: seq<seq<Sources>>, groups: seq<AggGroup>)
    requires q == Plainly(q) && Each(parts, Projector(fmt, show, q.columns, known)) == Ok(groups)
    ensures Finish(fmt, show, q, known, parts) == Ok(Outs(groups))
  {
    forall i | 0 <= i < |groups|
      ensures HavingTest(fmt, None, known)(groups[i]) == Ok(true)
    {
    }
    var flags := seq(|groups|, i => true);
    EachIs(groups, HavingTest(fmt, None, known), flags);
    AllFlagged(groups, flags);
  }

  lemma ProjectionOfX(fmt: Printer, show: Shower, a: string)
    ensures Projector(fmt, show, BY_X.columns, {""})([RowX(a)]) == Ok(AggGroup([RowX(a)], Some(map["x" := Str(a)])))
  {
    var g := AggGroup([RowX(a)], None);
    XIs(a);
    assert BY_X.columns[..0] == [];
    assert ProjectGroup(fmt, show, BY_X.columns[..0], g, {""}) == Ok(map[]);
    assert GroupValue(fmt, FieldRef("", "x"), g, {""}) == Ok(Str(a));
  }

  // ---- One output row per tuple -----------------------------------------------------------

  /** Without HAVING, ORDER BY, OFFSET and LIMIT the output is the groups' projections. */
  lemma PlainFinish(fmt: Printer, show: Shower, q: GroupQuery, known: set<string>, parts: seq<seq<Sources>>)
    requires Finish(fmt, show, Plainly(q), known, parts).Ok?
    ensures Each(parts, Projector(fmt, show, q.columns, known)).Ok?
    ensures Finish(fmt, show, Plainly(q), known, parts).value == Outs(Each(parts, Projector(fmt, show, q.columns, known)).value)
  {
    var p := Plainly(q);
    var groups := Each(parts, Projector(fmt, show, p.columns, known)).value;
    var flags := Each(groups, HavingTest(fmt, p.having, known)).value;
    forall i | 0 <= i < |flags|
      ensures flags[i]
    {
      assert HavingTest(fmt, p.having, known)(groups[i]) == Ok(flags[i]);
    }
    AllFlagged(groups, flags);
  }

  /** Without HAVING, ORDER BY, OFFSET and LIMIT there is one output row per distinct
      tuple of GROUP BY values, in the order the tuples are first seen, projected from
      exactly the rows with that tuple. */
  lemma RowPerTuple(fmt: Printer, f64: Float64s, show: Shower, q: GroupQuery, known: set<string>, rows: seq<Sources>)
    requires Groupable(fmt, f64, q, known, rows) && GroupedAnswer(fmt, show, Plainly(q), known, rows).Ok?
    ensures var ts := Tuples(q.groupBy, known, rows);
            var answer := GroupedAnswer(fmt, show, Plainly(q), known, rows).value;
            && Distinct(FirstSeen(ts)) && (forall t :: t in FirstSeen(ts) <==> t in ts)
            && |answer| == |FirstSeen(ts)|
            && forall g | 0 <= g < |answer| ::
                 var members := Members(ts, rows, FirstSeen(ts)[g]);
                 && members != []
                 && (forall r :: r in members <==> exists i :: Belongs(ts, rows, i, r, FirstSeen(ts)[g]))
                 && ProjectGroup(fmt, show, q.columns, AggGroup(members, None), known) == Ok(answer[g])
  {
    var p := Plainly(q);
    var ts := Tuples(q.groupBy, known, rows);
    AnswerGroupsByValue(fmt, f64, show, p, known, rows);
    PlainFinish(fmt, show, q, known, ByValue(p, known, rows));
    FirstSeenLists(ts);
    var parts := ByValue(p, known, rows);
    var groups := Each(parts, Projector(fmt, show, q.columns, known)).value;
    var answer := GroupedAnswer(fmt, show, p, known, rows).value;
    forall g | 0 <= g < |answer|
      ensures var members := Members(ts, rows, FirstSeen(ts)[g]);
              && members != []
              && (forall r :: r in members <==> exists i :: Belongs(ts, rows, i, r, FirstSeen(ts)[g]))
              && ProjectGroup(fmt, show, q.columns, AggGroup(members, None), known) == Ok(answer[g])
    {
      assert FirstSeen(ts)[g] in FirstSeen(ts);
      MembersOf(ts, rows, FirstSeen(ts)[g]);
      assert Projector(fmt, show, q.columns, known)(parts[g]) == Ok(groups[g]);
    }
  }

  // ---- OFFSET, LIMIT and HAVING --------------------------------------------------------------

  function Unpaged(q: GroupQuery): GroupQuery {
    q.(offset := 0, limit := 0)
  }

  lemma OutsPaged(groups: seq<AggGroup>, offset: int, limit: int)
    ensures Outs(Paged(groups, offset, limit)) == Paged(Outs(groups), offset, limit)
  {
  }

  /** OFFSET and LIMIT are a window on the answer without them. */
  lemma PagingIsWindow(fmt: Printer, show: Shower, q: GroupQuery, known: set<string>, rows: seq<Sources>)
    ensures GroupedAnswer(fmt, show, q, known, rows) ==
            match GroupedAnswer(fmt, show, Unpaged(q), known, rows)
            case Err(e) => Err(e)
            case Ok(all) => Ok(Paged(all, q.offset, q.limit))
  {
    assert GroupRefusal(show, Unpaged(q), known) == GroupRefusal(show, q, known);
    if GroupRefusal(show, q, known).None? && Each(rows, RowKey(fmt, q.groupBy, known)).Ok? {
      var parts := Groups(Each(rows, RowKey(fmt, q.groupBy, known)).value, rows);
      FinishPaged(fmt, show, q, known, parts);
    }
  }

  lemma FinishPaged(fmt: Printer, show: Shower, q: GroupQuery, known: set<string>, parts: seq<seq<Sources>>)
    ensures Finish(fmt, show, q, known, parts) ==
            match Finish(fmt, show, Unpaged(q), known, parts)
            case Err(e) => Err(e)
            case Ok(all) => Ok(Paged(all, q.offset, q.limit))
  {
    var groups := Each(parts, Projector(fmt, show, q.columns, known));
    if groups.Ok? {
      var flags := Each(groups.value, HavingTest(fmt, q.having, known));
      if flags.Ok? {
        var sorted := Ordered(fmt, q.orderBy, known, Flagged(groups.value, flags.value));
        if sorted.Ok? {
          OutsPaged(sorted.value, q.offset, q.limit);
          assert Paged(sorted.value, 0, 0) == sorted.value;
        }
      }
    }
  }

  lemma {:induction false} OutsFlagged(groups: seq<AggGroup>, flags: seq<bool>)
    requires |groups| == |flags|
    ensures Outs(Flagged(groups, flags)) == Flagged(Outs(groups), flags)
  {
    if groups != [] {
      var n := |groups| - 1;
      OutsFlagged(groups[..n], flags[..n]);
      assert Outs(groups)[..n] == Outs(groups[..n]);
      assert Outs(Flagged(groups, flags)) == Outs(Flagged(groups[..n], flags[..n])) + if flags[n] then [Outs(groups)[n]] else [];
    }
  }

  /** HAVING keeps of the groups' rows exactly those of groups it holds of, in place. */
  lemma HavingFilters(fmt: Printer, show: Shower, q: GroupQuery, known: set<string>, parts: seq<seq<Sources>>) returns (flags: seq<bool>)
    requires q.having.Some? && Finish(fmt, show, Plainly(q).(having := q.having), known, parts).Ok?
    ensures Finish(fmt, show, Plainly(q), known, parts).Ok? && |flags| == |parts|
    ensures |Finish(fmt, show, Plainly(q), known, parts).value| == |parts|
    ensures Finish(fmt, show, Plainly(q).(having := q.having), known, parts).value ==
            Flagged(Finish(fmt, show, Plainly(q), known, parts).value, flags)
    ensures forall g | 0 <= g < |parts| ::
              && parts[g] != []
              && MatchesHaving(fmt, q.having.value, AggGroup(parts[g], Some(Finish(fmt, show, Plainly(q), known, parts).value[g])), known) == Ok(flags[g])
  {
    var h := Plainly(q).(having := q.having);
    var groups := Each(parts, Projector(fmt, show, q.columns, known)).value;
    flags := Each(groups, HavingTest(fmt, q.having, known)).value;
    forall i | 0 <= i < |groups|
      ensures HavingTest(fmt, None, known)(groups[i]) == Ok(true)
    {
    }
    EachIs(groups, HavingTest(fmt, None, known), seq(|groups|, i => true));
    PlainFinish(fmt, show, q, known, parts);
    OutsFlagged(groups, flags);
    forall g | 0 <= g < |parts|
      ensures parts[g] != []
      ensures MatchesHaving(fmt, q.having.value, AggGroup(parts[g], Some(Outs(groups)[g])), known) == Ok(flags[g])
    {
      assert Projector(fmt, show, q.columns, known)(parts[g]) == Ok(groups[g]);
      assert HavingTest(fmt, q.having, known)(groups[g]) == Ok(flags[g]);
    }
  }

  // ---- ORDER BY rearranges -----------------------------------------------------------------------

  lemma UngroupPermutes(ks: seq<Keyed>, sorted: seq<Keyed>)
    requires multiset(ks) == multiset(sorted)
    ensures multiset(Ungroup(ks)) == multiset(Ungroup(sorted))
  {
    MapPermutes(ks, sorted, (k: Keyed) => k.group);
    assert Ungroup(ks) == Map(ks, (k: Keyed) => k.group);
    assert Ungroup(sorted) == Map(sorted, (k: Keyed) => k.group);
  }

  lemma {:induction false} MapPermutes<S(!new), T(!new)>(a: seq<S>, b: seq<S>, f: S -> T)
    requires multiset(a) == multiset(b)
    ensures multiset(Map(a, f)) == multiset(Map(b, f))
    decreases |a|
  {
    SamePopulation(a, b);
    if a == [] {
      assert Map(a, f) == [] && Map(b, f) == [];
    } else {
      var n := |a| - 1;
      assert a[n] in b;
      var i :| 0 <= i < |b| && b[i] == a[n];
      SameWithoutOne(a, b, i);
      MapPermutes(a[..n], b[..i] + b[i + 1..], f);
      MapTakesOut(a, n, f);
      MapTakesOut(b, i, f);
      assert a[..n] + a[n + 1..] == a[..n];
    }
  }

  lemma MapTakesOut<S(!new), T(!new)>(s: seq<S>, i: nat, f: S -> T)
    requires i < |s|
    ensures multiset(Map(s, f)) == multiset(Map(s[..i] + s[i + 1..], f)) + multiset{f(s[i])}
  {
    var left, right := Map(s[..i], f), Map(s[i + 1..], f);
    assert Map(s, f) == left + [f(s[i])] + right;
    assert Map(s[..i] + s[i + 1..], f) == left + right;
  }

  /** ORDER BY only rearranges the groups. */
  lemma OrderedPermutes(fmt: Printer, orderBy: seq<OrderKey>, known: set<string>, groups: seq<AggGroup>)
    requires Ordered(fmt, orderBy, known, groups).Ok?
    ensures multiset(Ordered(fmt, orderBy, known, groups).value) == multiset(groups)
  {
    if orderBy != [] {
      var keys := Each(groups, OrderKeys(fmt, orderBy, known)).value;
      var ks := ZipKeys(groups, keys);
      SortIsPermutation(ks, KeyedLess(fmt, orderBy));
      UngroupPermutes(ks, SortBy(ks, KeyedLess(fmt, orderBy)));
      assert Ungroup(ks) == groups;
    }
  }

  // ---- Columns add up ----------------------------------------------------------------------------

  /** A column of the output, added up. */
  function ColumnTotal(out: seq<Fields>, name: string): real {
    Weight(out, Under(name))
  }

  function Under(name: string): Fields -> real {
    (f: Fields) => NumberUnder(f, name)
  }

  lemma ColumnSnoc(out: seq<Fields>, name: string)
    requires out != []
    ensures ColumnTotal(out, name) == ColumnTotal(out[..|out| - 1], name) + NumberUnder(out[|out| - 1], name)
  {
  }

  function NumberUnder(f: Fields, name: string): real {
    if Number(At(f, name)).Some? then Number(At(f, name)).value else 0.0
  }

  /** No later column takes the name of column j. */
  predicate Named(show: Shower, columns: seq<Column>, j: nat) {
    j < |columns| && forall k | j < k < |columns| :: ColumnOutKey(show, columns[k]) != ColumnOutKey(show, columns[j])
  }

  lemma {:induction false} ProjectedColumn(fmt: Printer, show: Shower, columns: seq<Column>, g: AggGroup, known: set<string>, j: nat)
    requires g.rows != [] && Named(show, columns, j) && ProjectGroup(fmt, show, columns, g, known).Ok?
    ensures GroupValue(fmt, columns[j].expr, g, known).Ok?
    ensures ColumnOutKey(show, columns[j]) in ProjectGroup(fmt, show, columns, g, known).value
    ensures ProjectGroup(fmt, show, columns, g, known).value[ColumnOutKey(show, columns[j])] ==
            GroupValue(fmt, columns[j].expr, g, known).value
  {
    var n := |columns| - 1;
    if j < n {
      assert columns[..n][j] == columns[j] && forall k | j < k < n :: columns[..n][k] == columns[k];
      ProjectedColumn(fmt, show, columns[..n], g, known, j);
    }
  }

  lemma {:induction false} OutsTotal(fmt: Printer, show: Shower, columns: seq<Column>, known: set<string>, parts: seq<seq<Sources>>, j: nat, fn: AggregateFn, e: Expr)
    requires Named(show, columns, j) && columns[j].expr == Aggregate(fn, [e])
    requires Each(parts, Projector(fmt, show, columns, known)).Ok?
    ensures ColumnTotal(Outs(Each(parts, Projector(fmt, show, columns, known)).value), ColumnOutKey(show, columns[j])) ==
            ReportedTotal(fmt, fn, e, known, parts)
    decreases |parts|
  {
    var groups := Each(parts, Projector(fmt, show, columns, known)).value;
    var name := ColumnOutKey(show, columns[j]);
    if parts != [] {
      var n := |parts| - 1;
      OutsTotal(fmt, show, columns, known, parts[..n], j, fn, e);
      OutOfLast(fmt, show, columns, known, parts, j, fn, e);
      ColumnSnoc(Outs(groups), name);
    }
  }

  lemma OutOfLast(fmt: Printer, show: Shower, columns: seq<Column>, known: set<string>, parts: seq<seq<Sources>>, j: nat, fn: AggregateFn, e: Expr)
    requires Named(show, columns, j) && columns[j].expr == Aggregate(fn, [e]) && parts != []
    requires Each(parts, Projector(fmt, show, columns, known)).Ok?
    ensures var n := |parts| - 1;
            var out := Outs(Each(parts, Projector(fmt, show, columns, known)).value);
            && Each(parts[..n], Projector(fmt, show, columns, known)).Ok?
            && out[..n] == Outs(Each(parts[..n], Projector(fmt, show, columns, known)).value)
            && NumberUnder(out[n], ColumnOutKey(show, columns[j])) == Reported(Evaluate(fmt, fn, [e], known, parts[n]))
  {
    var n := |parts| - 1;
    var groups := Each(parts, Projector(fmt, show, columns, known)).value;
    EachSnoc(parts, Projector(fmt, show, columns, known));
    OutsButLast(groups);
    OutNumber(fmt, show, columns, known, parts[n], groups[n], j, fn, e);
  }

  lemma OutsButLast(groups: seq<AggGroup>)
    requires groups != []
    ensures var n := |groups| - 1;
            && Outs(groups)[..n] == Outs(groups[..n])
            && (groups[n].out.Some? ==> Outs(groups)[n] == groups[n].out.value)
  {
  }

  lemma OutNumber(fmt: Printer, show: Shower, columns: seq<Column>, known: set<string>, part: seq<Sources>, g: AggGroup, j: nat, fn: AggregateFn, e: Expr)
    requires Named(show, columns, j) && columns[j].expr == Aggregate(fn, [e])
    requires Projector(fmt, show, columns, known)(part) == Ok(g)
    ensures g.out.Some? && NumberUnder(g.out.value, ColumnOutKey(show, columns[j])) == Reported(Evaluate(fmt, fn, [e], known, part))
  {
    ProjectedColumn(fmt, show, columns, AggGroup(part, None), known, j);
    assert GroupValue(fmt, columns[j].expr, AggGroup(part, None), known) == Evaluate(fmt, fn, [e], known, part);
  }

  lemma OutsPermute(a: seq<AggGroup>, b: seq<AggGroup>)
    requires multiset(a) == multiset(b)
    ensures multiset(Outs(a)) == multiset(Outs(b))
  {
    var f := (g: AggGroup) => if g.out.Some? then g.out.value else map[];
    MapPermutes(a, b, f);
    assert Outs(a) == Map(a, f) && Outs(b) == Map(b, f);
  }

  /** Without HAVING, OFFSET and LIMIT, whatever the ORDER BY, the COUNT or SUM column
      of the answer adds up to the COUNT or SUM over all rows. */
  lemma ColumnAddsUp(fmt: Printer, show: Shower, q: GroupQuery, known: set<string>, rows: seq<Sources>, j: nat, fn: AggregateFn, e: Expr)
    requires q.having.None? && q.offset <= 0 && q.limit <= 0 && GroupedAnswer(fmt, show, q, known, rows).Ok?
    requires Named(show, q.columns, j) && q.columns[j].expr == Aggregate(fn, [e]) && fn in {Count, Sum} && Resolvable(e, known)
    ensures ColumnTotal(GroupedAnswer(fmt, show, q, known, rows).value, ColumnOutKey(show, q.columns[j])) ==
            Reported(Evaluate(fmt, fn, [e], known, rows))
  {
    var name := ColumnOutKey(show, q.columns[j]);
    var keys := Each(rows, RowKey(fmt, q.groupBy, known)).value;
    var parts := Groups(keys, rows);
    FinishTotal(fmt, show, q, known, parts, name);
    OutsTotal(fmt, show, q.columns, known, parts, j, fn, e);
    AggregatesConserve(fmt, fn, e, known, keys, rows);
  }

  lemma FinishTotal(fmt: Printer, show: Shower, q: GroupQuery, known: set<string>, parts: seq<seq<Sources>>, name: string)
    requires q.having.None? && q.offset <= 0 && q.limit <= 0 && Finish(fmt, show, q, known, parts).Ok?
    ensures Each(parts, Projector(fmt, show, q.columns, known)).Ok?
    ensures ColumnTotal(Finish(fmt, show, q, known, parts).value, name) ==
            ColumnTotal(Outs(Each(parts, Projector(fmt, show, q.columns, known)).value), name)
  {
    var groups := Each(parts, Projector(fmt, show, q.columns, known)).value;
    var flags := Each(groups, HavingTest(fmt, q.having, known)).value;
    forall i | 0 <= i < |flags|
      ensures flags[i]
    {
      assert HavingTest(fmt, q.having, known)(groups[i]) == Ok(flags[i]);
    }
    AllFlagged(groups, flags);
    var sorted := Ordered(fmt, q.orderBy, known, groups).value;
    OrderedPermutes(fmt, q.orderBy, known, groups);
    OutsPermute(sorted, groups);
    assert Paged(sorted, q.offset, q.limit) == sorted;
    WeightForgetsOrder(Outs(sorted), Outs(groups), Under(name));
  }
}
