/** The grouped query from matched rows to result rows. */
module GroupedQuery {
  import opened Ordering
  import opened Traversal
  import opened Values
  import opened Where
  import opened Resolving
  import opened GroupKeys
  import opened Grouping
  import Query

  // ---- Values of a group ------------------------------------------------------------------

  /** A group: its member rows and, once projected, its output row. */
  datatype AggGroup = AggGroup(rows: seq<Sources>, out: Option<Fields>)

  /** resolveGroupValue: an aggregate over the members, a projected alias, a member
      row's field, or a constant. */
  function GroupValue(fmt: Printer, e: Expr, g: AggGroup, known: set<string>): Result<Value, QueryError>
    requires g.rows != []
  {
    match e
    case Aggregate(fn, args) => Evaluate(fmt, fn, args, known, g.rows)
    case FieldRef(source, name) =>
      if source == "" && g.out.Some? && name in g.out.value then Ok(g.out.value[name])
      else (
        match Resolve(e, g.rows[0], known)
        case Err(err) => Err(err)
        case Ok(v) => Ok(v.value))
    case Constant(value) => Ok(Norm(value))
    case _ => Err(Unsupported)
  }

  /** matchesHaving: OR needs one condition, any other group needs all; what decides
      first hides later errors. */
  function MatchesHaving(fmt: Printer, cond: Cond, g: AggGroup, known: set<string>): Result<bool, QueryError>
    requires g.rows != []
    decreases cond
  {
    match cond
    case Comparison(op, left, right) => (
      match GroupValue(fmt, left, g, known)
      case Err(e) => Err(e)
      case Ok(l) =>
        match GroupValue(fmt, right, g, known)
        case Err(e) => Err(e)
        case Ok(r) => Ok(CompareOp(fmt, op, l, r)))
    case Group(op, conds) => HavingGroup(fmt, conds, op == Or, g, known)
    case OtherCond => Err(Unsupported)
  }

  /** Conditions in order until one equals stop; none does means the opposite. */
  function HavingGroup(fmt: Printer, conds: seq<Cond>, stop: bool, g: AggGroup, known: set<string>): Result<bool, QueryError>
    requires g.rows != []
    decreases conds
  {
    if conds == [] then Ok(!stop)
    else
      match MatchesHaving(fmt, conds[0], g, known)
      case Err(e) => Err(e)
      case Ok(holds) => if holds == stop then Ok(stop) else HavingGroup(fmt, conds[1..], stop, g, known)
  }

  /** Without errors, an OR group holds when some condition does, any other when all do. */
  lemma {:induction false} HavingMeans(fmt: Printer, conds: seq<Cond>, stop: bool, g: AggGroup, known: set<string>)
    requires g.rows != [] && forall i | 0 <= i < |conds| :: MatchesHaving(fmt, conds[i], g, known).Ok?
    ensures HavingGroup(fmt, conds, stop, g, known) ==
            Ok((exists i :: 0 <= i < |conds| && MatchesHaving(fmt, conds[i], g, known) == Ok(stop)) == stop)
  {
    if conds != [] {
      HavingMeans(fmt, conds[1..], stop, g, known);
      assert forall i | 0 < i < |conds| :: conds[1..][i - 1] == conds[i];
      if i :| 0 <= i < |conds[1..]| && MatchesHaving(fmt, conds[1..][i], g, known) == Ok(stop) {
        assert MatchesHaving(fmt, conds[i + 1], g, known) == Ok(stop);
      }
    }
  }

  // ---- The steps of executeGroupedReader ---------------------------------------------------

  /** The error for the first GROUP BY field of an unknown source. */
  function GroupSourceError(groupBy: seq<Expr>, known: set<string>): (r: Option<QueryError>)
    ensures r.None? <==> forall i | 0 <= i < |groupBy| :: groupBy[i].FieldRef? && groupBy[i].source != "" ==> groupBy[i].source in known
  {
    if groupBy == [] then None
    else if groupBy[0].FieldRef? && groupBy[0].source != "" && groupBy[0].source !in known then Some(UnknownSource(groupBy[0].name))
    else GroupSourceError(groupBy[1..], known)
  }

  /** A selected column is an aggregate or prints like a GROUP BY expression. */
  predicate Grouped(show: Shower, groupBy: seq<Expr>, c: Column) {
    c.expr.Aggregate? || exists i | 0 <= i < |groupBy| :: show(groupBy[i]) == show(c.expr)
  }

  function GroupRuleError(show: Shower, groupBy: seq<Expr>, columns: seq<Column>, i: nat): Option<QueryError>
    requires i <= |columns|
    decreases |columns| - i
  {
    if i == |columns| then None
    else if !Grouped(show, groupBy, columns[i]) then Some(NotGrouped(i))
    else GroupRuleError(show, groupBy, columns, i + 1)
  }

  function ValueIn(r: Sources, known: set<string>): Expr -> Result<Value, QueryError> {
    (e: Expr) => var v := Resolve(e, r, known); if v.Err? then Err(v.error) else Ok(v.value.value)
  }

  /** groupKey */
  function RowKey(fmt: Printer, groupBy: seq<Expr>, known: set<string>): Sources -> Result<string, QueryError> {
    (r: Sources) =>
      match Each(groupBy, ValueIn(r, known))
      case Err(e) => Err(e)
      case Ok(vs) => Ok(KeyOf(fmt, vs))
  }

  function ColumnOutKey(show: Shower, c: Column): string {
    if c.alias != "" then c.alias
    else if c.expr.FieldRef? then c.expr.name
    else show(c.expr)
  }

  function ProjectGroup(fmt: Printer, show: Shower, columns: seq<Column>, g: AggGroup, known: set<string>): Result<Fields, QueryError>
    requires g.rows != []
  {
    if columns == [] then Ok(map[])
    else
      var n := |columns| - 1;
      match ProjectGroup(fmt, show, columns[..n], g, known)
      case Err(e) => Err(e)
      case Ok(out) =>
        match GroupValue(fmt, columns[n].expr, g, known)
        case Err(e) => Err(e)
        case Ok(v) => Ok(out[ColumnOutKey(show, columns[n]) := v])
  }

  /** Members are never empty, so the steps below only meet the first branch. */
  function Projector(fmt: Printer, show: Shower, columns: seq<Column>, known: set<string>): seq<Sources> -> Result<AggGroup, QueryError> {
    (rows: seq<Sources>) =>
      if rows == [] then Err(Unsupported)
      else
        match ProjectGroup(fmt, show, columns, AggGroup(rows, None), known)
        case Err(e) => Err(e)
        case Ok(out) => Ok(AggGroup(rows, Some(out)))
  }

  /** Whether HAVING keeps a group. */
  function HavingTest(fmt: Printer, having: Option<Cond>, known: set<string>): AggGroup -> Result<bool, QueryError> {
    (g: AggGroup) =>
      if having.None? then Ok(true)
      else if g.rows == [] then Err(Unsupported)
      else MatchesHaving(fmt, having.value, g, known)
  }

  function OrderKeys(fmt: Printer, orderBy: seq<OrderKey>, known: set<string>): AggGroup -> Result<seq<Value>, QueryError> {
    (g: AggGroup) =>
      if g.rows == [] then Err(Unsupported)
      else Each(orderBy, KeyValueOf(fmt, g, known))
  }

  function KeyValueOf(fmt: Printer, g: AggGroup, known: set<string>): OrderKey -> Result<Value, QueryError>
    requires g.rows != []
  {
    (k: OrderKey) => GroupValue(fmt, k.expr, g, known)
  }

  /** The groups whose flag is set. */
  function Flagged<T>(s: seq<T>, flags: seq<bool>): seq<T>
    requires |s| == |flags|
  {
    if s == [] then [] else Flagged(s[..|s| - 1], flags[..|s| - 1]) + if flags[|s| - 1] then [s[|s| - 1]] else []
  }

  datatype Keyed = Keyed(group: AggGroup, keys: seq<Value>)

  /** The comparator over precomputed sort keys; ties keep their order. */
  function KeysCompare(fmt: Printer, orderBy: seq<OrderKey>, a: seq<Value>, b: seq<Value>): int
    requires |orderBy| == |a| == |b|
  {
    if orderBy == [] then 0
    else
      var c := Compare(fmt, a[0], b[0]);
      var d := if orderBy[0].descending then -c else c;
      if d != 0 then d else KeysCompare(fmt, orderBy[1..], a[1..], b[1..])
  }

  function KeyedLess(fmt: Printer, orderBy: seq<OrderKey>): (Keyed, Keyed) -> bool {
    (a: Keyed, b: Keyed) => |a.keys| == |b.keys| == |orderBy| && KeysCompare(fmt, orderBy, a.keys, b.keys) < 0
  }

  function ZipKeys(groups: seq<AggGroup>, keys: seq<seq<Value>>): (r: seq<Keyed>)
    requires |groups| == |keys|
    ensures |r| == |groups| && forall i | 0 <= i < |r| :: r[i] == Keyed(groups[i], keys[i])
  {
    seq(|groups|, i requires 0 <= i < |groups| => Keyed(groups[i], keys[i]))
  }

  function Ungroup(ks: seq<Keyed>): seq<AggGroup> {
    seq(|ks|, i requires 0 <= i < |ks| => ks[i].group)
  }

  function Ordered(fmt: Printer, orderBy: seq<OrderKey>, known: set<string>, groups: seq<AggGroup>): Result<seq<AggGroup>, QueryError> {
    if orderBy == [] then Ok(groups)
    else
      match Each(groups, OrderKeys(fmt, orderBy, known))
      case Err(e) => Err(e)
      case Ok(keys) => Ok(Ungroup(SortBy(ZipKeys(groups, keys), KeyedLess(fmt, orderBy))))
  }

  /** OFFSET, then LIMIT. */
  function Paged<T>(s: seq<T>, offset: int, limit: int): seq<T> {
    var rest := if offset <= 0 then s else if offset >= |s| then [] else s[offset..];
    Query.Limited(rest, limit)
  }

  function Outs(groups: seq<AggGroup>): seq<Fields> {
    seq(|groups|, i requires 0 <= i < |groups| => if groups[i].out.Some? then groups[i].out.value else map[])
  }

  /** From the partition on: project, HAVING, ORDER BY, OFFSET and LIMIT. */
  function Finish(fmt: Printer, show: Shower, q: GroupQuery, known: set<string>, parts: seq<seq<Sources>>): Result<seq<Fields>, QueryError> {
    match Each(parts, Projector(fmt, show, q.columns, known))
    case Err(e) => Err(e)
    case Ok(groups) =>
      match Each(groups, HavingTest(fmt, q.having, known))
      case Err(e) => Err(e)
      case Ok(flags) =>
        match Ordered(fmt, q.orderBy, known, Flagged(groups, flags))
        case Err(e) => Err(e)
        case Ok(sorted) => Ok(Outs(Paged(sorted, q.offset, q.limit)))
  }

  /** What is refused before any row is looked at. */
  function GroupRefusal(show: Shower, q: GroupQuery, known: set<string>): Option<QueryError> {
    var err := GroupSourceError(q.groupBy, known);
    if err.Some? then err else GroupRuleError(show, q.groupBy, q.columns, 0)
  }

  /** The output rows of a grouped query over its matched rows; a result's key is its
      position. */
  function GroupedAnswer(fmt: Printer, show: Shower, q: GroupQuery, known: set<string>, rows: seq<Sources>): Result<seq<Fields>, QueryError> {
    if GroupRefusal(show, q, known).Some? then Err(GroupRefusal(show, q, known).value)
    else
      match Each(rows, RowKey(fmt, q.groupBy, known))
      case Err(e) => Err(e)
      case Ok(keys) => Finish(fmt, show, q, known, Groups(keys, rows))
  }

  method ExecuteGrouped(fmt: Printer, show: Shower, q: GroupQuery, known: set<string>, rows: seq<Sources>)
      returns (r: Result<seq<Fields>, QueryError>)
    ensures r == GroupedAnswer(fmt, show, q, known, rows)
  {
    var err := GroupSourceError(q.groupBy, known);
    if err.Some? {
      return Err(err.value);
    }
    for i := 0 to |q.columns|
      invariant GroupRuleError(show, q.groupBy, q.columns, 0) == GroupRuleError(show, q.groupBy, q.columns, i)
    {
      if !Grouped(show, q.groupBy, q.columns[i]) {
        return Err(NotGrouped(i));
      }
    }
    var keys := RunEach(rows, RowKey(fmt, q.groupBy, known));
    if keys.Err? {
      return Err(keys.error);
    }
    var parts := Partition(keys.value, rows);
    var groups := RunEach(parts, Projector(fmt, show, q.columns, known));
    if groups.Err? {
      return Err(groups.error);
    }
    var flags := RunEach(groups.value, HavingTest(fmt, q.having, known));
    if flags.Err? {
      return Err(flags.error);
    }
    var kept := KeepFlagged(groups.value, flags.value);
    if |q.orderBy| > 0 {
      var sortKeys := RunEach(kept, OrderKeys(fmt, q.orderBy, known));
      if sortKeys.Err? {
        return Err(sortKeys.error);
      }
      kept := Ungroup(SortBy(ZipKeys(kept, sortKeys.value), KeyedLess(fmt, q.orderBy)));
    }
    r := Ok(Outs(Paged(kept, q.offset, q.limit)));
  }

  method KeepFlagged<T>(s: seq<T>, flags: seq<bool>) returns (kept: seq<T>)
    requires |s| == |flags|
    ensures kept == Flagged(s, flags)
  {
    kept := [];
    for i := 0 to |s|
      invariant kept == Flagged(s[..i], flags[..i])
    {
      assert s[..i + 1][..i] == s[..i] && flags[..i + 1][..i] == flags[..i];
      if flags[i] {
        kept := kept + [s[i]];
      }
    }
    assert s[..|s|] == s && flags[..|s|] == flags;
  }

  // ---- Groups and values -----------------------------------------------------------------

  /** A group's rows all agree on every GROUP BY expression, and rows of different
      groups differ on some: grouping is by value. */
  lemma SameGroupIffSameValues(fmt: Printer, f64: Float64s, groupBy: seq<Expr>, known: set<string>, rows: seq<Sources>, i: nat, j: nat)
    requires Faithful(fmt, f64) && i < |rows| && j < |rows|
    requires Each(rows, RowKey(fmt, groupBy, known)).Ok?
    requires forall e | e in groupBy :: Resolvable(e, known)
    requires forall e, r | e in groupBy && r in rows ::
               var v := Resolve(e, r, known).value.value; Scalar(f64, v) && NulFree(v)
    ensures var keys := Each(rows, RowKey(fmt, groupBy, known)).value;
            keys[i] == keys[j] <==> forall e | e in groupBy :: Resolve(e, rows[i], known).value.value == Resolve(e, rows[j], known).value.value
  {
    var keys := Each(rows, RowKey(fmt, groupBy, known)).value;
    assert rows[i] in rows && rows[j] in rows;
    var vs := RowValues(fmt, groupBy, known, rows[i]);
    var ws := RowValues(fmt, groupBy, known, rows[j]);
    assert keys[i] == KeyOf(fmt, vs) && keys[j] == KeyOf(fmt, ws);
    forall k | 0 <= k < |groupBy|
      ensures Scalar(f64, vs[k]) && NulFree(vs[k]) && Scalar(f64, ws[k]) && NulFree(ws[k])
    {
      assert groupBy[k] in groupBy;
    }
    KeyInjective(fmt, f64, vs, ws);
    ValuesAgree(groupBy, known, rows[i], rows[j], vs, ws);
  }

  lemma RowValues(fmt: Printer, groupBy: seq<Expr>, known: set<string>, r: Sources) returns (vs: seq<Value>)
    requires forall e | e in groupBy :: Resolvable(e, known)
    ensures |vs| == |groupBy| && forall k | 0 <= k < |groupBy| :: Resolve(groupBy[k], r, known).Ok? && vs[k] == Resolve(groupBy[k], r, known).value.value
    ensures RowKey(fmt, groupBy, known)(r) == Ok(KeyOf(fmt, vs))
  {
    forall k | 0 <= k < |groupBy|
      ensures ValueIn(r, known)(groupBy[k]).Ok?
    {
      assert groupBy[k] in groupBy;
    }
    vs := Each(groupBy, ValueIn(r, known)).value;
    forall k | 0 <= k < |groupBy|
      ensures Resolve(groupBy[k], r, known).Ok? && vs[k] == Resolve(groupBy[k], r, known).value.value
    {
      assert ValueIn(r, known)(groupBy[k]) == Ok(vs[k]);
    }
  }

  lemma ValuesAgree(groupBy: seq<Expr>, known: set<string>, r: Sources, s: Sources, vs: seq<Value>, ws: seq<Value>)
    requires |vs| == |ws| == |groupBy| && forall e | e in groupBy :: Resolvable(e, known)
    requires forall k | 0 <= k < |groupBy| :: groupBy[k] in groupBy && vs[k] == Resolve(groupBy[k], r, known).value.value && ws[k] == Resolve(groupBy[k], s, known).value.value
    ensures vs == ws <==> forall e | e in groupBy :: Resolve(e, r, known).value.value == Resolve(e, s, known).value.value
  {
    if vs == ws {
      forall e | e in groupBy
        ensures Resolve(e, r, known).value.value == Resolve(e, s, known).value.value
      {
        var k :| 0 <= k < |groupBy| && groupBy[k] == e;
      }
    } else {
      var k :| 0 <= k < |groupBy| && vs[k] != ws[k];
      assert groupBy[k] in groupBy;
    }
  }

  /** A projected GROUP BY column does not depend on which member represents the
      group. */
  lemma RepresentativeIrrelevant(fmt: Printer, f64: Float64s, groupBy: seq<Expr>, known: set<string>, rows: seq<Sources>, g: nat, a: Sources, b: Sources, e: Expr)
    requires Faithful(fmt, f64) && Each(rows, RowKey(fmt, groupBy, known)).Ok?
    requires forall e | e in groupBy :: Resolvable(e, known)
    requires forall e, r | e in groupBy && r in rows ::
               var v := Resolve(e, r, known).value.value; Scalar(f64, v) && NulFree(v)
    requires var groups := Groups(Each(rows, RowKey(fmt, groupBy, known)).value, rows);
             g < |groups| && a in groups[g] && b in groups[g]
    requires e in groupBy
    ensures Resolve(e, a, known).value.value == Resolve(e, b, known).value.value
  {
    var keys := Each(rows, RowKey(fmt, groupBy, known)).value;
    var k := FirstSeen(keys)[g];
    MembersOf(keys, rows, k);
    var i :| Belongs(keys, rows, i, a, k);
    var j :| Belongs(keys, rows, j, b, k);
    SameGroupIffSameValues(fmt, f64, groupBy, known, rows, i, j);
  }

  // ---- Row order ---------------------------------------------------------------------------

  function IndexedRow(keys: seq<string>, rows: seq<Sources>): seq<(string, Sources)>
    requires |keys| == |rows|
  {
    seq(|keys|, i requires 0 <= i < |keys| => (keys[i], rows[i]))
  }

  lemma {:induction false} MembersCount(keys: seq<string>, rows: seq<Sources>, k: string, r: Sources)
    requires |keys| == |rows|
    ensures multiset(Members(keys, rows, k))[r] == multiset(IndexedRow(keys, rows))[(k, r)]
  {
    if keys != [] {
      var n := |keys| - 1;
      MembersCount(keys[..n], rows[..n], k, r);
      assert IndexedRow(keys, rows) == IndexedRow(keys[..n], rows[..n]) + [(keys[n], rows[n])];
    }
  }

  /** The groups are a function of the row set, though their order is not: in another
      row order every key has the same members. */
  lemma GroupsForgetOrder(keys: seq<string>, rows: seq<Sources>, keys': seq<string>, rows': seq<Sources>, k: string)
    requires |keys| == |rows| && |keys'| == |rows'|
    requires multiset(IndexedRow(keys, rows)) == multiset(IndexedRow(keys', rows'))
    ensures multiset(Members(keys, rows, k)) == multiset(Members(keys', rows', k))
    ensures k in FirstSeen(keys) <==> k in FirstSeen(keys')
  {
    forall r
      ensures multiset(Members(keys, rows, k))[r] == multiset(Members(keys', rows', k))[r]
    {
      MembersCount(keys, rows, k, r);
      MembersCount(keys', rows', k, r);
    }
    SamePopulation(Members(keys, rows, k), Members(keys', rows', k));
    MembersOf(keys, rows, k);
    MembersOf(keys', rows', k);
    FirstSeenLists(keys);
    FirstSeenLists(keys');
  }

  lemma {:induction false} WeightConcat<T>(a: seq<T>, b: seq<T>, w: T -> real)
    ensures Weight(a + b, w) == Weight(a, w) + Weight(b, w)
  {
    if b == [] {
      assert a + b == a;
    } else {
      var n := |b| - 1;
      assert a + b == (a + b[..n]) + [b[n]];
      WeightSnoc(a + b[..n], b[n], w);
      WeightConcat(a, b[..n], w);
    }
  }

  /** Sums do not depend on row order. */
  lemma {:induction false} WeightForgetsOrder<T(!new)>(a: seq<T>, b: seq<T>, w: T -> real)
    requires multiset(a) == multiset(b)
    ensures Weight(a, w) == Weight(b, w)
    decreases |a|
  {
    SamePopulation(a, b);
    if a != [] {
      var n := |a| - 1;
      assert a[n] in b;
      var i :| 0 <= i < |b| && b[i] == a[n];
      var left, right := b[..i], b[i + 1..];
      SameWithoutOne(a, b, i);
      WeightForgetsOrder(a[..n], left + right, w);
      WeightConcat(left, right, w);
      WeightConcat(left + [b[i]], right, w);
      WeightSnoc(left, b[i], w);
      assert b == left + [b[i]] + right;
    }
  }

  lemma SameWithoutOne<T(!new)>(a: seq<T>, b: seq<T>, i: nat)
    requires a != [] && i < |b| && b[i] == a[|a| - 1] && multiset(a) == multiset(b)
    ensures multiset(a[..|a| - 1]) == multiset(b[..i] + b[i + 1..])
  {
    var n := |a| - 1;
    assert a == a[..n] + [a[n]];
    assert b == b[..i] + [b[i]] + b[i + 1..];
    assert multiset(a) == multiset(a[..n]) + multiset{a[n]};
    assert multiset(b) == multiset(b[..i] + b[i + 1..]) + multiset{b[i]};
    var x := multiset{b[i]};
    assert multiset(a[..n]) == multiset(a) - x && multiset(b[..i] + b[i + 1..]) == multiset(b) - x;
  }

  /** A group's COUNT and SUM are the same in whatever order the rows come. */
  lemma GroupAggregateForgetsOrder(fmt: Printer, fn: AggregateFn, e: Expr, known: set<string>,
                                   keys: seq<string>, rows: seq<Sources>, keys': seq<string>, rows': seq<Sources>, k: string)
    requires |keys| == |rows| && |keys'| == |rows'| && fn in {Count, Sum} && Resolvable(e, known)
    requires multiset(IndexedRow(keys, rows)) == multiset(IndexedRow(keys', rows'))
    ensures Reported(Evaluate(fmt, fn, [e], known, Members(keys, rows, k))) ==
            Reported(Evaluate(fmt, fn, [e], known, Members(keys', rows', k)))
  {
    GroupsForgetOrder(keys, rows, keys', rows', k);
    ReportedIsWeight(fmt, fn, e, known, Members(keys, rows, k));
    ReportedIsWeight(fmt, fn, e, known, Members(keys', rows', k));
    WeightForgetsOrder(Members(keys, rows, k), Members(keys', rows', k), Measure(fn, e, known));
  }

  /** The order of groups does follow the rows: swapping two rows of different groups
      swaps the groups, so without ORDER BY an engine that enumerates in no order
      makes a grouped answer unordered too. */
  lemma GroupOrderFollowsRows<K(!new)>(a: K, b: K, r: Sources, s: Sources)
    requires a != b
    ensures Groups([a, b], [r, s]) == [[r], [s]] && Groups([b, a], [s, r]) == [[s], [r]]
  {
    TwoGroups(a, b, r, s);
    TwoGroups(b, a, s, r);
  }

  lemma TwoGroups<K(!new)>(a: K, b: K, r: Sources, s: Sources)
    requires a != b
    ensures Groups([a, b], [r, s]) == [[r], [s]]
  {
    var none: seq<K> := [];
    NewGroup(none, [], a, r);
    NewGroup([a], [r], b, s);
    assert none + [a] == [a] && [] + [r] == [r] && [a] + [b] == [a, b] && [r] + [s] == [r, s];
    assert Groups(none, []) + [[r]] == [[r]];
  }

  /** A row with a new key starts a group, after the others. */
  lemma NewGroup<K(!new)>(keys: seq<K>, rows: seq<Sources>, k: K, r: Sources)
    requires |keys| == |rows| && k !in keys
    ensures Groups(keys + [k], rows + [r]) == Groups(keys, rows) + [[r]]
  {
    GroupsSnoc(keys + [k], rows + [r]);
    assert (keys + [k])[..|keys|] == keys && (rows + [r])[..|rows|] == rows;
  }

  // ---- ORDER BY over groups -------------------------------------------------------------------

  /** Each sort key holds only numbers, or none, over the groups. */
  ghost predicate HomogeneousSortKeys(ks: seq<Keyed>, width: nat) {
    && (forall x | x in ks :: |x.keys| == width)
    && (forall k, x, y, z | 0 <= k < width && x in ks && y in ks && z in ks :: Homogeneous([x.keys[k], y.keys[k], z.keys[k]]))
  }

  lemma {:induction false} KeysArePreorder(fmt: Printer, orderBy: seq<OrderKey>, a: seq<Value>, b: seq<Value>, c: seq<Value>)
    requires |a| == |b| == |c| == |orderBy|
    requires forall k | 0 <= k < |a| :: Homogeneous([a[k], b[k], c[k]]) && Homogeneous([c[k], b[k], a[k]])
    ensures KeysCompare(fmt, orderBy, a, a) == 0
    ensures KeysCompare(fmt, orderBy, a, b) < 0 <==> KeysCompare(fmt, orderBy, b, a) > 0
    ensures KeysCompare(fmt, orderBy, a, b) <= 0 && KeysCompare(fmt, orderBy, b, c) <= 0 ==> KeysCompare(fmt, orderBy, a, c) <= 0
    ensures KeysCompare(fmt, orderBy, a, b) < 0 && KeysCompare(fmt, orderBy, b, c) <= 0 ==> KeysCompare(fmt, orderBy, a, c) < 0
    ensures KeysCompare(fmt, orderBy, a, b) <= 0 && KeysCompare(fmt, orderBy, b, c) < 0 ==> KeysCompare(fmt, orderBy, a, c) < 0
  {
    if orderBy != [] {
      CompareIsPreorder(fmt, a[0], b[0], c[0]);
      CompareIsPreorder(fmt, c[0], b[0], a[0]);
      CompareFlips(fmt, a[0], c[0]);
      KeysArePreorder(fmt, orderBy[1..], a[1..], b[1..], c[1..]);
    }
  }

  lemma ThreeKeyed(fmt: Printer, orderBy: seq<OrderKey>, ks: seq<Keyed>, x: Keyed, y: Keyed, z: Keyed)
    requires HomogeneousSortKeys(ks, |orderBy|) && x in ks && y in ks && z in ks
    ensures |x.keys| == |y.keys| == |z.keys| == |orderBy|
    ensures KeysCompare(fmt, orderBy, x.keys, x.keys) == 0
    ensures KeysCompare(fmt, orderBy, x.keys, y.keys) < 0 <==> KeysCompare(fmt, orderBy, y.keys, x.keys) > 0
    ensures KeysCompare(fmt, orderBy, x.keys, y.keys) <= 0 && KeysCompare(fmt, orderBy, y.keys, z.keys) <= 0 ==>
              KeysCompare(fmt, orderBy, x.keys, z.keys) <= 0
    ensures KeysCompare(fmt, orderBy, x.keys, y.keys) < 0 && KeysCompare(fmt, orderBy, y.keys, z.keys) <= 0 ==>
              KeysCompare(fmt, orderBy, x.keys, z.keys) < 0
  {
    KeysArePreorder(fmt, orderBy, x.keys, y.keys, z.keys);
  }

  lemma KeyedIsWeak(fmt: Printer, orderBy: seq<OrderKey>, ks: seq<Keyed>)
    requires HomogeneousSortKeys(ks, |orderBy|)
    ensures WeakOn(KeyedLess(fmt, orderBy), ks)
  {
    var less := KeyedLess(fmt, orderBy);
    forall x, y, z | x in ks && y in ks && z in ks
      ensures !less(x, x)
      ensures less(x, y) && less(y, z) ==> less(x, z)
      ensures less(x, z) ==> less(x, y) || less(y, z)
    {
      ThreeKeyed(fmt, orderBy, ks, x, y, z);
      ThreeKeyed(fmt, orderBy, ks, y, z, x);
      ThreeKeyed(fmt, orderBy, ks, z, y, x);
      ThreeKeyed(fmt, orderBy, ks, x, z, y);
    }
  }

  /** ORDER BY only rearranges the groups: the result is sorted, and groups that tie
      keep the order they were first seen in. */
  lemma OrderByIsStable(fmt: Printer, orderBy: seq<OrderKey>, ks: seq<Keyed>, x: Keyed)
    requires HomogeneousSortKeys(ks, |orderBy|) && x in ks
    ensures var less := KeyedLess(fmt, orderBy);
            var sorted := SortBy(ks, less);
            && multiset(sorted) == multiset(ks)
            && Sorted(less, sorted)
            && Filter(sorted, y => Tie(less, x, y)) == Filter(ks, y => Tie(less, x, y))
  {
    var less := KeyedLess(fmt, orderBy);
    KeyedIsWeak(fmt, orderBy, ks);
    SortIsPermutation(ks, less);
    SortSorts(ks, less);
    SortIsStable(ks, less, x, ks);
  }

  // ---- Paging --------------------------------------------------------------------------------

  /** Pages tile the groups: a page of n followed by the next page of m is the first
      n + m groups. */
  lemma PagesTile<T>(s: seq<T>, offset: nat, n: nat, m: nat)
    requires n > 0 && m > 0
    ensures Paged(s, offset, n) + Paged(s, offset + n, m) == Paged(s, offset, n + m)
  {
  }
}
