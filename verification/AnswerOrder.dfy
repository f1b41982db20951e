/** What ORDER BY means on values: along an answer an ascending key does not fall and a
    descending key does not rise among rows that tie on the keys before it. */
module AnswerOrder {
  import opened Ordering
  import opened Values
  import opened Where
  import opened T = Table
  import opened Resolving
  import opened Query
  import opened Selection
  import opened GroupedQuery
  import Join

  /** b may come after a: as numbers if both are, otherwise by printed text. */
  predicate MayFollow(fmt: Printer, descending: bool, a: Value, b: Value) {
    if BothNumbers(a, b) then
      (if descending then Number(a).value >= Number(b).value else Number(a).value <= Number(b).value)
    else if descending then !StrLess(fmt(a), fmt(b)) else !StrLess(fmt(b), fmt(a))
  }

  predicate Tied(fmt: Printer, a: Value, b: Value) {
    if BothNumbers(a, b) then Number(a).value == Number(b).value else fmt(a) == fmt(b)
  }

  lemma CompareTells(fmt: Printer, a: Value, b: Value)
    ensures Compare(fmt, a, b) == 0 <==> Tied(fmt, a, b)
    ensures Compare(fmt, b, a) >= 0 <==> MayFollow(fmt, false, a, b)
    ensures -Compare(fmt, b, a) >= 0 <==> MayFollow(fmt, true, a, b)
    ensures Compare(fmt, a, b) == -Compare(fmt, b, a)
  {
    StrLessTotal(fmt(a), fmt(b));
  }

  /** Two rows tie on the first k keys. */
  ghost predicate TiedBefore(fmt: Printer, orderBy: seq<OrderKey>, a: Sources, b: Sources, k: nat)
    requires k <= |orderBy|
  {
    forall j | 0 <= j < k && orderBy[j].expr.FieldRef? :: Tied(fmt, KeyValue(orderBy[j], a), KeyValue(orderBy[j], b))
  }

  lemma KeyTells(fmt: Printer, key: OrderKey, a: Sources, b: Sources)
    ensures key.expr.FieldRef? ==>
              && (KeyCompare(fmt, key, b, a) == 0 <==> Tied(fmt, KeyValue(key, a), KeyValue(key, b)))
              && (KeyCompare(fmt, key, b, a) >= 0 <==> MayFollow(fmt, key.descending, KeyValue(key, a), KeyValue(key, b)))
    ensures !key.expr.FieldRef? ==> KeyCompare(fmt, key, b, a) == 0
  {
    CompareTells(fmt, KeyValue(key, a), KeyValue(key, b));
  }

  /** What it means of two rows that the later does not sort before the earlier. */
  lemma {:induction false} OrderTells(fmt: Printer, orderBy: seq<OrderKey>, a: Sortable, b: Sortable, k: nat)
    requires !Precedes(fmt, orderBy, b, a) && k <= |orderBy| && TiedBefore(fmt, orderBy, a.sources, b.sources, k)
    ensures k < |orderBy| && orderBy[k].expr.FieldRef? ==>
              MayFollow(fmt, orderBy[k].descending, KeyValue(orderBy[k], a.sources), KeyValue(orderBy[k], b.sources))
    ensures k == |orderBy| ==> !StrLess(b.id, a.id)
  {
    if orderBy != [] {
      KeyTells(fmt, orderBy[0], a.sources, b.sources);
      if k > 0 {
        assert forall j | 0 <= j < k - 1 :: orderBy[1..][j] == orderBy[j + 1];
        OrderTells(fmt, orderBy[1..], a, b, k - 1);
      }
    }
  }

  // ---- One source ------------------------------------------------------------------------

  /** Along the answer of a query over columns of one kind: an ascending key does not fall and
      a descending one does not rise, from any row to a later one that ties with it on the
      keys before; and rows that tie on all keys come by ascending id. */
  lemma AnswerIsInOrder(fmt: Printer, path: PathPrinter, q: Query, rows: seq<Row>, i: nat, j: nat, k: nat)
    requires DistinctIds(rows) && HomogeneousKeys(q.orderBy, SourcesOf(q, Filter(rows, Keeper(fmt, path, q))))
    requires i < j < |Picked(fmt, path, q, rows)| && k <= |q.orderBy|
    requires var top := Picked(fmt, path, q, rows);
             TiedBefore(fmt, q.orderBy, BaseSources(q.base, top[i].data), BaseSources(q.base, top[j].data), k)
    ensures var top := Picked(fmt, path, q, rows);
            var a, b := BaseSources(q.base, top[i].data), BaseSources(q.base, top[j].data);
            && (k < |q.orderBy| && q.orderBy[k].expr.FieldRef? ==>
                  MayFollow(fmt, q.orderBy[k].descending, KeyValue(q.orderBy[k], a), KeyValue(q.orderBy[k], b)))
            && (k == |q.orderBy| ==> !StrLess(top[j].id, top[i].id))
  {
    PickedIsTop(fmt, path, q, rows);
    var top := Picked(fmt, path, q, rows);
    var sorted := SortBy(Filter(rows, Keeper(fmt, path, q)), Order(fmt, q));
    assert top[i] == sorted[i] && top[j] == sorted[j];
    assert !Order(fmt, q)(sorted[j], sorted[i]);
    OrderTells(fmt, q.orderBy, Sortable(top[i].id, BaseSources(q.base, top[i].data)), Sortable(top[j].id, BaseSources(q.base, top[j].data)), k);
  }

  // ---- A join ----------------------------------------------------------------------------

  function JoinedSources(rows: seq<Join.JoinedRow>): seq<Sources> {
    Map(rows, (r: Join.JoinedRow) => r.sources)
  }

  function AsSortable(r: Join.JoinedRow): Sortable {
    Sortable(r.baseId, r.sources)
  }

  lemma JoinedIsWeak(fmt: Printer, q: Join.JoinQuery, rows: seq<Join.JoinedRow>)
    requires HomogeneousKeys(q.orderBy, JoinedSources(rows))
    ensures WeakOn(Join.JoinedOrder(fmt, q), rows)
  {
    var less := Join.JoinedOrder(fmt, q);
    var sortables := Map(rows, AsSortable);
    assert JoinedSources(rows) == seq(|sortables|, i requires 0 <= i < |sortables| => sortables[i].sources);
    forall x | x in rows
      ensures AsSortable(x) in sortables
    {
      var i :| 0 <= i < |rows| && rows[i] == x;
      assert sortables[i] == AsSortable(x);
    }
    forall x, y, z | x in rows && y in rows && z in rows
      ensures !less(x, x)
      ensures less(x, y) && less(y, z) ==> less(x, z)
      ensures less(x, z) ==> less(x, y) || less(y, z)
    {
      ThreePrecede(fmt, q.orderBy, sortables, AsSortable(x), AsSortable(y), AsSortable(z));
    }
  }

  lemma ThreePrecede(fmt: Printer, orderBy: seq<OrderKey>, rows: seq<Sortable>, a: Sortable, b: Sortable, c: Sortable)
    requires HomogeneousKeys(orderBy, seq(|rows|, i requires 0 <= i < |rows| => rows[i].sources))
    requires a in rows && b in rows && c in rows
    ensures !Precedes(fmt, orderBy, a, a)
    ensures Precedes(fmt, orderBy, a, b) && Precedes(fmt, orderBy, b, c) ==> Precedes(fmt, orderBy, a, c)
    ensures Precedes(fmt, orderBy, a, c) ==> Precedes(fmt, orderBy, a, b) || Precedes(fmt, orderBy, b, c)
  {
    ThreeRows(orderBy, rows, a, b, c);
    RowIsPreorder(fmt, orderBy, a, b, c);
    ThreeRows(orderBy, rows, c, b, a);
    RowIsPreorder(fmt, orderBy, c, b, a);
    ThreeRows(orderBy, rows, a, c, b);
    RowIsPreorder(fmt, orderBy, a, c, b);
    RowsDecide(fmt, orderBy, a, a);
  }

  /** The same along the answer of a join, whose rows are those of the join that WHERE
      keeps, rearranged and cut to the limit. */
  lemma JoinIsInOrder(fmt: Printer, q: Join.JoinQuery, rows: seq<Join.JoinedRow>, i: nat, j: nat, k: nat)
    requires HomogeneousKeys(q.orderBy, JoinedSources(rows))
    requires i < j < |Limited(SortBy(rows, Join.JoinedOrder(fmt, q)), q.limit)| && k <= |q.orderBy|
    requires var top := Limited(SortBy(rows, Join.JoinedOrder(fmt, q)), q.limit);
             TiedBefore(fmt, q.orderBy, top[i].sources, top[j].sources, k)
    ensures multiset(SortBy(rows, Join.JoinedOrder(fmt, q))) == multiset(rows)
    ensures var top := Limited(SortBy(rows, Join.JoinedOrder(fmt, q)), q.limit);
            && (k < |q.orderBy| && q.orderBy[k].expr.FieldRef? ==>
                  MayFollow(fmt, q.orderBy[k].descending, KeyValue(q.orderBy[k], top[i].sources), KeyValue(q.orderBy[k], top[j].sources)))
            && (k == |q.orderBy| ==> !StrLess(top[j].baseId, top[i].baseId))
  {
    var less := Join.JoinedOrder(fmt, q);
    JoinedIsWeak(fmt, q, rows);
    SortIsPermutation(rows, less);
    SortSorts(rows, less);
    var sorted := SortBy(rows, less);
    assert !less(sorted[j], sorted[i]);
    OrderTells(fmt, q.orderBy, AsSortable(sorted[i]), AsSortable(sorted[j]), k);
  }

  // ---- Groups ----------------------------------------------------------------------------

  lemma {:induction false} KeysTell(fmt: Printer, orderBy: seq<OrderKey>, a: seq<Value>, b: seq<Value>, k: nat)
    requires |a| == |b| == |orderBy| && k < |orderBy| && KeysCompare(fmt, orderBy, b, a) >= 0
    requires forall j | 0 <= j < k :: Tied(fmt, a[j], b[j])
    ensures MayFollow(fmt, orderBy[k].descending, a[k], b[k])
  {
    CompareTells(fmt, a[0], b[0]);
    if k > 0 {
      assert Tied(fmt, a[0], b[0]);
      assert forall j | 0 <= j < k - 1 :: a[1..][j] == a[j + 1] && b[1..][j] == b[j + 1];
      KeysTell(fmt, orderBy[1..], a[1..], b[1..], k - 1);
    }
  }

  /** The same along ordered groups, on their sort keys. */
  lemma GroupsAreInOrder(fmt: Printer, orderBy: seq<OrderKey>, ks: seq<Keyed>, i: nat, j: nat, k: nat)
    requires HomogeneousSortKeys(ks, |orderBy|) && k < |orderBy|
    requires i < j < |SortBy(ks, KeyedLess(fmt, orderBy))|
    requires var sorted := SortBy(ks, KeyedLess(fmt, orderBy));
             |sorted[i].keys| == |sorted[j].keys| == |orderBy| && forall l | 0 <= l < k :: Tied(fmt, sorted[i].keys[l], sorted[j].keys[l])
    ensures var sorted := SortBy(ks, KeyedLess(fmt, orderBy));
            MayFollow(fmt, orderBy[k].descending, sorted[i].keys[k], sorted[j].keys[k])
  {
    var less := KeyedLess(fmt, orderBy);
    var sorted := SortBy(ks, less);
    SortIsPermutation(ks, less);
    OrderByIsStable(fmt, orderBy, ks, sorted[i]);
    assert !less(sorted[j], sorted[i]);
    KeysTell(fmt, orderBy, sorted[i].keys, sorted[j].keys, k);
  }
}
