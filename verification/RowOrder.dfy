/** When the order rows are enumerated in shows in a grouped answer. */
module RowOrder {
  import opened Ordering
  import opened Traversal
  import opened Values
  import opened Where
  import opened Resolving
  import opened GroupKeys
  import opened Grouping
  import opened GroupedQuery
  import opened GroupedAnswers
  import opened Contests
  import opened Ties
  import Query

  /** A grouped query, the sources it may name, and how values and expressions print. */
  datatype Setting = Setting(fmt: Printer, show: Shower, q: GroupQuery, known: set<string>)

  function Answer(k: Setting, rows: seq<Sources>): Result<seq<Fields>, QueryError> {
    GroupedAnswer(k.fmt, k.show, k.q, k.known, rows)
  }

  // ---- Expressions that forget the order of members -------------------------------------

  /** Over these rows the expression is always a number or never one, and values that
      compare equal are equal: MIN and MAX do not depend on which comes first. */
  ghost predicate Sharp(fmt: Printer, e: Expr, known: set<string>, data: set<Sources>)
    requires Resolvable(e, known)
  {
    forall r, s | r in data && s in data && NonNull(e, known, r).Some? && NonNull(e, known, s).Some? ::
      var v, w := NonNull(e, known, r).value, NonNull(e, known, s).value;
      (Number(v).Some? <==> Number(w).Some?) && (Compare(fmt, v, w) == 0 ==> v == w)
  }

  /** The value in a group does not depend on the order of the members: any expression but
      a field that is not grouped by, and MIN and MAX of an expression that is not sharp. */
  ghost predicate Settled(k: Setting, data: set<Sources>, e: Expr) {
    match e
    case FieldRef(_, _) => e in k.q.groupBy
    case Aggregate(fn, args) => fn in {Min, Max} && args != [] && Resolvable(args[0], k.known) ==> Sharp(k.fmt, args[0], k.known, data)
    case _ => true
  }

  /** The name of an output column. */
  predicate OutputName(k: Setting, e: Expr) {
    e.FieldRef? && e.source == "" && exists i :: 0 <= i < |k.q.columns| && ColumnOutKey(k.show, k.q.columns[i]) == e.name
  }

  ghost predicate SettledAfter(k: Setting, data: set<Sources>, e: Expr) {
    Settled(k, data, e) || OutputName(k, e)
  }

  ghost predicate SettledCond(k: Setting, data: set<Sources>, c: Cond) {
    match c
    case Comparison(_, left, right) => SettledAfter(k, data, left) && SettledAfter(k, data, right)
    case Group(_, conds) => forall i | 0 <= i < |conds| :: SettledCond(k, data, conds[i])
    case OtherCond => true
  }

  ghost predicate SettledQuery(k: Setting, data: set<Sources>) {
    && (forall i | 0 <= i < |k.q.columns| :: Settled(k, data, k.q.columns[i].expr))
    && (k.q.having.Some? ==> SettledCond(k, data, k.q.having.value))
    && (forall i | 0 <= i < |k.q.orderBy| :: SettledAfter(k, data, k.q.orderBy[i].expr))
  }

  /** All rows have one tuple of GROUP BY values. */
  ghost predicate Uniform(groupBy: seq<Expr>, known: set<string>, rows: seq<Sources>) {
    forall r, s | r in rows && s in rows :: TupleOf(groupBy, known, r) == TupleOf(groupBy, known, s)
  }

  /** The same group with its members in another order. */
  ghost predicate Alike(k: Setting, data: set<Sources>, a: AggGroup, b: AggGroup) {
    && a.rows != [] && b.rows != [] && multiset(a.rows) == multiset(b.rows) && a.out == b.out
    && Uniform(k.q.groupBy, k.known, a.rows) && forall r | r in a.rows :: r in data
  }

  function HasNumber(e: Expr, known: set<string>): Sources -> real
    requires Resolvable(e, known)
  {
    (r: Sources) => if NumberIn(e, known, r).Some? then 1.0 else 0.0
  }

  lemma {:induction false} NumbersAreWeight(e: Expr, known: set<string>, rows: seq<Sources>)
    requires Resolvable(e, known)
    ensures NumbersOf(e, known, rows) as real == Weight(rows, HasNumber(e, known))
  {
    if rows != [] {
      NumbersAreWeight(e, known, rows[..|rows| - 1]);
    }
  }

  lemma CountsAgree(e: Expr, known: set<string>, a: seq<Sources>, b: seq<Sources>)
    requires Resolvable(e, known) && multiset(a) == multiset(b)
    ensures CountOf(e, known, a) == CountOf(e, known, b)
    ensures SumOf(e, known, a) == SumOf(e, known, b)
    ensures NumbersOf(e, known, a) == NumbersOf(e, known, b)
  {
    CountIsWeight(e, known, a);
    CountIsWeight(e, known, b);
    WeightForgetsOrder(a, b, Counted(e, known));
    SumIsWeight(e, known, a);
    SumIsWeight(e, known, b);
    WeightForgetsOrder(a, b, Summed(e, known));
    NumbersAreWeight(e, known, a);
    NumbersAreWeight(e, known, b);
    WeightForgetsOrder(a, b, HasNumber(e, known));
  }

  lemma SharpIsHomogeneous(fmt: Printer, e: Expr, known: set<string>, data: set<Sources>, rows: seq<Sources>)
    requires Resolvable(e, known) && Sharp(fmt, e, known, data) && forall r | r in rows :: r in data
    ensures Homogeneous(ValuesOf(e, known, rows))
    ensures forall v, w | v in ValuesOf(e, known, rows) && w in ValuesOf(e, known, rows) && Compare(fmt, v, w) == 0 :: v == w
  {
    var vs := ValuesOf(e, known, rows);
    forall v, w | v in vs && w in vs
      ensures Number(v).Some? <==> Number(w).Some?
      ensures Compare(fmt, v, w) == 0 ==> v == w
    {
      ValuesHeld(e, known, rows, v);
      ValuesHeld(e, known, rows, w);
      var r :| r in rows && NonNull(e, known, r) == Some(v);
      var s :| s in rows && NonNull(e, known, s) == Some(w);
    }
    if vs != [] {
      assert vs[0] in vs;
    }
  }

  /** A sharp MIN or MAX. */
  lemma BestForgetsOrder(fmt: Printer, fn: AggregateFn, e: Expr, known: set<string>, data: set<Sources>, a: seq<Sources>, b: seq<Sources>)
    requires fn in {Min, Max} && Resolvable(e, known) && Sharp(fmt, e, known, data)
    requires multiset(a) == multiset(b) && forall r | r in a :: r in data
    ensures BestOf(fmt, fn, e, known, a) == BestOf(fmt, fn, e, known, b)
  {
    SamePopulation(a, b);
    SharpIsHomogeneous(fmt, e, known, data, a);
    SharpIsHomogeneous(fmt, e, known, data, b);
    BestIsBest(fmt, fn, e, known, a);
    BestIsBest(fmt, fn, e, known, b);
    var vs, ws := ValuesOf(e, known, a), ValuesOf(e, known, b);
    forall v
      ensures v in vs <==> v in ws
    {
      ValuesHeld(e, known, a, v);
      ValuesHeld(e, known, b, v);
    }
    SameEmpty(vs, ws);
    if vs != [] {
      var v, w := BestOf(fmt, fn, e, known, a).value, BestOf(fmt, fn, e, known, b).value;
      assert AsGood(fmt, fn, v, w) && AsGood(fmt, fn, w, v);
      CompareFlips(fmt, v, w);
    }
  }

  lemma EvaluateForgetsOrder(fmt: Printer, fn: AggregateFn, args: seq<Expr>, known: set<string>, data: set<Sources>, a: seq<Sources>, b: seq<Sources>)
    requires multiset(a) == multiset(b) && a != [] && b != [] && forall r | r in a :: r in data
    requires fn in {Min, Max} && args != [] && Resolvable(args[0], known) ==> Sharp(fmt, args[0], known, data)
    ensures Evaluate(fmt, fn, args, known, a) == Evaluate(fmt, fn, args, known, b)
  {
    SamePopulation(a, b);
    if args != [] && Resolvable(args[0], known) {
      CountsAgree(args[0], known, a, b);
      if fn in {Min, Max} {
        BestForgetsOrder(fmt, fn, args[0], known, data, a, b);
      }
    }
  }

  lemma ResolveAlike(k: Setting, data: set<Sources>, a: AggGroup, b: AggGroup, e: Expr)
    requires Alike(k, data, a, b) && e in k.q.groupBy && e.FieldRef?
    ensures Resolve(e, a.rows[0], k.known).Ok? ==> Resolve(e, a.rows[0], k.known).value.value == Resolve(e, b.rows[0], k.known).value.value
    ensures Resolve(e, a.rows[0], k.known).Err? ==> Resolve(e, a.rows[0], k.known) == Resolve(e, b.rows[0], k.known)
  {
    SamePopulation(a.rows, b.rows);
    var r, s := a.rows[0], b.rows[0];
    assert r in a.rows && s in b.rows && s in a.rows;
    var i :| 0 <= i < |k.q.groupBy| && k.q.groupBy[i] == e;
    assert TupleOf(k.q.groupBy, k.known, r)[i] == TupleOf(k.q.groupBy, k.known, s)[i];
  }

  /** A settled expression has one value in a group, whatever the order of its members. */
  lemma ValueAlike(k: Setting, data: set<Sources>, a: AggGroup, b: AggGroup, e: Expr)
    requires Alike(k, data, a, b)
    requires Settled(k, data, e) || (e.FieldRef? && e.source == "" && a.out.Some? && e.name in a.out.value)
    ensures GroupValue(k.fmt, e, a, k.known) == GroupValue(k.fmt, e, b, k.known)
  {
    match e
    case Aggregate(fn, args) => EvaluateForgetsOrder(k.fmt, fn, args, k.known, data, a.rows, b.rows);
    case FieldRef(_, _) => if e in k.q.groupBy { ResolveAlike(k, data, a, b, e); }
    case _ =>
  }

  lemma {:induction false} ProjectionAlike(k: Setting, data: set<Sources>, columns: seq<Column>, a: AggGroup, b: AggGroup)
    requires Alike(k, data, a, b) && forall i | 0 <= i < |columns| :: Settled(k, data, columns[i].expr)
    ensures ProjectGroup(k.fmt, k.show, columns, a, k.known) == ProjectGroup(k.fmt, k.show, columns, b, k.known)
  {
    if columns != [] {
      var n := |columns| - 1;
      ProjectionAlike(k, data, columns[..n], a, b);
      ValueAlike(k, data, a, b, columns[n].expr);
    }
  }

  /** The output row has every column's name. */
  lemma {:induction false} ProjectionNames(fmt: Printer, show: Shower, columns: seq<Column>, g: AggGroup, known: set<string>)
    requires g.rows != [] && ProjectGroup(fmt, show, columns, g, known).Ok?
    ensures forall i | 0 <= i < |columns| :: ColumnOutKey(show, columns[i]) in ProjectGroup(fmt, show, columns, g, known).value
  {
    if columns != [] {
      ProjectionNames(fmt, show, columns[..|columns| - 1], g, known);
    }
  }

  /** A projected group: its output row has every column's name. */
  ghost predicate Projected(k: Setting, g: AggGroup) {
    g.out.Some? && forall i | 0 <= i < |k.q.columns| :: ColumnOutKey(k.show, k.q.columns[i]) in g.out.value
  }

  lemma AfterAlike(k: Setting, data: set<Sources>, a: AggGroup, b: AggGroup, e: Expr)
    requires Alike(k, data, a, b) && Projected(k, a) && SettledAfter(k, data, e)
    ensures GroupValue(k.fmt, e, a, k.known) == GroupValue(k.fmt, e, b, k.known)
  {
    ValueAlike(k, data, a, b, e);
  }

  lemma {:induction false} HavingAlike(k: Setting, data: set<Sources>, a: AggGroup, b: AggGroup, c: Cond)
    requires Alike(k, data, a, b) && Projected(k, a) && SettledCond(k, data, c)
    ensures MatchesHaving(k.fmt, c, a, k.known) == MatchesHaving(k.fmt, c, b, k.known)
    decreases c
  {
    match c
    case Comparison(op, left, right) =>
      AfterAlike(k, data, a, b, left);
      AfterAlike(k, data, a, b, right);
    case Group(op, conds) => HavingsAlike(k, data, a, b, conds, op == Or);
    case OtherCond =>
  }

  lemma {:induction false} HavingsAlike(k: Setting, data: set<Sources>, a: AggGroup, b: AggGroup, conds: seq<Cond>, stop: bool)
    requires Alike(k, data, a, b) && Projected(k, a) && forall i | 0 <= i < |conds| :: SettledCond(k, data, conds[i])
    ensures HavingGroup(k.fmt, conds, stop, a, k.known) == HavingGroup(k.fmt, conds, stop, b, k.known)
    decreases conds
  {
    if conds != [] {
      HavingAlike(k, data, a, b, conds[0]);
      HavingsAlike(k, data, a, b, conds[1..], stop);
    }
  }

  lemma {:induction false} EachAlike<S, T, E>(s: seq<S>, f: S -> Result<T, E>, g: S -> Result<T, E>)
    requires forall i | 0 <= i < |s| :: f(s[i]) == g(s[i])
    ensures Each(s, f) == Each(s, g)
  {
    if s != [] {
      EachAlike(s[..|s| - 1], f, g);
    }
  }

  lemma KeysAlike(k: Setting, data: set<Sources>, a: AggGroup, b: AggGroup)
    requires Alike(k, data, a, b) && Projected(k, a) && SettledQuery(k, data)
    ensures Keying(k)(a) == Keying(k)(b)
  {
    forall i | 0 <= i < |k.q.orderBy|
      ensures KeyValueOf(k.fmt, a, k.known)(k.q.orderBy[i]) == KeyValueOf(k.fmt, b, k.known)(k.q.orderBy[i])
    {
      AfterAlike(k, data, a, b, k.q.orderBy[i].expr);
    }
    EachAlike(k.q.orderBy, KeyValueOf(k.fmt, a, k.known), KeyValueOf(k.fmt, b, k.known));
  }

  // ---- A group seen from outside -----------------------------------------------------------

  function Projecting(k: Setting): seq<Sources> -> Result<AggGroup, QueryError> {
    Projector(k.fmt, k.show, k.q.columns, k.known)
  }

  function Testing(k: Setting): AggGroup -> Result<bool, QueryError> {
    HavingTest(k.fmt, k.q.having, k.known)
  }

  function Keying(k: Setting): AggGroup -> Result<seq<Value>, QueryError> {
    OrderKeys(k.fmt, k.q.orderBy, k.known)
  }

  /** The steps of a group that can fail: 1 is projecting it, 2 HAVING, 3 its sort keys. */
  type Stage = n: nat | 1 <= n <= 3 witness 1

  datatype Fate = Fine | Failed(stage: Stage, error: QueryError)

  /** What becomes of the group of a tuple: its output row, whether HAVING keeps it, its
      ORDER BY keys, and whether a step fails on it. */
  datatype Item = Item(tuple: seq<Value>, out: Fields, kept: bool, keys: seq<Value>, fate: Fate)

  ghost function ItemOf(k: Setting, members: seq<Sources>, t: seq<Value>): Item {
    match Projecting(k)(members)
    case Err(e) => Item(t, map[], false, [], Failed(1, e))
    case Ok(g) =>
      var out := if g.out.Some? then g.out.value else map[];
      match Testing(k)(g)
      case Err(e) => Item(t, out, false, [], Failed(2, e))
      case Ok(kept) =>
        if !kept then Item(t, out, false, [], Fine)
        else
          match Keying(k)(g)
          case Err(e) => Item(t, out, true, [], Failed(3, e))
          case Ok(keys) => Item(t, out, true, keys, Fine)
  }

  /** One item a tuple, in the order the tuples are first seen. */
  ghost function Items(k: Setting, rows: seq<Sources>): seq<Item> {
    var ts := Tuples(k.q.groupBy, k.known, rows);
    ItemsOf(k, Groups(ts, rows), FirstSeen(ts))
  }

  ghost function ItemsOf(k: Setting, parts: seq<seq<Sources>>, ts: seq<seq<Value>>): (r: seq<Item>)
    requires |parts| == |ts|
    ensures |r| == |parts| && forall i | 0 <= i < |parts| :: r[i] == ItemOf(k, parts[i], ts[i])
  {
    seq(|parts|, i requires 0 <= i < |parts| => ItemOf(k, parts[i], ts[i]))
  }

  /** A group's item does not depend on the order of its members. */
  lemma ItemForgetsOrder(k: Setting, data: set<Sources>, a: seq<Sources>, b: seq<Sources>, t: seq<Value>)
    requires SettledQuery(k, data) && a != [] && b != [] && multiset(a) == multiset(b) && Uniform(k.q.groupBy, k.known, a)
    requires forall r | r in a :: r in data
    ensures ItemOf(k, a, t) == ItemOf(k, b, t)
  {
    var bare, bare' := AggGroup(a, None), AggGroup(b, None);
    ProjectionAlike(k, data, k.q.columns, bare, bare');
    var p := ProjectGroup(k.fmt, k.show, k.q.columns, bare, k.known);
    if p.Ok? {
      ProjectionNames(k.fmt, k.show, k.q.columns, bare, k.known);
      var g, g' := AggGroup(a, Some(p.value)), AggGroup(b, Some(p.value));
      assert Alike(k, data, g, g') && Projected(k, g);
      if k.q.having.Some? {
        HavingAlike(k, data, g, g', k.q.having.value);
      }
      assert Testing(k)(g) == Testing(k)(g');
      KeysAlike(k, data, g, g');
    }
  }

  // ---- The answer from items ---------------------------------------------------------------

  predicate Kept(it: Item) {
    it.kept
  }

  function Shown(it: Item): Fields {
    it.out
  }

  function ItemLess(k: Setting): (Item, Item) -> bool {
    (a: Item, b: Item) => |a.keys| == |b.keys| == |k.q.orderBy| && KeysCompare(k.fmt, k.q.orderBy, a.keys, b.keys) < 0
  }

  /** The error a step stops with: the first item's it fails on. */
  function FailsAt(it: Item, stage: Stage): Option<QueryError> {
    if it.fate.Failed? && it.fate.stage == stage then Some(it.fate.error) else None
  }

  function FirstError(items: seq<Item>, stage: Stage): Option<QueryError> {
    if items == [] then None
    else
      var before := FirstError(items[..|items| - 1], stage);
      if before.Some? then before else FailsAt(items[|items| - 1], stage)
  }

  /** Each step is run over all items before the next; then come sorting and paging. */
  function ItemsAnswer(k: Setting, items: seq<Item>): Result<seq<Fields>, QueryError> {
    if FirstError(items, 1).Some? then Err(FirstError(items, 1).value)
    else if FirstError(items, 2).Some? then Err(FirstError(items, 2).value)
    else if FirstError(items, 3).Some? then Err(FirstError(items, 3).value)
    else Ok(Paged(Map(SortBy(Filter(items, Kept), ItemLess(k)), Shown), k.q.offset, k.q.limit))
  }

  function ErrorOf<T>(r: Result<T, QueryError>): Option<QueryError> {
    if r.Err? then Some(r.error) else None
  }

  lemma {:induction false} EachFails<S, T>(s: seq<S>, f: S -> Result<T, QueryError>, items: seq<Item>, stage: Stage)
    requires |s| == |items| && forall i | 0 <= i < |s| :: FailsAt(items[i], stage) == ErrorOf(f(s[i]))
    ensures ErrorOf(Each(s, f)) == FirstError(items, stage)
  {
    if s != [] {
      EachFails(s[..|s| - 1], f, items[..|s| - 1], stage);
    }
  }

  /** An item fails where its group does. */
  lemma ItemFails(k: Setting, part: seq<Sources>, t: seq<Value>)
    ensures var it, p := ItemOf(k, part, t), Projecting(k)(part);
            && FailsAt(it, 1) == ErrorOf(p)
            && (p.Ok? ==> FailsAt(it, 2) == ErrorOf(Testing(k)(p.value)))
            && (p.Ok? && Testing(k)(p.value) == Ok(true) ==> FailsAt(it, 3) == ErrorOf(Keying(k)(p.value)))
  {
  }

  /** A group and its item. */
  datatype Seat = Seat(group: AggGroup, item: Item)

  predicate SeatKept(s: Seat) {
    s.item.kept
  }

  function GroupIn(s: Seat): AggGroup {
    s.group
  }

  function ItemIn(s: Seat): Item {
    s.item
  }

  function KeyedIn(s: Seat): Keyed {
    Keyed(s.group, s.item.keys)
  }

  function SeatLess(k: Setting): (Seat, Seat) -> bool {
    (a: Seat, b: Seat) => ItemLess(k)(a.item, b.item)
  }

  lemma {:induction false} FlaggedMaps<S(!new), T>(s: seq<S>, keep: S -> bool, f: S -> T)
    ensures Flagged(Map(s, f), Map(s, keep)) == Map(Filter(s, keep), f)
  {
    if s == [] {
      assert Map(s, f) == [] && Map(Filter(s, keep), f) == [];
    } else {
      var n := |s| - 1;
      FlaggedMaps(s[..n], keep, f);
      assert s == s[..n] + [s[n]];
      FilterSnoc(s[..n], s[n], keep);
      assert Map(s, f)[..n] == Map(s[..n], f) && Map(s, keep)[..n] == Map(s[..n], keep);
      MapSnoc(Filter(s[..n], keep), s[n], f);
    }
  }

  lemma MapSnoc<S, T>(s: seq<S>, x: S, f: S -> T)
    ensures Map(s + [x], f) == Map(s, f) + [f(x)]
  {
  }

  lemma {:induction false} FilterMaps<S(!new), T(!new)>(s: seq<S>, keep: S -> bool, f: S -> T, keep': T -> bool)
    requires forall i | 0 <= i < |s| :: keep'(f(s[i])) == keep(s[i])
    ensures Filter(Map(s, f), keep') == Map(Filter(s, keep), f)
  {
    if s == [] {
      assert Map(s, f) == [] && Map(Filter(s, keep), f) == [];
    } else {
      var n := |s| - 1;
      FilterMaps(s[..n], keep, f, keep');
      assert s == s[..n] + [s[n]];
      FilterSnoc(s[..n], s[n], keep);
      MapSnoc(s[..n], s[n], f);
      FilterSnoc(Map(s[..n], f), f(s[n]), keep');
      MapSnoc(Filter(s[..n], keep), s[n], f);
    }
  }

  lemma FlaggedSeats(seats: seq<Seat>)
    ensures Flagged(Map(seats, GroupIn), Map(seats, SeatKept)) == Map(Filter(seats, SeatKept), GroupIn)
    ensures Filter(Map(seats, ItemIn), Kept) == Map(Filter(seats, SeatKept), ItemIn)
  {
    FlaggedMaps(seats, SeatKept, GroupIn);
    FilterMaps(seats, SeatKept, ItemIn, Kept);
  }

  lemma {:induction false} SortNever<T>(s: seq<T>, less: (T, T) -> bool)
    requires forall x, y :: !less(x, y)
    ensures SortBy(s, less) == s
  {
    if s != [] {
      SortNever(s[1..], less);
      assert s == [s[0]] + s[1..];
    }
  }

  /** Every seat's group has its item's output row and keys. */
  ghost predicate Seated(k: Setting, seats: seq<Seat>) {
    forall s | s in seats :: s.group.out == Some(s.item.out) && Keying(k)(s.group) == Ok(s.item.keys)
  }

  /** ORDER BY on groups is sorting their items. */
  lemma OrderedSeats(k: Setting, seats: seq<Seat>)
    requires Seated(k, seats)
    ensures Ordered(k.fmt, k.q.orderBy, k.known, Map(seats, GroupIn)).Ok?
    ensures Outs(Ordered(k.fmt, k.q.orderBy, k.known, Map(seats, GroupIn)).value) == Map(SortBy(Map(seats, ItemIn), ItemLess(k)), Shown)
  {
    var less := SeatLess(k);
    var sorted := SortBy(seats, less);
    SortIsPermutation(seats, less);
    SortMaps(seats, ItemIn, less, ItemLess(k));
    if k.q.orderBy == [] {
      NeverLess(k, seats);
      SeatsShow(seats);
    } else {
      KeyedSeats(k, seats);
      SortMaps(seats, KeyedIn, less, KeyedLess(k.fmt, k.q.orderBy));
      assert Ungroup(Map(sorted, KeyedIn)) == Map(sorted, GroupIn);
      assert Seated(k, sorted);
      SeatsShow(sorted);
    }
  }

  lemma ItemNeverLess(k: Setting, a: Item, b: Item)
    requires k.q.orderBy == []
    ensures !ItemLess(k)(a, b)
  {
    if |a.keys| == |b.keys| == 0 {
      assert KeysCompare(k.fmt, k.q.orderBy, a.keys, b.keys) == 0;
    }
  }

  lemma NeverLess(k: Setting, seats: seq<Seat>)
    requires k.q.orderBy == []
    ensures SortBy(seats, SeatLess(k)) == seats
  {
    forall a, b
      ensures !SeatLess(k)(a, b)
    {
      ItemNeverLess(k, a.item, b.item);
    }
    SortNever(seats, SeatLess(k));
  }

  lemma SeatsShow(seats: seq<Seat>)
    requires forall s | s in seats :: s.group.out == Some(s.item.out)
    ensures Outs(Map(seats, GroupIn)) == Map(Map(seats, ItemIn), Shown)
  {
    forall i | 0 <= i < |seats|
      ensures Outs(Map(seats, GroupIn))[i] == Map(Map(seats, ItemIn), Shown)[i]
    {
      assert seats[i] in seats;
    }
  }

  lemma KeyedSeats(k: Setting, seats: seq<Seat>)
    requires Seated(k, seats)
    ensures var groups := Map(seats, GroupIn);
            && Each(groups, Keying(k)).Ok?
            && ZipKeys(groups, Each(groups, Keying(k)).value) == Map(seats, KeyedIn)
  {
    var groups := Map(seats, GroupIn);
    var keys := seq(|seats|, i requires 0 <= i < |seats| => seats[i].item.keys);
    forall i | 0 <= i < |groups|
      ensures Keying(k)(groups[i]) == Ok(keys[i])
    {
      assert seats[i] in seats;
    }
    EachIs(groups, Keying(k), keys);
    assert ZipKeys(groups, keys) == Map(seats, KeyedIn);
  }

  // ---- Answers as sorted items ------------------------------------------------------------------

  /** The groups and their items, once every group is projected and tested. */
  ghost predicate Tested(k: Setting, part: seq<Sources>, s: Seat) {
    && Projecting(k)(part) == Ok(s.group) && Testing(k)(s.group) == Ok(s.item.kept)
    && s.item == ItemOf(k, part, s.item.tuple)
  }

  lemma {:induction false} NoneFails(items: seq<Item>, stage: Stage)
    ensures FirstError(items, stage).None? <==> forall i | 0 <= i < |items| :: FailsAt(items[i], stage).None?
    ensures FirstError(items, stage).Some? ==> exists i :: 0 <= i < |items| && FailsAt(items[i], stage) == FirstError(items, stage)
  {
    if items != [] {
      var n := |items| - 1;
      NoneFails(items[..n], stage);
      if i :| 0 <= i < n && FailsAt(items[..n][i], stage) == FirstError(items[..n], stage) {
        assert FailsAt(items[i], stage) == FirstError(items[..n], stage);
      }
    }
  }

  lemma PartTested(k: Setting, parts: seq<seq<Sources>>, ts: seq<seq<Value>>, i: nat)
    requires i < |parts| == |ts| && FirstError(ItemsOf(k, parts, ts), 1).None? && FirstError(ItemsOf(k, parts, ts), 2).None?
    ensures Projecting(k)(parts[i]).Ok?
    ensures Tested(k, parts[i], Seat(Projecting(k)(parts[i]).value, ItemOf(k, parts[i], ts[i])))
  {
    NoneFails(ItemsOf(k, parts, ts), 1);
    NoneFails(ItemsOf(k, parts, ts), 2);
    assert FailsAt(ItemsOf(k, parts, ts)[i], 1).None? && FailsAt(ItemsOf(k, parts, ts)[i], 2).None?;
    ItemFails(k, parts[i], ts[i]);
  }

  lemma SeatsTested(k: Setting, parts: seq<seq<Sources>>, ts: seq<seq<Value>>) returns (seats: seq<Seat>)
    requires |parts| == |ts| && FirstError(ItemsOf(k, parts, ts), 1).None? && FirstError(ItemsOf(k, parts, ts), 2).None?
    ensures |seats| == |parts| && forall i | 0 <= i < |parts| :: Tested(k, parts[i], seats[i])
    ensures Map(seats, ItemIn) == ItemsOf(k, parts, ts)
  {
    forall i | 0 <= i < |parts|
      ensures Projecting(k)(parts[i]).Ok?
      ensures Tested(k, parts[i], Seat(Projecting(k)(parts[i]).value, ItemOf(k, parts[i], ts[i])))
    {
      PartTested(k, parts, ts, i);
    }
    seats := seq(|parts|, i requires 0 <= i < |parts| => Seat(Projecting(k)(parts[i]).value, ItemOf(k, parts[i], ts[i])));
  }

  lemma SeatsProject(k: Setting, parts: seq<seq<Sources>>, seats: seq<Seat>)
    requires |parts| == |seats| && forall i | 0 <= i < |parts| :: Tested(k, parts[i], seats[i])
    ensures Each(parts, Projecting(k)) == Ok(Map(seats, GroupIn))
    ensures Each(Map(seats, GroupIn), Testing(k)) == Ok(Map(seats, SeatKept))
  {
    forall i | 0 <= i < |parts|
      ensures Projecting(k)(parts[i]) == Ok(seats[i].group) && Testing(k)(seats[i].group) == Ok(seats[i].item.kept)
    {
      assert Tested(k, parts[i], seats[i]);
    }
    EachIs(parts, Projecting(k), Map(seats, GroupIn));
    EachIs(Map(seats, GroupIn), Testing(k), Map(seats, SeatKept));
  }

  lemma SeatFails(k: Setting, part: seq<Sources>, s: Seat)
    requires Tested(k, part, s) && s.item.kept
    ensures s.group.out == Some(s.item.out) && FailsAt(s.item, 3) == ErrorOf(Keying(k)(s.group))
    ensures Keying(k)(s.group).Ok? ==> Keying(k)(s.group) == Ok(s.item.keys)
  {
    ItemFails(k, part, s.item.tuple);
  }

  /** The sort keys of kept groups fail where their items do. */
  lemma KeptKeys(k: Setting, parts: seq<seq<Sources>>, seats: seq<Seat>)
    requires |parts| == |seats| && forall i | 0 <= i < |parts| :: Tested(k, parts[i], seats[i])
    ensures var kept := Filter(seats, SeatKept);
            && ErrorOf(Each(Map(kept, GroupIn), Keying(k))) == FirstError(Map(kept, ItemIn), 3)
            && (FirstError(Map(kept, ItemIn), 3).None? ==> Seated(k, kept))
  {
    var kept := Filter(seats, SeatKept);
    forall s | s in kept
      ensures s.group.out == Some(s.item.out) && FailsAt(s.item, 3) == ErrorOf(Keying(k)(s.group))
      ensures Keying(k)(s.group).Ok? ==> Keying(k)(s.group) == Ok(s.item.keys)
    {
      var i :| 0 <= i < |seats| && seats[i] == s;
      SeatFails(k, parts[i], s);
    }
    var groups, items := Map(kept, GroupIn), Map(kept, ItemIn);
    forall i | 0 <= i < |kept|
      ensures FailsAt(items[i], 3) == ErrorOf(Keying(k)(groups[i]))
    {
      assert kept[i] in kept;
    }
    EachFails(groups, Keying(k), items, 3);
    if FirstError(items, 3).None? {
      NoneFails(items, 3);
      forall s | s in kept
        ensures Keying(k)(s.group).Ok?
      {
        var i :| 0 <= i < |kept| && kept[i] == s;
        assert FailsAt(items[i], 3).None?;
      }
    }
  }

  /** Only kept items get as far as sort keys. */
  lemma {:induction false} KeptFail(items: seq<Item>)
    requires forall i | 0 <= i < |items| :: FailsAt(items[i], 3).Some? ==> items[i].kept
    ensures FirstError(Filter(items, Kept), 3) == FirstError(items, 3)
  {
    if items != [] {
      var n := |items| - 1;
      KeptFail(items[..n]);
      assert items == items[..n] + [items[n]];
      FilterSnoc(items[..n], items[n], Kept);
      var kept := Filter(items[..n], Kept);
      if items[n].kept {
        assert (kept + [items[n]])[..|kept|] == kept;
      } else {
        assert Filter(items, Kept) == kept;
      }
    }
  }

  lemma ProjectionFails(k: Setting, parts: seq<seq<Sources>>, ts: seq<seq<Value>>)
    requires |parts| == |ts|
    ensures ErrorOf(Each(parts, Projecting(k))) == FirstError(ItemsOf(k, parts, ts), 1)
  {
    forall i | 0 <= i < |parts|
      ensures FailsAt(ItemsOf(k, parts, ts)[i], 1) == ErrorOf(Projecting(k)(parts[i]))
    {
      ItemFails(k, parts[i], ts[i]);
    }
    EachFails(parts, Projecting(k), ItemsOf(k, parts, ts), 1);
  }

  lemma HavingFails(k: Setting, parts: seq<seq<Sources>>, ts: seq<seq<Value>>, groups: seq<AggGroup>)
    requires |parts| == |ts| && Each(parts, Projecting(k)) == Ok(groups)
    ensures ErrorOf(Each(groups, Testing(k))) == FirstError(ItemsOf(k, parts, ts), 2)
  {
    forall i | 0 <= i < |groups|
      ensures FailsAt(ItemsOf(k, parts, ts)[i], 2) == ErrorOf(Testing(k)(groups[i]))
    {
      assert Projecting(k)(parts[i]) == Ok(groups[i]);
      ItemFails(k, parts[i], ts[i]);
    }
    EachFails(groups, Testing(k), ItemsOf(k, parts, ts), 2);
  }

  /** What is left once no projection and no HAVING fails. */
  lemma OrderedItems(k: Setting, parts: seq<seq<Sources>>, seats: seq<Seat>)
    requires |parts| == |seats| && forall i | 0 <= i < |parts| :: Tested(k, parts[i], seats[i])
    ensures var items := Map(seats, ItemIn);
            var sorted := Ordered(k.fmt, k.q.orderBy, k.known, Map(Filter(seats, SeatKept), GroupIn));
            && ErrorOf(sorted) == FirstError(items, 3)
            && (sorted.Ok? ==> Outs(sorted.value) == Map(SortBy(Filter(items, Kept), ItemLess(k)), Shown))
  {
    var kept, items := Filter(seats, SeatKept), Map(seats, ItemIn);
    KeptKeys(k, parts, seats);
    FlaggedSeats(seats);
    forall i | 0 <= i < |items| && FailsAt(items[i], 3).Some?
      ensures items[i].kept
    {
      KeyedIsKept(k, parts[i], seats[i]);
    }
    KeptFail(items);
    if FirstError(items, 3).None? {
      OrderedSeats(k, kept);
    } else {
      GroupsHaveRows(k, parts, seats);
      KeysNeeded(k, Map(kept, GroupIn));
    }
  }

  lemma KeyedIsKept(k: Setting, part: seq<Sources>, s: Seat)
    requires Tested(k, part, s)
    ensures FailsAt(s.item, 3).Some? ==> s.item.kept
  {
  }

  lemma GroupsHaveRows(k: Setting, parts: seq<seq<Sources>>, seats: seq<Seat>)
    requires |parts| == |seats| && forall i | 0 <= i < |parts| :: Tested(k, parts[i], seats[i])
    ensures forall g | g in Map(Filter(seats, SeatKept), GroupIn) :: g.rows != []
  {
    var kept := Filter(seats, SeatKept);
    forall i | 0 <= i < |kept|
      ensures kept[i].group.rows != []
    {
      assert kept[i] in kept;
      var j :| 0 <= j < |seats| && seats[j] == kept[i];
      assert Tested(k, parts[j], seats[j]);
    }
  }

  /** From the partition on, the answer is that of the items. */
  lemma FinishByItems(k: Setting, parts: seq<seq<Sources>>, ts: seq<seq<Value>>)
    requires |parts| == |ts|
    ensures Finish(k.fmt, k.show, k.q, k.known, parts) == ItemsAnswer(k, ItemsOf(k, parts, ts))
  {
    ProjectionFails(k, parts, ts);
    if FirstError(ItemsOf(k, parts, ts), 1).None? {
      HavingFails(k, parts, ts, Each(parts, Projecting(k)).value);
      if FirstError(ItemsOf(k, parts, ts), 2).None? {
        var seats := SeatsTested(k, parts, ts);
        SeatsProject(k, parts, seats);
        OrderedItems(k, parts, seats);
        FlaggedSeats(seats);
        var sorted := Ordered(k.fmt, k.q.orderBy, k.known, Map(Filter(seats, SeatKept), GroupIn));
        if sorted.Ok? {
          OutsPaged(sorted.value, k.q.offset, k.q.limit);
        }
      }
    }
  }

  /** A failing sort key means there is an ORDER BY. */
  lemma KeysNeeded(k: Setting, groups: seq<AggGroup>)
    requires Each(groups, Keying(k)).Err? && forall g | g in groups :: g.rows != []
    ensures k.q.orderBy != []
  {
    var i :| 0 <= i < |groups| && Keying(k)(groups[i]).Err?;
    assert groups[i] in groups;
  }

  // ---- Other enumerations of the rows -------------------------------------------------------------

  ghost predicate HasTuple(k: Setting, t: seq<Value>, r: Sources) {
    TupleOf(k.q.groupBy, k.known, r) == t
  }

  /** The rows with a tuple. */
  ghost function RowsWith(k: Setting, rows: seq<Sources>, t: seq<Value>): seq<Sources> {
    Members(Tuples(k.q.groupBy, k.known, rows), rows, t)
  }

  lemma {:induction false} RowsWithCount(k: Setting, rows: seq<Sources>, t: seq<Value>, r: Sources)
    ensures multiset(RowsWith(k, rows, t))[r] == if HasTuple(k, t, r) then multiset(rows)[r] else 0
  {
    if rows != [] {
      var n := |rows| - 1;
      RowsWithCount(k, rows[..n], t, r);
      assert Tuples(k.q.groupBy, k.known, rows)[..n] == Tuples(k.q.groupBy, k.known, rows[..n]);
      assert rows == rows[..n] + [rows[n]];
    }
  }

  /** In any order of the rows a tuple has the same rows. */
  lemma RowsWithForgetOrder(k: Setting, rows: seq<Sources>, rows': seq<Sources>, t: seq<Value>)
    requires multiset(rows) == multiset(rows')
    ensures multiset(RowsWith(k, rows, t)) == multiset(RowsWith(k, rows', t))
    ensures Uniform(k.q.groupBy, k.known, RowsWith(k, rows, t))
    ensures RowsWith(k, rows, t) != [] <==> RowsWith(k, rows', t) != []
    ensures t in Tuples(k.q.groupBy, k.known, rows) <==> RowsWith(k, rows, t) != []
  {
    forall r
      ensures multiset(RowsWith(k, rows, t))[r] == multiset(RowsWith(k, rows', t))[r]
    {
      RowsWithCount(k, rows, t, r);
      RowsWithCount(k, rows', t, r);
    }
    SamePopulation(RowsWith(k, rows, t), RowsWith(k, rows', t));
    MembersOf(Tuples(k.q.groupBy, k.known, rows), rows, t);
    RowsWithUniform(k, rows, t);
  }

  lemma RowsWithUniform(k: Setting, rows: seq<Sources>, t: seq<Value>)
    ensures Uniform(k.q.groupBy, k.known, RowsWith(k, rows, t))
  {
    forall r | r in RowsWith(k, rows, t)
      ensures TupleOf(k.q.groupBy, k.known, r) == t
    {
      RowsWithCount(k, rows, t, r);
      assert r in multiset(RowsWith(k, rows, t));
    }
  }

  ghost function RowSet(rows: seq<Sources>): set<Sources> {
    set r | r in rows
  }

  lemma RowsWithHeld(k: Setting, rows: seq<Sources>, t: seq<Value>)
    ensures forall r | r in RowsWith(k, rows, t) :: r in RowSet(rows)
  {
    forall r | r in RowsWith(k, rows, t)
      ensures r in rows
    {
      RowsWithCount(k, rows, t, r);
      assert r in multiset(RowsWith(k, rows, t));
      assert r in multiset(rows);
    }
  }

  /** In any order of the rows a tuple has the same item. */
  lemma SameItem(k: Setting, rows: seq<Sources>, rows': seq<Sources>, t: seq<Value>)
    requires SettledQuery(k, RowSet(rows)) && multiset(rows) == multiset(rows')
    ensures t in Tuples(k.q.groupBy, k.known, rows) <==> t in Tuples(k.q.groupBy, k.known, rows')
    ensures t in Tuples(k.q.groupBy, k.known, rows) ==> ItemOf(k, RowsWith(k, rows, t), t) == ItemOf(k, RowsWith(k, rows', t), t)
  {
    RowsWithForgetOrder(k, rows, rows', t);
    RowsWithForgetOrder(k, rows', rows, t);
    if RowsWith(k, rows, t) != [] {
      RowsWithHeld(k, rows, t);
      ItemForgetsOrder(k, RowSet(rows), RowsWith(k, rows, t), RowsWith(k, rows', t), t);
    }
  }

  /** The answer is that of the items. */
  lemma AnswerByItems(k: Setting, f64: Float64s, rows: seq<Sources>)
    requires Groupable(k.fmt, f64, k.q, k.known, rows) && GroupRefusal(k.show, k.q, k.known).None?
    ensures Answer(k, rows) == ItemsAnswer(k, Items(k, rows))
  {
    AnswerGroupsByValue(k.fmt, f64, k.show, k.q, k.known, rows);
    FinishByItems(k, ByValue(k.q, k.known, rows), FirstSeen(Tuples(k.q.groupBy, k.known, rows)));
  }

  ghost function ItemSet(k: Setting, rows: seq<Sources>): set<Item> {
    set it | it in Items(k, rows)
  }

  lemma ItemAt(k: Setting, rows: seq<Sources>, it: Item)
    ensures it in Items(k, rows) <==>
            it.tuple in Tuples(k.q.groupBy, k.known, rows) && it == ItemOf(k, RowsWith(k, rows, it.tuple), it.tuple)
  {
    var ts, items := Tuples(k.q.groupBy, k.known, rows), Items(k, rows);
    FirstSeenLists(ts);
    forall i | 0 <= i < |items|
      ensures items[i] == ItemOf(k, RowsWith(k, rows, FirstSeen(ts)[i]), FirstSeen(ts)[i]) && FirstSeen(ts)[i] in ts
    {
      assert FirstSeen(ts)[i] in FirstSeen(ts);
    }
    forall i | 0 <= i < |items|
      ensures items[i].tuple == FirstSeen(ts)[i]
    {
      TupleKept(k, RowsWith(k, rows, FirstSeen(ts)[i]), FirstSeen(ts)[i]);
    }
    if it.tuple in ts && it == ItemOf(k, RowsWith(k, rows, it.tuple), it.tuple) {
      assert it.tuple in FirstSeen(ts);
      var i :| 0 <= i < |FirstSeen(ts)| && FirstSeen(ts)[i] == it.tuple;
      assert items[i] == it;
    }
  }

  lemma TupleKept(k: Setting, members: seq<Sources>, t: seq<Value>)
    ensures ItemOf(k, members, t).tuple == t
  {
  }

  /** Every enumeration lists the same items. */
  lemma ItemsListed(k: Setting, rows: seq<Sources>, rows': seq<Sources>)
    requires SettledQuery(k, RowSet(rows)) && multiset(rows) == multiset(rows')
    ensures Lists(Items(k, rows'), ItemSet(k, rows))
  {
    var items := Items(k, rows');
    FirstSeenLists(Tuples(k.q.groupBy, k.known, rows'));
    forall i, j | 0 <= i < j < |items|
      ensures items[i] != items[j]
    {
      assert items[i].tuple == FirstSeen(Tuples(k.q.groupBy, k.known, rows'))[i];
      assert items[j].tuple == FirstSeen(Tuples(k.q.groupBy, k.known, rows'))[j];
    }
    forall it
      ensures it in items <==> it in ItemSet(k, rows)
    {
      ItemAt(k, rows, it);
      ItemAt(k, rows', it);
      SameItem(k, rows, rows', it.tuple);
    }
  }

  // ---- Any listing of the groups can come about ------------------------------------------------------

  ghost function RowsInOrder(k: Setting, rows: seq<Sources>, order: seq<seq<Value>>): seq<Sources> {
    if order == [] then []
    else RowsInOrder(k, rows, order[..|order| - 1]) + RowsWith(k, rows, order[|order| - 1])
  }

  lemma {:induction false} RowsInOrderCount(k: Setting, rows: seq<Sources>, order: seq<seq<Value>>, r: Sources)
    requires Distinct(order)
    ensures multiset(RowsInOrder(k, rows, order))[r] == if TupleOf(k.q.groupBy, k.known, r) in order then multiset(rows)[r] else 0
  {
    if order != [] {
      var n := |order| - 1;
      RowsInOrderCount(k, rows, order[..n], r);
      RowsWithCount(k, rows, order[n], r);
      assert order == order[..n] + [order[n]];
      assert order[n] !in order[..n];
    }
  }

  /** The rows, group by group. */
  lemma RowsInOrderAreAll(k: Setting, rows: seq<Sources>, order: seq<seq<Value>>)
    requires Distinct(order) && forall t :: t in order <==> t in Tuples(k.q.groupBy, k.known, rows)
    ensures multiset(RowsInOrder(k, rows, order)) == multiset(rows)
  {
    forall r
      ensures multiset(RowsInOrder(k, rows, order))[r] == multiset(rows)[r]
    {
      RowsInOrderCount(k, rows, order, r);
      if r in rows {
        var i :| 0 <= i < |rows| && rows[i] == r;
        assert Tuples(k.q.groupBy, k.known, rows)[i] == TupleOf(k.q.groupBy, k.known, r);
      } else {
        assert r !in multiset(rows);
      }
    }
  }

  /** A block of rows with one new tuple is one more tuple seen. */
  lemma {:induction false} BlockSeen(keys: seq<seq<Value>>, block: seq<seq<Value>>, t: seq<Value>)
    requires block != [] && (forall i | 0 <= i < |block| :: block[i] == t) && t !in keys
    ensures FirstSeen(keys + block) == FirstSeen(keys) + [t]
    decreases |block|
  {
    var n := |block| - 1;
    assert (keys + block)[..|keys| + n] == keys + block[..n];
    FirstSeenLists(keys);
    if n == 0 {
      assert keys + block[..n] == keys;
    } else {
      BlockSeen(keys, block[..n], t);
      assert t in FirstSeen(keys) + [t];
    }
  }

  lemma TuplesConcat(groupBy: seq<Expr>, known: set<string>, a: seq<Sources>, b: seq<Sources>)
    ensures Tuples(groupBy, known, a + b) == Tuples(groupBy, known, a) + Tuples(groupBy, known, b)
  {
  }

  lemma {:induction false} SeenInOrder(k: Setting, rows: seq<Sources>, order: seq<seq<Value>>)
    requires Distinct(order) && forall t | t in order :: RowsWith(k, rows, t) != []
    ensures FirstSeen(Tuples(k.q.groupBy, k.known, RowsInOrder(k, rows, order))) == order
  {
    var all := RowsInOrder(k, rows, order);
    if order == [] {
      assert Tuples(k.q.groupBy, k.known, all) == [];
    } else {
      var n := |order| - 1;
      var before, block := RowsInOrder(k, rows, order[..n]), RowsWith(k, rows, order[n]);
      assert order[n] in order;
      SeenInOrder(k, rows, order[..n]);
      BlockTuples(k, rows, order[n]);
      FirstSeenLists(Tuples(k.q.groupBy, k.known, before));
      assert order[n] !in order[..n];
      TuplesConcat(k.q.groupBy, k.known, before, block);
      BlockSeen(Tuples(k.q.groupBy, k.known, before), Tuples(k.q.groupBy, k.known, block), order[n]);
      assert order == order[..n] + [order[n]];
    }
  }

  lemma BlockTuples(k: Setting, rows: seq<Sources>, t: seq<Value>)
    ensures forall i | 0 <= i < |RowsWith(k, rows, t)| :: Tuples(k.q.groupBy, k.known, RowsWith(k, rows, t))[i] == t
  {
    var block := RowsWith(k, rows, t);
    forall i | 0 <= i < |block|
      ensures Tuples(k.q.groupBy, k.known, block)[i] == t
    {
      RowsWithCount(k, rows, t, block[i]);
      assert block[i] in multiset(block);
    }
  }

  /** Any listing of the items comes from some enumeration of the rows. */
  lemma SomeEnumeration(k: Setting, rows: seq<Sources>, p: seq<Item>) returns (rows': seq<Sources>)
    requires SettledQuery(k, RowSet(rows)) && Lists(p, ItemSet(k, rows))
    ensures multiset(rows') == multiset(rows) && Items(k, rows') == p
  {
    var order := seq(|p|, i requires 0 <= i < |p| => p[i].tuple);
    TuplesOfItems(k, rows, p, order);
    forall t | t in order
      ensures RowsWith(k, rows, t) != []
    {
      RowsWithForgetOrder(k, rows, rows, t);
    }
    rows' := RowsInOrder(k, rows, order);
    RowsInOrderAreAll(k, rows, order);
    SeenInOrder(k, rows, order);
    var items := Items(k, rows');
    forall i | 0 <= i < |p|
      ensures items[i] == p[i]
    {
      assert p[i] in p;
      ItemAt(k, rows, p[i]);
      SameItem(k, rows, rows', order[i]);
    }
  }

  lemma TuplesOfItems(k: Setting, rows: seq<Sources>, p: seq<Item>, order: seq<seq<Value>>)
    requires Lists(p, ItemSet(k, rows)) && |order| == |p| && forall i | 0 <= i < |p| :: order[i] == p[i].tuple
    ensures Distinct(order) && forall t :: t in order <==> t in Tuples(k.q.groupBy, k.known, rows)
  {
    forall i, j | 0 <= i < j < |order|
      ensures order[i] != order[j]
    {
      assert p[i] in p && p[j] in p;
      ItemAt(k, rows, p[i]);
      ItemAt(k, rows, p[j]);
    }
    forall t
      ensures t in order <==> t in Tuples(k.q.groupBy, k.known, rows)
    {
      TupleListed(k, rows, p, order, t);
    }
  }

  lemma TupleListed(k: Setting, rows: seq<Sources>, p: seq<Item>, order: seq<seq<Value>>, t: seq<Value>)
    requires Lists(p, ItemSet(k, rows)) && |order| == |p| && forall i | 0 <= i < |p| :: order[i] == p[i].tuple
    ensures t in order <==> t in Tuples(k.q.groupBy, k.known, rows)
  {
    if t in order {
      var i :| 0 <= i < |order| && order[i] == t;
      assert p[i] in p;
      ItemAt(k, rows, p[i]);
    }
    if t in Tuples(k.q.groupBy, k.known, rows) {
      var it := ItemOf(k, RowsWith(k, rows, t), t);
      TupleKept(k, RowsWith(k, rows, t), t);
      ItemAt(k, rows, it);
      assert it in p;
      var i :| 0 <= i < |p| && p[i] == it;
      assert order[i] == t;
    }
  }

  // ---- Items and their orders -----------------------------------------------------------------------

  /** Whatever order the items come in, the answer is one. */
  ghost predicate OneAnswer(k: Setting, p: seq<Item>, s: set<Item>) {
    forall q | Lists(q, s) :: ItemsAnswer(k, q) == ItemsAnswer(k, p)
  }

  ghost predicate AllFine(s: set<Item>) {
    forall it | it in s :: it.fate.Fine?
  }

  ghost function KeptOf(s: set<Item>): set<Item> {
    set it | it in s && it.kept
  }

  /** OFFSET and LIMIT, as places of the sorted groups. */
  function From(k: Setting, n: nat): (lo: nat)
    ensures lo <= n
  {
    if k.q.offset <= 0 then 0 else if k.q.offset >= n then n else k.q.offset
  }

  function UpTo(k: Setting, n: nat): (hi: nat)
    ensures From(k, n) <= hi <= n
  {
    if 0 < k.q.limit < n - From(k, n) then From(k, n) + k.q.limit else n
  }

  lemma PagedIsSlice<T>(k: Setting, s: seq<T>)
    ensures Paged(s, k.q.offset, k.q.limit) == s[From(k, |s|)..UpTo(k, |s|)]
  {
  }

  /** Each sort key holds only numbers, or none, over the items. */
  ghost predicate HomogeneousItems(s: set<Item>, width: nat) {
    && (forall x | x in s :: |x.keys| == width)
    && (forall i, x, y, z | 0 <= i < width && x in s && y in s && z in s :: Homogeneous([x.keys[i], y.keys[i], z.keys[i]]))
  }

  function KeyedItem(it: Item): Keyed {
    Keyed(AggGroup([], None), it.keys)
  }

  lemma ItemLessIsWeak(k: Setting, items: seq<Item>, s: set<Item>)
    requires HomogeneousItems(s, |k.q.orderBy|) && forall it | it in items :: it in s
    ensures WeakOn(ItemLess(k), items)
  {
    var ks := Map(items, KeyedItem);
    forall x | x in ks
      ensures exists it :: it in items && KeyedItem(it) == x
    {
      var i :| 0 <= i < |ks| && ks[i] == x;
      assert items[i] in items && KeyedItem(items[i]) == x;
    }
    KeyedIsWeak(k.fmt, k.q.orderBy, ks);
    forall it | it in items
      ensures KeyedItem(it) in ks
    {
      var i :| 0 <= i < |items| && items[i] == it;
      assert ks[i] == KeyedItem(it);
    }
    var less, keyed := ItemLess(k), KeyedLess(k.fmt, k.q.orderBy);
    assert forall a: Item, b: Item :: less(a, b) == keyed(KeyedItem(a), KeyedItem(b));
  }

  /** With no failing group the answer is a window on the sorted groups HAVING keeps. */
  lemma FineAnswer(k: Setting, q: seq<Item>, s: set<Item>)
    requires Lists(q, s) && AllFine(s)
    ensures Lists(Filter(q, Kept), KeptOf(s))
    ensures var n := |KeptOf(s)|;
            ItemsAnswer(k, q) == Ok(Shows(ItemLess(k), Filter(q, Kept), KeptOf(s), Shown, From(k, n), UpTo(k, n)))
  {
    Query.FilterDistinct(q, Kept);
    forall stage: Stage
      ensures FirstError(q, stage).None?
    {
      forall i | 0 <= i < |q|
        ensures FailsAt(q[i], stage).None?
      {
        assert q[i] in q;
      }
      NoneFails(q, stage);
    }
    SortedCount(ItemLess(k), Filter(q, Kept), KeptOf(s));
    PagedIsSlice(k, Map(SortBy(Filter(q, Kept), ItemLess(k)), Shown));
  }

  predicate Dropped(it: Item) {
    !it.kept
  }

  /** Any listing of the kept items is what HAVING leaves of a listing of all. */
  lemma WholeListing(s: set<Item>, p: seq<Item>) returns (all: seq<Item>)
    requires Lists(p, KeptOf(s))
    ensures Lists(all, s) && Filter(all, Kept) == p
  {
    var dropped := SomeListing(s - KeptOf(s));
    all := p + dropped;
    forall i, j | 0 <= i < j < |all|
      ensures all[i] != all[j]
    {
      assert all[i] in p || all[i] in dropped;
      assert i < |p| ==> all[i] in p;
      assert j >= |p| ==> all[j] in dropped;
    }
    FilterConcat(p, dropped, Kept);
    Query.FilterAll(p, Kept);
    Query.FilterNone(dropped, Kept);
  }

  lemma FineIff(k: Setting, p: seq<Item>, s: set<Item>)
    requires Lists(p, s) && AllFine(s) && HomogeneousItems(KeptOf(s), |k.q.orderBy|)
    ensures var n := |KeptOf(s)|;
            OneAnswer(k, p, s) <==> TiesAlike(ItemLess(k), KeptOf(s), Shown, From(k, n), UpTo(k, n))
  {
    var n, kept, less := |KeptOf(s)|, Filter(p, Kept), ItemLess(k);
    FineAnswer(k, p, s);
    ItemLessIsWeak(k, kept, KeptOf(s));
    LooksOneWayIff(less, kept, KeptOf(s), Shown, From(k, n), UpTo(k, n));
    if LooksOneWay(less, kept, KeptOf(s), Shown, From(k, n), UpTo(k, n)) {
      forall q | Lists(q, s)
        ensures ItemsAnswer(k, q) == ItemsAnswer(k, p)
      {
        FineAnswer(k, q, s);
      }
    } else {
      var r :| Lists(r, KeptOf(s)) &&
               Shows(less, r, KeptOf(s), Shown, From(k, n), UpTo(k, n)) != Shows(less, kept, KeptOf(s), Shown, From(k, n), UpTo(k, n));
      var q := WholeListing(s, r);
      FineAnswer(k, q, s);
      assert ItemsAnswer(k, q) != ItemsAnswer(k, p);
    }
  }

  // ---- Failing groups ---------------------------------------------------------------------------------

  /** A group on which the first step fails that fails on any. */
  ghost predicate Early(s: set<Item>, it: Item) {
    it in s && it.fate.Failed? && forall x | x in s && x.fate.Failed? :: it.fate.stage <= x.fate.stage
  }

  /** They all fail with one error. */
  ghost predicate ErrorsAgree(s: set<Item>) {
    forall x, y | Early(s, x) && Early(s, y) :: x.fate == y.fate
  }

  lemma EarlyError(k: Setting, q: seq<Item>, s: set<Item>) returns (x: Item)
    requires Lists(q, s) && !AllFine(s)
    ensures Early(s, x) && ItemsAnswer(k, q) == Err(x.fate.error)
  {
    NoneFails(q, 1);
    NoneFails(q, 2);
    NoneFails(q, 3);
    var f :| f in s && !f.fate.Fine?;
    var j :| 0 <= j < |q| && q[j] == f;
    assert FailsAt(q[j], f.fate.stage).Some?;
    var stage: Stage := if FirstError(q, 1).Some? then 1 else if FirstError(q, 2).Some? then 2 else 3;
    assert FirstError(q, stage).Some?;
    var i :| 0 <= i < |q| && FailsAt(q[i], stage) == FirstError(q, stage);
    x := q[i];
    assert x in q;
    forall y | y in s && y.fate.Failed?
      ensures stage <= y.fate.stage
    {
      var m :| 0 <= m < |q| && q[m] == y;
      assert FailsAt(q[m], y.fate.stage).Some?;
    }
  }

  lemma {:induction false} FirstOfAll(items: seq<Item>, stage: Stage)
    requires items != [] && FailsAt(items[0], stage).Some?
    ensures FirstError(items, stage) == FailsAt(items[0], stage)
    decreases |items|
  {
    if |items| > 1 {
      FirstOfAll(items[..|items| - 1], stage);
    } else {
      assert FirstError(items[..0], stage).None?;
    }
  }

  /** An early group listed first gives the error. */
  lemma AheadError(k: Setting, q: seq<Item>, s: set<Item>)
    requires Lists(q, s) && q != [] && Early(s, q[0])
    ensures ItemsAnswer(k, q) == Err(q[0].fate.error)
  {
    FirstOfAll(q, q[0].fate.stage);
    forall stage: Stage | stage < q[0].fate.stage
      ensures FirstError(q, stage).None?
    {
      NoneFails(q, stage);
      forall i | 0 <= i < |q|
        ensures FailsAt(q[i], stage).None?
      {
        assert q[i] in q;
      }
    }
  }

  lemma ListedFirst(s: set<Item>, x: Item) returns (q: seq<Item>)
    requires x in s
    ensures Lists(q, s) && q != [] && q[0] == x
  {
    var rest := SomeListing(s - {x});
    ConsLists(x, rest, s);
    q := [x] + rest;
  }

  lemma FailingIff(k: Setting, p: seq<Item>, s: set<Item>)
    requires Lists(p, s) && !AllFine(s)
    ensures OneAnswer(k, p, s) <==> ErrorsAgree(s)
  {
    if ErrorsAgree(s) {
      var x := EarlyError(k, p, s);
      forall q | Lists(q, s)
        ensures ItemsAnswer(k, q) == ItemsAnswer(k, p)
      {
        var y := EarlyError(k, q, s);
      }
    } else {
      var x, y :| Early(s, x) && Early(s, y) && x.fate != y.fate;
      var q := ListedFirst(s, x);
      var r := ListedFirst(s, y);
      AheadError(k, q, s);
      AheadError(k, r, s);
      assert ItemsAnswer(k, q) != ItemsAnswer(k, r);
    }
  }

  // ---- When the order shows ---------------------------------------------------------------------------

  /** When some step fails on some group: the groups it fails on first give one error. When
      none does: the groups HAVING keeps that the sort keys leave tied show the same output
      row, those that OFFSET and LIMIT show. */
  ghost predicate OrderFree(k: Setting, s: set<Item>) {
    if AllFine(s) then TiesAlike(ItemLess(k), KeptOf(s), Shown, From(k, |KeptOf(s)|), UpTo(k, |KeptOf(s)|)) else ErrorsAgree(s)
  }

  /** A grouped query whose expressions do not depend on the order of a group's members, over
      sort keys that are all numbers or all not: it has one answer, or one error, for every
      enumeration of the rows if and only if it is refused before any row is looked at, or
      its groups are order-free. Without ORDER BY every two groups tie. */
  lemma RowOrderForgottenIff(k: Setting, f64: Float64s, rows: seq<Sources>)
    requires Groupable(k.fmt, f64, k.q, k.known, rows) && SettledQuery(k, RowSet(rows))
    requires AllFine(ItemSet(k, rows)) ==> HomogeneousItems(KeptOf(ItemSet(k, rows)), |k.q.orderBy|)
    ensures (forall rows' | multiset(rows') == multiset(rows) :: Answer(k, rows') == Answer(k, rows)) <==>
            GroupRefusal(k.show, k.q, k.known).Some? || OrderFree(k, ItemSet(k, rows))
  {
    if GroupRefusal(k.show, k.q, k.known).None? {
      var p, s := Items(k, rows), ItemSet(k, rows);
      ItemsListed(k, rows, rows);
      if AllFine(s) { FineIff(k, p, s); } else { FailingIff(k, p, s); }
      AnswerByItems(k, f64, rows);
      if OneAnswer(k, p, s) {
        forall rows' | multiset(rows') == multiset(rows)
          ensures Answer(k, rows') == Answer(k, rows)
        {
          SamePopulation(rows, rows');
          AnswerByItems(k, f64, rows');
          ItemsListed(k, rows, rows');
        }
      } else {
        var q :| Lists(q, s) && ItemsAnswer(k, q) != ItemsAnswer(k, p);
        var rows' := SomeEnumeration(k, rows, q);
        SamePopulation(rows, rows');
        AnswerByItems(k, f64, rows');
        assert Answer(k, rows') != Answer(k, rows);
      }
    }
  }
}
