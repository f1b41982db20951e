/** Queries as DTQL documents and back. */
module Dtql {
  import opened Ordering
  import opened Traversal
  import opened Values

  // ---- Queries ------------------------------------------------------------------------

  datatype Expr =
    | FieldRef(source: string, name: string, isID: bool)
    | Constant(value: Value)
    | Array(values: Value)
    | OtherExpr

  datatype Cond =
    | Comparison(op: string, left: Expr, right: Expr)
    | Group(op: string, conds: seq<Cond>)
    | OtherCond

  datatype Base = Root(name: string, alias: string) | Parented(name: string, alias: string) | OtherBase

  datatype From = From(base: Base, joins: nat)

  datatype Column = Column(expr: Expr, alias: string)

  datatype Order = Order(expr: Expr, desc: bool)

  /** Where results go: a function that makes records, the kind of the ids of a query for
      keys only (0 is none), recordset options. Functions and options go by a number. */
  datatype Target = Target(intoRecord: Option<nat>, idKind: nat, recordsetOptions: seq<nat>)

  const NO_TARGET := Target(None, 0, [])

  datatype Query = Query(
    from: Option<From>,
    columns: seq<Column>,
    where: Option<Cond>,
    groupBy: seq<Expr>,
    having: Option<Cond>,
    orderBy: seq<Order>,
    limit: int,
    offset: int,
    cursor: string,
    target: Target)

  // ---- Documents ----------------------------------------------------------------------

  /** Nil stands for a key that is not set. */
  datatype ExprDoc = ExprDoc(field: string, value: Value, values: Value)

  /** None and Unset stand for a key that is not set. */
  datatype CondDoc = CondDoc(
    op: string,
    left: Option<ExprDoc>,
    right: Option<ExprDoc>,
    allOf: CondList,
    anyOf: CondList)

  datatype CondList = Unset | List(items: seq<CondDoc>)

  datatype ColumnDoc = ColumnDoc(expr: ExprDoc, alias: string)

  datatype OrderDoc = OrderDoc(expr: ExprDoc, desc: bool)

  datatype FromDoc = FromDoc(name: string, alias: string)

  datatype Document = Document(
    from: FromDoc,
    columns: seq<ColumnDoc>,
    where: Option<CondDoc>,
    orderBy: seq<OrderDoc>,
    limit: int,
    offset: int)

  datatype Error =
    | NoFrom
    | HasJoins
    | HasGroupBy
    | HasCursor
    | UnsupportedSource
    | UnsupportedExpression
    | UnsupportedCondition
    | UnsupportedOperator
    | NotOneExpression
    | NotOneForm
    | MissingOperand
    | EmptyGroup

  predicate InScope(op: string) {
    op == "==" || op == "In" || op == ">" || op == ">=" || op == "<" || op == "<="
  }

  // ---- Writing --------------------------------------------------------------------------

  function WriteExpr(e: Expr): Result<ExprDoc, Error> {
    match e
    case FieldRef(_, name, _) => Ok(ExprDoc(name, Nil, Nil))
    case Constant(v) => Ok(ExprDoc("", v, Nil))
    case Array(v) => Ok(ExprDoc("", Nil, v))
    case OtherExpr => Err(UnsupportedExpression)
  }

  function WrittenComparison(op: string, left: Expr, right: Expr): Result<CondDoc, Error> {
    if !InScope(op) then Err(UnsupportedOperator)
    else
      match WriteExpr(left)
      case Err(e) => Err(e)
      case Ok(l) =>
        match WriteExpr(right)
        case Err(e) => Err(e)
        case Ok(r) => Ok(CondDoc(op, Some(l), Some(r), Unset, Unset))
  }

  /** A group's operator is only looked at after its conditions. */
  function WrittenGroup(op: string, children: seq<CondDoc>): Result<CondDoc, Error> {
    if op == "AND" then Ok(CondDoc("", None, None, List(children), Unset))
    else if op == "OR" then Ok(CondDoc("", None, None, Unset, List(children)))
    else Err(UnsupportedOperator)
  }

  function WrittenCond(c: Cond): Result<CondDoc, Error>
    decreases c, 0
  {
    match c
    case Comparison(op, left, right) => WrittenComparison(op, left, right)
    case Group(op, conds) => (
      match WrittenConds(conds)
      case Err(e) => Err(e)
      case Ok(children) => WrittenGroup(op, children))
    case OtherCond => Err(UnsupportedCondition)
  }

  function WrittenConds(conds: seq<Cond>): (r: Result<seq<CondDoc>, Error>)
    ensures r.Ok? ==> |r.value| == |conds|
    decreases conds
  {
    if conds == [] then Ok([])
    else
      var n := |conds| - 1;
      match WrittenConds(conds[..n])
      case Err(e) => Err(e)
      case Ok(docs) =>
        match WrittenCond(conds[n])
        case Err(e) => Err(e)
        case Ok(doc) => Ok(docs + [doc])
  }

  lemma {:induction false} WritingStops(conds: seq<Cond>, i: nat)
    requires i <= |conds| && WrittenConds(conds[..i]).Err?
    ensures WrittenConds(conds) == WrittenConds(conds[..i])
    decreases |conds|
  {
    if i == |conds| {
      assert conds[..i] == conds;
    } else {
      assert conds[..|conds| - 1][..i] == conds[..i];
      WritingStops(conds[..|conds| - 1], i);
    }
  }

  method WriteCond(c: Cond) returns (r: Result<CondDoc, Error>)
    ensures r == WrittenCond(c)
    decreases c
  {
    match c {
      case Comparison(op, left, right) =>
        r := WrittenComparison(op, left, right);
      case OtherCond =>
        r := Err(UnsupportedCondition);
      case Group(op, conds) =>
        var children: seq<CondDoc> := [];
        for i := 0 to |conds|
          invariant WrittenConds(conds[..i]) == Ok(children)
        {
          assert conds[..i + 1][..i] == conds[..i];
          var doc := WriteCond(conds[i]);
          if doc.Err? {
            WritingStops(conds, i + 1);
            return Err(doc.error);
          }
          children := children + [doc.value];
        }
        assert conds[..|conds|] == conds;
        r := WrittenGroup(op, children);
    }
  }

  function WriteColumn(c: Column): Result<ColumnDoc, Error> {
    match WriteExpr(c.expr)
    case Err(e) => Err(e)
    case Ok(doc) => Ok(ColumnDoc(doc, c.alias))
  }

  function WriteOrder(o: Order): Result<OrderDoc, Error> {
    match WriteExpr(o.expr)
    case Err(e) => Err(e)
    case Ok(doc) => Ok(OrderDoc(doc, o.desc))
  }

  /** What is refused before anything is written. */
  function Refused(q: Query): Option<Error> {
    if q.from.None? then Some(NoFrom)
    else if q.from.value.joins > 0 then Some(HasJoins)
    else if q.groupBy != [] then Some(HasGroupBy)
    else if q.cursor != "" then Some(HasCursor)
    else if !q.from.value.base.Root? then Some(UnsupportedSource)
    else None
  }

  function WrittenWhere(where: Option<Cond>): Result<Option<CondDoc>, Error> {
    if where.None? then Ok(None) else OptionOf(WrittenCond(where.value))
  }

  /** queryToDocument; HAVING and the target are not looked at. */
  function Written(q: Query): Result<Document, Error> {
    if Refused(q).Some? then Err(Refused(q).value)
    else
      match Each(q.columns, WriteColumn)
      case Err(e) => Err(e)
      case Ok(columns) =>
        match WrittenWhere(q.where)
        case Err(e) => Err(e)
        case Ok(where) =>
          match Each(q.orderBy, WriteOrder)
          case Err(e) => Err(e)
          case Ok(orderBy) =>
            var base := q.from.value.base;
            Ok(Document(FromDoc(base.name, base.alias), columns, where, orderBy, q.limit, q.offset))
  }

  function OptionOf<T>(r: Result<T, Error>): Result<Option<T>, Error> {
    match r
    case Err(e) => Err(e)
    case Ok(v) => Ok(Some(v))
  }

  method QueryToDocument(q: Query) returns (r: Result<Document, Error>)
    ensures r == Written(q)
  {
    if q.from.None? {
      return Err(NoFrom);
    }
    if q.from.value.joins > 0 {
      return Err(HasJoins);
    }
    if |q.groupBy| > 0 {
      return Err(HasGroupBy);
    }
    if q.cursor != "" {
      return Err(HasCursor);
    }
    var base := q.from.value.base;
    if !base.Root? {
      return Err(UnsupportedSource);
    }
    var columns := RunEach(q.columns, WriteColumn);
    if columns.Err? {
      return Err(columns.error);
    }
    var where: Option<CondDoc> := None;
    if q.where.Some? {
      var cond := WriteCond(q.where.value);
      if cond.Err? {
        return Err(cond.error);
      }
      where := Some(cond.value);
    }
    var orderBy := RunEach(q.orderBy, WriteOrder);
    if orderBy.Err? {
      return Err(orderBy.error);
    }
    r := Ok(Document(FromDoc(base.name, base.alias), columns.value, where, orderBy.value, q.limit, q.offset));
  }

  // ---- Reading --------------------------------------------------------------------------

  function SetCount(e: ExprDoc): nat {
    (if e.field != "" then 1 else 0) + (if !e.value.Nil? then 1 else 0) + (if !e.values.Nil? then 1 else 0)
  }

  function ReadExpr(e: ExprDoc): Result<Expr, Error> {
    if SetCount(e) != 1 then Err(NotOneExpression)
    else if e.field != "" then Ok(FieldRef("", e.field, false))
    else if !e.value.Nil? then Ok(Constant(e.value))
    else Ok(Array(e.values))
  }

  predicate ComparisonForm(c: CondDoc) {
    c.op != "" || c.left.Some? || c.right.Some?
  }

  function Forms(c: CondDoc): nat {
    (if ComparisonForm(c) then 1 else 0) + (if c.allOf.List? then 1 else 0) + (if c.anyOf.List? then 1 else 0)
  }

  function ReadComparison(c: CondDoc): Result<Cond, Error> {
    if !InScope(c.op) then Err(UnsupportedOperator)
    else if c.left.None? || c.right.None? then Err(MissingOperand)
    else
      match ReadExpr(c.left.value)
      case Err(e) => Err(e)
      case Ok(l) =>
        match ReadExpr(c.right.value)
        case Err(e) => Err(e)
        case Ok(r) => Ok(Comparison(c.op, l, r))
  }

  function ReadCondOf(c: CondDoc): Result<Cond, Error>
    decreases c, 0
  {
    if Forms(c) != 1 then Err(NotOneForm)
    else if ComparisonForm(c) then ReadComparison(c)
    else if c.allOf.List? then
      if c.allOf.items == [] then Err(EmptyGroup)
      else
        match ReadConds(c.allOf.items)
        case Err(e) => Err(e)
        case Ok(conds) => Ok(Group("AND", conds))
    else if c.anyOf.items == [] then Err(EmptyGroup)
    else
      match ReadConds(c.anyOf.items)
      case Err(e) => Err(e)
      case Ok(conds) => Ok(Group("OR", conds))
  }

  function ReadConds(docs: seq<CondDoc>): (r: Result<seq<Cond>, Error>)
    ensures r.Ok? ==> |r.value| == |docs|
    decreases docs
  {
    if docs == [] then Ok([])
    else
      var n := |docs| - 1;
      match ReadConds(docs[..n])
      case Err(e) => Err(e)
      case Ok(conds) =>
        match ReadCondOf(docs[n])
        case Err(e) => Err(e)
        case Ok(cond) => Ok(conds + [cond])
  }

  lemma {:induction false} ReadingStops(docs: seq<CondDoc>, i: nat)
    requires i <= |docs| && ReadConds(docs[..i]).Err?
    ensures ReadConds(docs) == ReadConds(docs[..i])
    decreases |docs|
  {
    if i == |docs| {
      assert docs[..i] == docs;
    } else {
      assert docs[..|docs| - 1][..i] == docs[..i];
      ReadingStops(docs[..|docs| - 1], i);
    }
  }

  method ReadCond(c: CondDoc) returns (r: Result<Cond, Error>)
    ensures r == ReadCondOf(c)
    decreases c
  {
    var forms := 0;
    if ComparisonForm(c) {
      forms := forms + 1;
    }
    if c.allOf.List? {
      forms := forms + 1;
    }
    if c.anyOf.List? {
      forms := forms + 1;
    }
    if forms != 1 {
      return Err(NotOneForm);
    }
    if ComparisonForm(c) {
      return ReadComparison(c);
    }
    var op, subs := if c.allOf.List? then "AND" else "OR", if c.allOf.List? then c.allOf.items else c.anyOf.items;
    if |subs| == 0 {
      return Err(EmptyGroup);
    }
    var conds: seq<Cond> := [];
    for i := 0 to |subs|
      invariant ReadConds(subs[..i]) == Ok(conds)
    {
      assert subs[..i + 1][..i] == subs[..i];
      var cond := ReadCond(subs[i]);
      if cond.Err? {
        ReadingStops(subs, i + 1);
        return Err(cond.error);
      }
      conds := conds + [cond.value];
    }
    assert subs[..|subs|] == subs;
    r := Ok(Group(op, conds));
  }

  function ReadColumn(c: ColumnDoc): Result<Column, Error> {
    match ReadExpr(c.expr)
    case Err(e) => Err(e)
    case Ok(expr) => Ok(Column(expr, c.alias))
  }

  function ReadOrder(o: OrderDoc): Result<Order, Error> {
    match ReadExpr(o.expr)
    case Err(e) => Err(e)
    case Ok(expr) => Ok(Order(expr, o.desc))
  }

  /** NewRootCollectionRef: an alias that repeats the name is no alias. */
  function RootRef(name: string, alias: string): Base {
    Root(name, if alias == name then "" else alias)
  }

  function ReadWhere(where: Option<CondDoc>): Result<Option<Cond>, Error> {
    if where.None? then Ok(None) else OptionOf(ReadCondOf(where.value))
  }

  /** documentToQuery */
  function Read(d: Document): Result<Query, Error> {
    if d.from.name == "" then Err(NoFrom)
    else
      match ReadWhere(d.where)
      case Err(e) => Err(e)
      case Ok(where) =>
        match Each(d.orderBy, ReadOrder)
        case Err(e) => Err(e)
        case Ok(orderBy) =>
          match Each(d.columns, ReadColumn)
          case Err(e) => Err(e)
          case Ok(columns) =>
            Ok(Query(Some(From(RootRef(d.from.name, d.from.alias), 0)), columns, where, [], None, orderBy, d.limit, d.offset, "", NO_TARGET))
  }

  method DocumentToQuery(d: Document) returns (r: Result<Query, Error>)
    ensures r == Read(d)
  {
    if d.from.name == "" {
      return Err(NoFrom);
    }
    var base := RootRef(d.from.name, d.from.alias);
    var where: Option<Cond> := None;
    if d.where.Some? {
      var cond := ReadCond(d.where.value);
      if cond.Err? {
        return Err(cond.error);
      }
      where := Some(cond.value);
    }
    var orderBy := RunEach(d.orderBy, ReadOrder);
    if orderBy.Err? {
      return Err(orderBy.error);
    }
    var columns := RunEach(d.columns, ReadColumn);
    if columns.Err? {
      return Err(columns.error);
    }
    r := Ok(Query(Some(From(base, 0)), columns.value, where, [], None, orderBy.value, d.limit, d.offset, "", NO_TARGET));
  }

  // ---- Equality --------------------------------------------------------------------------

  /** Go's == on two lists or two maps panics, and with it Equal. */
  datatype Verdict = Same | Different | Panics

  function Of(same: bool): Verdict {
    if same then Same else Different
  }

  /** The first verdict other than Same is the last one asked for. */
  function Then(first: Verdict, second: Verdict): Verdict {
    if first == Same then second else first
  }

  /** == on two values of any type. */
  function EqualValue(v: Value, w: Value): Verdict {
    if (v.Arr? && w.Arr?) || (v.Obj? && w.Obj?) then Panics else Of(v == w)
  }

  function EqualElements(vs: seq<Value>, ws: seq<Value>): Verdict
    requires |vs| == |ws|
  {
    if vs == [] then Same else Then(EqualValue(vs[0], ws[0]), EqualElements(vs[1..], ws[1..]))
  }

  /** Array.Equal */
  function EqualArray(v: Value, w: Value): Verdict {
    if v.Nil? || w.Nil? then Of(v == w)
    else if !v.Arr? || !w.Arr? then EqualValue(v, w)
    else if |v.elems| != |w.elems| then Different
    else EqualElements(v.elems, w.elems)
  }

  function EqualExpr(a: Expr, b: Expr): Verdict {
    match a
    case FieldRef(source, name, isID) => Of(b == FieldRef(source, name, isID))
    case Constant(v) => Of(b == Constant(v))
    case Array(v) => if b.Array? then EqualArray(v, b.values) else Different
    case OtherExpr => Different
  }

  function EqualCond(a: Cond, b: Cond): Verdict
    decreases a, 0
  {
    match a
    case Comparison(op, left, right) =>
      if !b.Comparison? || op != b.op then Different else Then(EqualExpr(left, b.left), EqualExpr(right, b.right))
    case Group(op, conds) =>
      if !b.Group? || op != b.op || |conds| != |b.conds| then Different else EqualConds(conds, b.conds)
    case OtherCond => Different
  }

  function EqualConds(conds: seq<Cond>, others: seq<Cond>): Verdict
    requires |conds| == |others|
    decreases conds
  {
    if conds == [] then Same else Then(EqualCond(conds[0], others[0]), EqualConds(conds[1..], others[1..]))
  }

  function EqualWhere(a: Option<Cond>, b: Option<Cond>): Verdict {
    if a.None? || b.None? then Of(a == b) else EqualCond(a.value, b.value)
  }

  predicate EqualFrom(a: Option<From>, b: Option<From>) {
    if a.None? || b.None? then a.None? && b.None?
    else a.value.base == b.value.base && !a.value.base.OtherBase?
  }

  function EqualColumns(a: seq<Column>, b: seq<Column>): Verdict {
    if |a| != |b| then Different
    else if a == [] then Same
    else Then(Then(Of(a[0].alias == b[0].alias), EqualExpr(a[0].expr, b[0].expr)), EqualColumns(a[1..], b[1..]))
  }

  function EqualOrders(a: seq<Order>, b: seq<Order>): Verdict {
    if |a| != |b| then Different
    else if a == [] then Same
    else Then(Then(Of(a[0].desc == b[0].desc), EqualExpr(a[0].expr, b[0].expr)), EqualOrders(a[1..], b[1..]))
  }

  /** Equal over what DTQL covers: HAVING, GROUP BY and the target are not compared. */
  function EqualQueries(a: Query, b: Query): Verdict {
    if !EqualFrom(a.from, b.from) || a.limit != b.limit || a.offset != b.offset then Different
    else
      Then(EqualColumns(a.columns, b.columns),
           Then(EqualWhere(a.where, b.where), EqualOrders(a.orderBy, b.orderBy)))
  }

  // ---- What equals itself -----------------------------------------------------------------

  predicate Comparable(v: Value) {
    !v.Arr? && !v.Obj?
  }

  /** No array holds a list or a map, and nothing is of an unknown kind. */
  predicate ReflexiveExpr(e: Expr) {
    match e
    case Array(v) => if v.Arr? then forall x | x in v.elems :: Comparable(x) else Comparable(v)
    case _ => !e.OtherExpr?
  }

  predicate ReflexiveCond(c: Cond) {
    match c
    case Comparison(_, left, right) => ReflexiveExpr(left) && ReflexiveExpr(right)
    case Group(_, conds) => forall i | 0 <= i < |conds| :: ReflexiveCond(conds[i])
    case OtherCond => false
  }

  predicate ReflexiveColumns(columns: seq<Column>) {
    forall i | 0 <= i < |columns| :: ReflexiveExpr(columns[i].expr)
  }

  predicate ReflexiveOrders(orders: seq<Order>) {
    forall i | 0 <= i < |orders| :: ReflexiveExpr(orders[i].expr)
  }

  predicate ReflexiveQuery(q: Query) {
    && ReflexiveColumns(q.columns) && ReflexiveOrders(q.orderBy)
    && (q.where.Some? ==> ReflexiveCond(q.where.value))
  }

  lemma {:induction false} ElementsEqualIff(vs: seq<Value>, ws: seq<Value>)
    requires |vs| == |ws|
    ensures EqualElements(vs, ws) == Same <==> vs == ws && forall x | x in vs :: Comparable(x)
  {
    if vs != [] {
      ElementsEqualIff(vs[1..], ws[1..]);
      assert vs == [vs[0]] + vs[1..] && ws == [ws[0]] + ws[1..];
      assert forall x :: x in vs <==> x == vs[0] || x in vs[1..];
      assert vs == ws <==> vs[0] == ws[0] && vs[1..] == ws[1..];
      assert (forall x | x in vs :: Comparable(x)) <==> Comparable(vs[0]) && forall x | x in vs[1..] :: Comparable(x);
    }
  }

  lemma ExprEqualIff(a: Expr, b: Expr)
    ensures EqualExpr(a, b) == Same <==> a == b && ReflexiveExpr(a)
  {
    if a.Array? && b.Array? && a.values.Arr? && b.values.Arr? && |a.values.elems| == |b.values.elems| {
      ElementsEqualIff(a.values.elems, b.values.elems);
    }
  }

  /** Equal says two conditions are the same exactly when they are, and it can compare them. */
  lemma {:induction false} EqualIsSame(a: Cond, b: Cond)
    ensures EqualCond(a, b) == Same <==> a == b && ReflexiveCond(a)
    decreases a, 0
  {
    match a
    case Comparison(_, left, right) =>
      if b.Comparison? {
        ExprEqualIff(left, b.left);
        ExprEqualIff(right, b.right);
      }
    case OtherCond =>
    case Group(op, conds) =>
      if b.Group? && |conds| == |b.conds| {
        CondsEqualIff(conds, b.conds);
      }
  }

  lemma {:induction false} CondsEqualIff(conds: seq<Cond>, others: seq<Cond>)
    requires |conds| == |others|
    ensures EqualConds(conds, others) == Same <==> conds == others && forall i | 0 <= i < |conds| :: ReflexiveCond(conds[i])
    decreases conds
  {
    if conds != [] {
      EqualIsSame(conds[0], others[0]);
      CondsEqualIff(conds[1..], others[1..]);
      assert conds == [conds[0]] + conds[1..] && others == [others[0]] + others[1..];
      assert forall i | 0 < i < |conds| :: conds[i] == conds[1..][i - 1];
    }
  }

  lemma {:induction false} ColumnsEqualIff(a: seq<Column>, b: seq<Column>)
    ensures EqualColumns(a, b) == Same <==> a == b && ReflexiveColumns(a)
  {
    if a != [] && |a| == |b| {
      ExprEqualIff(a[0].expr, b[0].expr);
      ColumnsEqualIff(a[1..], b[1..]);
      assert a == [a[0]] + a[1..] && b == [b[0]] + b[1..];
      assert forall i | 0 < i < |a| :: a[i] == a[1..][i - 1];
    }
  }

  lemma {:induction false} OrdersEqualIff(a: seq<Order>, b: seq<Order>)
    ensures EqualOrders(a, b) == Same <==> a == b && ReflexiveOrders(a)
  {
    if a != [] && |a| == |b| {
      ExprEqualIff(a[0].expr, b[0].expr);
      OrdersEqualIff(a[1..], b[1..]);
      assert a == [a[0]] + a[1..] && b == [b[0]] + b[1..];
      assert forall i | 0 < i < |a| :: a[i] == a[1..][i - 1];
    }
  }

  /** Equal says so exactly of two queries with the same clauses, of which no array holds
      a list or a map: whatever the HAVING, the GROUP BY and the target. */
  lemma EqualIff(a: Query, b: Query)
    ensures EqualQueries(a, b) == Same <==>
              && EqualFrom(a.from, b.from)
              && (a.limit, a.offset, a.columns, a.where, a.orderBy) == (b.limit, b.offset, b.columns, b.where, b.orderBy)
              && ReflexiveQuery(a)
  {
    ColumnsEqualIff(a.columns, b.columns);
    OrdersEqualIff(a.orderBy, b.orderBy);
    if a.where.Some? && b.where.Some? {
      EqualIsSame(a.where.value, b.where.value);
    }
  }

  /** f In [[]]: the query is read and written without loss, and comparing it with itself
      panics. */
  lemma EqualPanics(name: string)
    requires name != ""
    ensures var where := Comparison("In", FieldRef("", name, false), Array(Arr([Arr([])])));
            var q := Query(Some(From(Root(name, ""), 0)), [], Some(where), [], None, [], 0, 0, "", NO_TARGET);
            Written(q).Ok? && Read(Written(q).value) == Ok(q) && EqualQueries(q, q) == Panics
  {
    var where := Comparison("In", FieldRef("", name, false), Array(Arr([Arr([])])));
    assert EqualElements([Arr([])], [Arr([])]) == Panics;
    assert EqualWhere(Some(where), Some(where)) == Panics;
  }

  // ---- Query to document and back ------------------------------------------------------------

  /** An expression the document loses nothing of. */
  predicate PlainExpr(e: Expr) {
    match e
    case FieldRef(source, name, isID) => source == "" && name != "" && !isID
    case Constant(v) => !v.Nil?
    case Array(v) => !v.Nil?
    case OtherExpr => false
  }

  predicate PlainCond(c: Cond) {
    match c
    case Comparison(_, left, right) => PlainExpr(left) && PlainExpr(right)
    case Group(_, conds) => conds != [] && forall i | 0 <= i < |conds| :: PlainCond(conds[i])
    case OtherCond => false
  }

  predicate PlainColumns(columns: seq<Column>) {
    forall i | 0 <= i < |columns| :: PlainExpr(columns[i].expr)
  }

  predicate PlainOrders(orders: seq<Order>) {
    forall i | 0 <= i < |orders| :: PlainExpr(orders[i].expr)
  }

  predicate PlainWhere(where: Option<Cond>) {
    where.Some? ==> PlainCond(where.value)
  }

  predicate PlainQuery(q: Query) {
    PlainColumns(q.columns) && PlainWhere(q.where) && PlainOrders(q.orderBy)
  }

  lemma ExprRoundTrips(e: Expr)
    requires WriteExpr(e).Ok?
    ensures ReadExpr(WriteExpr(e).value) == Ok(e) <==> PlainExpr(e)
    ensures ReadExpr(WriteExpr(e).value).Ok? ==> (ReadExpr(WriteExpr(e).value).value == e <==> PlainExpr(e))
  {
  }

  lemma {:induction false} CondRoundTrips(c: Cond)
    requires WrittenCond(c).Ok?
    ensures ReadCondOf(WrittenCond(c).value) == Ok(c) <==> PlainCond(c)
    decreases c
  {
    match c
    case Comparison(op, left, right) =>
      ExprRoundTrips(left);
      ExprRoundTrips(right);
    case Group(op, conds) =>
      CondsRoundTrip(conds);
    case OtherCond =>
  }

  lemma {:induction false} CondsRoundTrip(conds: seq<Cond>)
    requires WrittenConds(conds).Ok?
    ensures ReadConds(WrittenConds(conds).value) == Ok(conds) <==> forall i | 0 <= i < |conds| :: PlainCond(conds[i])
    decreases conds
  {
    if conds != [] {
      var n := |conds| - 1;
      var docs := WrittenConds(conds).value;
      CondsRoundTrip(conds[..n]);
      CondRoundTrips(conds[n]);
      assert docs[..n] == WrittenConds(conds[..n]).value && docs[n] == WrittenCond(conds[n]).value;
      assert conds == conds[..n] + [conds[n]];
      ReadSnoc(docs[..n], docs[n], conds[..n], conds[n]);
      assert docs == docs[..n] + [docs[n]];
    }
  }

  lemma ReadSnoc(docs: seq<CondDoc>, doc: CondDoc, conds: seq<Cond>, cond: Cond)
    ensures ReadConds(docs + [doc]) == Ok(conds + [cond]) <==> ReadConds(docs) == Ok(conds) && ReadCondOf(doc) == Ok(cond)
  {
    assert (docs + [doc])[..|docs|] == docs;
    if ReadConds(docs).Ok? && ReadCondOf(doc).Ok? {
      var a, x := ReadConds(docs).value, ReadCondOf(doc).value;
      if a + [x] == conds + [cond] {
        assert (a + [x])[..|a|] == a && (conds + [cond])[..|conds|] == conds;
        assert (a + [x])[|a|] == x && (conds + [cond])[|conds|] == cond;
      }
    }
  }

  /** Whatever is read is plain. */
  lemma {:induction false} ReadIsPlain(c: CondDoc)
    requires ReadCondOf(c).Ok?
    ensures PlainCond(ReadCondOf(c).value)
    decreases c, 0
  {
    if !ComparisonForm(c) {
      ReadsArePlain(if c.allOf.List? then c.allOf.items else c.anyOf.items);
    }
  }

  lemma {:induction false} ReadsArePlain(docs: seq<CondDoc>)
    requires ReadConds(docs).Ok?
    ensures forall i | 0 <= i < |docs| :: PlainCond(ReadConds(docs).value[i])
    decreases docs
  {
    if docs != [] {
      ReadsArePlain(docs[..|docs| - 1]);
      ReadIsPlain(docs[|docs| - 1]);
    }
  }

  /** What the collection reference constructor guarantees. */
  predicate Built(q: Query) {
    q.from.Some? && q.from.value.base.Root? ==> q.from.value.base.name != "" && q.from.value.base.alias != q.from.value.base.name
  }

  lemma ColumnsRoundTrip(columns: seq<Column>)
    requires Each(columns, WriteColumn).Ok?
    ensures Each(Each(columns, WriteColumn).value, ReadColumn) == Ok(columns) <==> PlainColumns(columns)
  {
    var docs := Each(columns, WriteColumn).value;
    forall i | 0 <= i < |columns|
      ensures ReadColumn(docs[i]) == Ok(columns[i]) <==> PlainExpr(columns[i].expr)
    {
      assert WriteColumn(columns[i]) == Ok(docs[i]);
      ExprRoundTrips(columns[i].expr);
    }
    EachIs(docs, ReadColumn, columns);
  }

  lemma OrdersRoundTrip(orders: seq<Order>)
    requires Each(orders, WriteOrder).Ok?
    ensures Each(Each(orders, WriteOrder).value, ReadOrder) == Ok(orders) <==> PlainOrders(orders)
  {
    var docs := Each(orders, WriteOrder).value;
    forall i | 0 <= i < |orders|
      ensures ReadOrder(docs[i]) == Ok(orders[i]) <==> PlainExpr(orders[i].expr)
    {
      assert WriteOrder(orders[i]) == Ok(docs[i]);
      ExprRoundTrips(orders[i].expr);
    }
    EachIs(docs, ReadOrder, orders);
  }

  lemma WhereRoundTrips(where: Option<Cond>)
    requires WrittenWhere(where).Ok?
    ensures ReadWhere(WrittenWhere(where).value) == Ok(where) <==> PlainWhere(where)
  {
    if where.Some? {
      CondRoundTrips(where.value);
    }
  }

  /** What the document of an expression says. */
  predicate Shows(e: Expr, doc: ExprDoc) {
    match e
    case FieldRef(_, name, _) => doc == ExprDoc(name, Nil, Nil)
    case Constant(v) => doc == ExprDoc("", v, Nil)
    case Array(v) => doc == ExprDoc("", Nil, v)
    case OtherExpr => false
  }

  /** What the document of a condition says: a comparison its operator and two sides, an AND
      group its conditions under one heading, an OR group under the other. */
  predicate ShowsCond(c: Cond, doc: CondDoc)
    decreases c
  {
    match c
    case Comparison(op, left, right) =>
      && doc.op == op && doc.left.Some? && doc.right.Some? && doc.allOf.Unset? && doc.anyOf.Unset?
      && Shows(left, doc.left.value) && Shows(right, doc.right.value)
    case Group(op, conds) =>
      && doc.op == "" && doc.left.None? && doc.right.None? && (op == "AND" || op == "OR")
      && (op == "AND" ==> doc.allOf.List? && doc.anyOf.Unset?) && (op == "OR" ==> doc.anyOf.List? && doc.allOf.Unset?)
      && var items := if op == "AND" then doc.allOf.items else doc.anyOf.items;
         |items| == |conds| && forall i | 0 <= i < |conds| :: ShowsCond(conds[i], items[i])
    case OtherCond => false
  }

  lemma {:induction false} WrittenCondShows(c: Cond)
    requires WrittenCond(c).Ok?
    ensures ShowsCond(c, WrittenCond(c).value)
    decreases c, 0
  {
    if c.Group? {
      WrittenCondsShow(c.conds);
    }
  }

  lemma {:induction false} WrittenCondsShow(conds: seq<Cond>)
    requires WrittenConds(conds).Ok?
    ensures forall i | 0 <= i < |conds| :: ShowsCond(conds[i], WrittenConds(conds).value[i])
    decreases conds
  {
    if conds != [] {
      WrittenCondsShow(conds[..|conds| - 1]);
      WrittenCondShows(conds[|conds| - 1]);
    }
  }

  /** What the document of an accepted query says, field by field. */
  lemma WrittenShows(q: Query)
    requires Written(q).Ok?
    ensures var d := Written(q).value;
            && q.from.Some? && q.from.value.base.Root?
            && d.from == FromDoc(q.from.value.base.name, q.from.value.base.alias)
            && d.limit == q.limit && d.offset == q.offset
            && |d.columns| == |q.columns| && |d.orderBy| == |q.orderBy|
            && (forall i | 0 <= i < |q.columns| :: d.columns[i].alias == q.columns[i].alias && Shows(q.columns[i].expr, d.columns[i].expr))
            && (forall i | 0 <= i < |q.orderBy| :: d.orderBy[i].desc == q.orderBy[i].desc && Shows(q.orderBy[i].expr, d.orderBy[i].expr))
            && d.where.Some? == q.where.Some?
            && (q.where.Some? ==> ShowsCond(q.where.value, d.where.value))
  {
    var d := Written(q).value;
    forall i | 0 <= i < |q.columns|
      ensures d.columns[i].alias == q.columns[i].alias && Shows(q.columns[i].expr, d.columns[i].expr)
    {
      assert WriteColumn(q.columns[i]) == Ok(d.columns[i]);
    }
    forall i | 0 <= i < |q.orderBy|
      ensures d.orderBy[i].desc == q.orderBy[i].desc && Shows(q.orderBy[i].expr, d.orderBy[i].expr)
    {
      assert WriteOrder(q.orderBy[i]) == Ok(d.orderBy[i]);
    }
    if q.where.Some? {
      WrittenCondShows(q.where.value);
    }
  }

  /** What writing a query and reading the document back does, clause by clause. */
  lemma ReadOfWritten(q: Query)
    requires Built(q) && Written(q).Ok?
    ensures Each(q.columns, WriteColumn).Ok? && WrittenWhere(q.where).Ok? && Each(q.orderBy, WriteOrder).Ok?
    ensures var columns := Each(Each(q.columns, WriteColumn).value, ReadColumn);
            var where := ReadWhere(WrittenWhere(q.where).value);
            var orderBy := Each(Each(q.orderBy, WriteOrder).value, ReadOrder);
            && (Read(Written(q).value).Ok? <==> columns.Ok? && where.Ok? && orderBy.Ok?)
            && (columns.Ok? && where.Ok? && orderBy.Ok? ==>
                  Read(Written(q).value).value ==
                  Query(q.from, columns.value, where.value, [], None, orderBy.value, q.limit, q.offset, q.cursor, NO_TARGET))
  {
    assert Refused(q).None?;
  }

  lemma SameParts(q: Query)
    requires Built(q) && Written(q).Ok?
    ensures Each(q.columns, WriteColumn).Ok? && WrittenWhere(q.where).Ok? && Each(q.orderBy, WriteOrder).Ok?
    ensures Read(Written(q).value) == Ok(q) <==>
            && Each(Each(q.columns, WriteColumn).value, ReadColumn) == Ok(q.columns)
            && ReadWhere(WrittenWhere(q.where).value) == Ok(q.where)
            && Each(Each(q.orderBy, WriteOrder).value, ReadOrder) == Ok(q.orderBy)
            && q.having.None? && q.target == NO_TARGET
  {
    ReadOfWritten(q);
    assert q.groupBy == [];
  }

  /** It comes back the same query if and only if its fields are unqualified, not ids and
      named, its constants and arrays are not nil, its groups are not empty, it has no
      HAVING, and it names no record function, id kind or recordset option. */
  lemma SameQueryIff(q: Query)
    requires Built(q) && Written(q).Ok?
    ensures Read(Written(q).value) == Ok(q) <==> PlainQuery(q) && q.having.None? && q.target == NO_TARGET
  {
    SameParts(q);
    ColumnsRoundTrip(q.columns);
    OrdersRoundTrip(q.orderBy);
    WhereRoundTrips(q.where);
  }

  /** A query DTQL accepts comes back Equal if and only if it is plain, whatever its HAVING
      and target, and no array in it holds a list or a map. */
  lemma QueryRoundTripsIff(q: Query)
    requires Built(q) && Written(q).Ok?
    ensures (Read(Written(q).value).Ok? && EqualQueries(Read(Written(q).value).value, q) == Same) <==>
            PlainQuery(q) && ReflexiveQuery(q)
  {
    ReadOfWritten(q);
    ColumnsRoundTrip(q.columns);
    OrdersRoundTrip(q.orderBy);
    WhereRoundTrips(q.where);
    if Read(Written(q).value).Ok? {
      EqualIff(Read(Written(q).value).value, q);
    }
  }

  /** A HAVING clause and a target are dropped without an error, and Equal does not
      notice. */
  lemma HavingIsDropped(name: string, having: Cond, target: Target)
    requires name != ""
    ensures var q := Query(Some(From(Root(name, ""), 0)), [], None, [], Some(having), [], 0, 0, "", target);
            && Written(q).Ok? && Read(Written(q).value).Ok?
            && Read(Written(q).value).value == q.(having := None, target := NO_TARGET)
            && EqualQueries(Read(Written(q).value).value, q) == Same
  {
    var q := Query(Some(From(Root(name, ""), 0)), [], None, [], Some(having), [], 0, 0, "", target);
    QueryRoundTripsIff(q);
  }

  // ---- Document to query and back ----------------------------------------------------------------

  lemma ReadExprWrites(e: ExprDoc)
    requires ReadExpr(e).Ok?
    ensures WriteExpr(ReadExpr(e).value) == Ok(e)
  {
  }

  lemma {:induction false} ReadCondWrites(c: CondDoc)
    requires ReadCondOf(c).Ok?
    ensures WrittenCond(ReadCondOf(c).value) == Ok(c)
    decreases c, 0
  {
    if !ComparisonForm(c) {
      ReadCondsWrite(if c.allOf.List? then c.allOf.items else c.anyOf.items);
    }
  }

  lemma {:induction false} ReadCondsWrite(docs: seq<CondDoc>)
    requires ReadConds(docs).Ok?
    ensures WrittenConds(ReadConds(docs).value) == Ok(docs)
    decreases docs
  {
    if docs != [] {
      var n := |docs| - 1;
      ReadCondsWrite(docs[..n]);
      ReadCondWrites(docs[n]);
      var conds := ReadConds(docs).value;
      assert conds[..n] == ReadConds(docs[..n]).value;
      assert docs == docs[..n] + [docs[n]];
    }
  }

  /** from: {name: users, as: users} loses its alias. */
  lemma AliasIsForgotten()
    ensures var d := Document(FromDoc("users", "users"), [], None, [], 0, 0);
            Read(d).Ok? && Written(Read(d).value) == Ok(d.(from := FromDoc("users", "")))
  {
  }

  /** A document DTQL accepts is written back the same if and only if its alias is not
      its name repeated. */
  lemma DocumentRoundTripsIff(d: Document)
    requires Read(d).Ok?
    ensures Written(Read(d).value) == Ok(d) <==> d.from.alias != d.from.name
  {
    var q := Read(d).value;
    forall i | 0 <= i < |d.columns|
      ensures WriteColumn(q.columns[i]) == Ok(d.columns[i])
    {
      assert ReadColumn(d.columns[i]) == Ok(q.columns[i]);
      ReadExprWrites(d.columns[i].expr);
    }
    EachIs(q.columns, WriteColumn, d.columns);
    forall i | 0 <= i < |d.orderBy|
      ensures WriteOrder(q.orderBy[i]) == Ok(d.orderBy[i])
    {
      assert ReadOrder(d.orderBy[i]) == Ok(q.orderBy[i]);
      ReadExprWrites(d.orderBy[i].expr);
    }
    EachIs(q.orderBy, WriteOrder, d.orderBy);
    if d.where.Some? {
      ReadCondWrites(d.where.value);
    }
  }
}
