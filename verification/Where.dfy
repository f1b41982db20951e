/** Query conditions over decoded records: matchesWhere and the comparators
    shared by WHERE, ORDER BY, MIN, MAX and HAVING. */
module Where {
  import opened Ordering
  import opened Values

  datatype AggregateFn = Count | Sum | Average | Min | Max | OtherFn

  datatype Expr =
    | FieldRef(source: string, name: string)
    | Constant(value: Value)
    | Array(values: Value)
    | Aggregate(fn: AggregateFn, args: seq<Expr>)
    | OtherExpr(text: string)

  datatype Operator =
    | Equal | Greater | GreaterOrEqual | Less | LessOrEqual | In | And | Or | OtherOperator

  datatype Cond =
    | Comparison(op: Operator, left: Expr, right: Expr)
    | Group(op: Operator, conds: seq<Cond>)
    | OtherCond

  /** How fmt.Sprint prints a value: a parameter of everything that compares or
      groups by text. */
  type Printer = Value -> string

  /** Three-way comparison: numbers by value, everything else by printed text. */
  function Compare(fmt: Printer, a: Value, b: Value): int {
    if Number(a).Some? && Number(b).Some? then
      var x, y := Number(a).value, Number(b).value;
      if x < y then -1 else if x > y then 1 else 0
    else
      var s, t := fmt(a), fmt(b);
      if StrLess(s, t) then -1 else if StrLess(t, s) then 1 else 0
  }

  predicate CompareOp(fmt: Printer, op: Operator, a: Value, b: Value) {
    var c := Compare(fmt, a, b);
    match op
    case Equal => c == 0
    case Greater => c > 0
    case GreaterOrEqual => c >= 0
    case Less => c < 0
    case LessOrEqual => c <= 0
    case _ => false
  }

  /** Array elements match numbers by value; slices and maps never match. */
  predicate ElementEquals(a: Value, b: Value) {
    if Number(a).Some? then Number(b) == Number(a)
    else if a.Arr? || a.Obj? || b.Arr? || b.Obj? then false
    else a == b
  }

  predicate FieldContains(field: Value, v: Value) {
    field.Arr? && exists i | 0 <= i < |field.elems| :: ElementEquals(field.elems[i], v)
  }

  predicate FieldContainsAny(field: Value, values: Value) {
    values.Arr? && exists i | 0 <= i < |values.elems| :: FieldContains(field, values.elems[i])
  }

  predicate MatchesComparison(fmt: Printer, data: Fields, op: Operator, left: Expr, right: Expr) {
    match left
    case FieldRef(_, name) => (
      match right
      case Constant(value) => (
        match op
        case Equal => At(data, name) == Norm(value)
        case Greater | GreaterOrEqual | Less | LessOrEqual =>
          name in data && CompareOp(fmt, op, data[name], Norm(value))
        case _ => false)
      case Array(values) => FieldContainsAny(At(data, name), values)
      case _ => false)
    case Constant(value) =>
      right.FieldRef? && op == In && FieldContains(At(data, right.name), Norm(value))
    case _ => false
  }

  predicate MatchesCond(fmt: Printer, data: Fields, cond: Cond) {
    match cond
    case Comparison(op, left, right) => MatchesComparison(fmt, data, op, left, right)
    case Group(op, conds) => op == And && forall i | 0 <= i < |conds| :: MatchesCond(fmt, data, conds[i])
    case OtherCond => false
  }

  /** A missing condition matches every record. */
  predicate Matches(fmt: Printer, data: Fields, where: Option<Cond>) {
    where.None? || MatchesCond(fmt, data, where.value)
  }

  /** The one condition shape an index is asked about. */
  function AsEquality(where: Option<Cond>): Option<(string, Value)> {
    if where.Some? && where.value.Comparison? && where.value.op == Equal
       && where.value.left.FieldRef? && where.value.right.Constant?
    then Some((where.value.left.name, where.value.right.value))
    else None
  }

  // ---- Compare as an order --------------------------------------------------

  predicate AllNumbers(vs: seq<Value>) {
    forall v | v in vs :: Number(v).Some?
  }

  predicate NoNumbers(vs: seq<Value>) {
    forall v | v in vs :: Number(v).None?
  }

  /** Every value of the column is a number, or none is. */
  predicate Homogeneous(vs: seq<Value>) {
    AllNumbers(vs) || NoNumbers(vs)
  }

  lemma CompareFlips(fmt: Printer, a: Value, b: Value)
    ensures Compare(fmt, a, b) == -Compare(fmt, b, a)
  {
    StrLessTotal(fmt(a), fmt(b));
  }

  /** On a homogeneous column the comparator is a total preorder. */
  lemma CompareIsPreorder(fmt: Printer, a: Value, b: Value, c: Value)
    requires Homogeneous([a, b, c])
    ensures Compare(fmt, a, a) == 0
    ensures Compare(fmt, a, b) == -Compare(fmt, b, a)
    ensures Compare(fmt, a, b) <= 0 && Compare(fmt, b, c) <= 0 ==> Compare(fmt, a, c) <= 0
    ensures Compare(fmt, a, b) < 0 && Compare(fmt, b, c) <= 0 ==> Compare(fmt, a, c) < 0
    ensures Compare(fmt, a, b) <= 0 && Compare(fmt, b, c) < 0 ==> Compare(fmt, a, c) < 0
  {
    assert a in [a, b, c] && b in [a, b, c] && c in [a, b, c];
    if !AllNumbers([a, b, c]) {
      TextIsPreorder(fmt(a), fmt(b), fmt(c));
    }
  }

  lemma TextIsPreorder(a: string, b: string, c: string)
    ensures !StrLess(a, a)
    ensures !(StrLess(a, b) && StrLess(b, a))
    ensures !StrLess(b, a) && !StrLess(c, b) ==> !StrLess(c, a)
    ensures StrLess(a, b) && !StrLess(c, b) ==> StrLess(a, c)
    ensures !StrLess(b, a) && StrLess(b, c) ==> StrLess(a, c)
  {
    StrLessTotal(a, b);
    StrLessTotal(b, c);
    StrLessTotal(a, c);
    if StrLess(a, b) && StrLess(b, c) { StrLessTransitive(a, b, c); }
    if StrLess(c, a) && StrLess(a, b) { StrLessTransitive(c, a, b); }
    if StrLess(b, c) && StrLess(c, a) { StrLessTransitive(b, c, a); }
  }

  /** Mixing numbers and text breaks transitivity: 9 < 10 < "1a" < 9. */
  lemma MixedColumnCycles(fmt: Printer)
    requires fmt(Float(9.0)) == "9" && fmt(Float(10.0)) == "10" && fmt(Str("1a")) == "1a"
    ensures Compare(fmt, Float(9.0), Float(10.0)) < 0
    ensures Compare(fmt, Float(10.0), Str("1a")) < 0
    ensures Compare(fmt, Str("1a"), Float(9.0)) < 0
  {
    assert "10"[1..] == "0" && "1a"[1..] == "a";
    assert StrLess("0", "a");
  }
}
