/** Grouped queries: partition, aggregates, HAVING, ORDER BY, OFFSET and LIMIT. */
module Grouping {
  import opened Ordering
  import opened Values
  import opened Where
  import opened Resolving
  import opened GroupKeys
  import Query

  /** How an expression prints: names of output columns and the grouping rule use it. */
  type Shower = Expr -> string

  datatype GroupQuery = GroupQuery(
    groupBy: seq<Expr>,
    columns: seq<Column>,
    having: Option<Cond>,
    orderBy: seq<OrderKey>,
    offset: int,
    limit: int)

  // ---- Aggregates -----------------------------------------------------------------------

  /** The non-null value of a resolvable expression in a row. */
  function NonNull(e: Expr, known: set<string>, r: Sources): Option<Value>
    requires Resolvable(e, known)
  {
    var v := Resolve(e, r, known).value;
    if v.present && !v.value.Nil? then Some(v.value) else None
  }

  function NumberIn(e: Expr, known: set<string>, r: Sources): Option<real>
    requires Resolvable(e, known)
  {
    match NonNull(e, known, r)
    case None => None
    case Some(v) => Number(v)
  }

  function CountOf(e: Expr, known: set<string>, rows: seq<Sources>): nat
    requires Resolvable(e, known)
  {
    if rows == [] then 0
    else CountOf(e, known, rows[..|rows| - 1]) + if NonNull(e, known, rows[|rows| - 1]).Some? then 1 else 0
  }

  function SumOf(e: Expr, known: set<string>, rows: seq<Sources>): real
    requires Resolvable(e, known)
  {
    if rows == [] then 0.0
    else
      var x := NumberIn(e, known, rows[|rows| - 1]);
      SumOf(e, known, rows[..|rows| - 1]) + if x.Some? then x.value else 0.0
  }

  function NumbersOf(e: Expr, known: set<string>, rows: seq<Sources>): nat
    requires Resolvable(e, known)
  {
    if rows == [] then 0
    else NumbersOf(e, known, rows[..|rows| - 1]) + if NumberIn(e, known, rows[|rows| - 1]).Some? then 1 else 0
  }

  /** v replaces the best so far. */
  predicate Beats(fmt: Printer, fn: AggregateFn, v: Value, best: Value) {
    var c := Compare(fmt, v, best);
    (fn == Min && c < 0) || (fn == Max && c > 0)
  }

  function BestOf(fmt: Printer, fn: AggregateFn, e: Expr, known: set<string>, rows: seq<Sources>): Option<Value>
    requires Resolvable(e, known)
  {
    if rows == [] then None
    else
      var best := BestOf(fmt, fn, e, known, rows[..|rows| - 1]);
      match NonNull(e, known, rows[|rows| - 1])
      case None => best
      case Some(v) => if best.None? || Beats(fmt, fn, v, best.value) then Some(v) else best
  }

  /** evalAggregate. An argument that cannot be resolved is an error as soon as there
      is a row. Every aggregate the package builds has one argument. */
  function Evaluate(fmt: Printer, fn: AggregateFn, args: seq<Expr>, known: set<string>, rows: seq<Sources>): Result<Value, QueryError> {
    if fn == OtherFn then Err(Unsupported)
    else if fn == Count && |args| == 1 && !args[0].FieldRef? then Ok(Int(|rows|))
    else if rows == [] then Ok(if fn == Count then Int(0) else Nil)
    else if args == [] then Err(Unsupported)
    else if !Resolvable(args[0], known) then Err(Resolve(args[0], rows[0], known).error)
    else
      var e := args[0];
      if fn == Count then Ok(Int(CountOf(e, known, rows)))
      else if fn == Sum then Ok(if NumbersOf(e, known, rows) == 0 then Nil else Float(SumOf(e, known, rows)))
      else if fn == Average then
        Ok(if NumbersOf(e, known, rows) == 0 then Nil else Float(SumOf(e, known, rows) / NumbersOf(e, known, rows) as real))
      else
        var best := BestOf(fmt, fn, e, known, rows);
        Ok(if best.Some? then best.value else Nil)
  }

  method EvalAggregate(fmt: Printer, fn: AggregateFn, args: seq<Expr>, known: set<string>, rows: seq<Sources>)
      returns (r: Result<Value, QueryError>)
    ensures r == Evaluate(fmt, fn, args, known, rows)
  {
    if fn == OtherFn {
      return Err(Unsupported);
    }
    if fn == Count && |args| == 1 && !args[0].FieldRef? {
      return Ok(Int(|rows|));
    }
    if |rows| > 0 && args == [] {
      return Err(Unsupported);
    }
    var n, sum, cnt, best := 0, 0.0, 0, None;
    for i := 0 to |rows|
      invariant i > 0 ==> args != [] && Resolvable(args[0], known)
      invariant i == 0 ==> n == cnt == 0 && sum == 0.0 && best == None
      invariant i > 0 && fn == Count ==> n == CountOf(args[0], known, rows[..i])
      invariant i > 0 && fn in {Sum, Average} ==> sum == SumOf(args[0], known, rows[..i]) && cnt == NumbersOf(args[0], known, rows[..i])
      invariant i > 0 && fn in {Min, Max} ==> best == BestOf(fmt, fn, args[0], known, rows[..i])
    {
      assert rows[..i + 1][..i] == rows[..i];
      var v := Resolve(args[0], rows[i], known);
      if v.Err? {
        return Err(v.error);
      }
      if v.value.present && !v.value.value.Nil? {
        var value := v.value.value;
        if fn == Count {
          n := n + 1;
        } else if fn == Sum || fn == Average {
          if Number(value).Some? {
            sum := sum + Number(value).value;
            cnt := cnt + 1;
          }
        } else if best.None? || Beats(fmt, fn, value, best.value) {
          best := Some(value);
        }
      }
    }
    assert rows[..|rows|] == rows;
    if fn == Count {
      r := Ok(Int(n));
    } else if fn == Sum {
      r := Ok(if cnt == 0 then Nil else Float(sum));
    } else if fn == Average {
      r := Ok(if cnt == 0 then Nil else Float(sum / cnt as real));
    } else {
      r := Ok(if best.Some? then best.value else Nil);
    }
  }

  // ---- What aggregates conserve ------------------------------------------------------------

  function One(r: Sources): real {
    1.0
  }

  function Counted(e: Expr, known: set<string>): Sources -> real
    requires Resolvable(e, known)
  {
    (r: Sources) => if NonNull(e, known, r).Some? then 1.0 else 0.0
  }

  function Summed(e: Expr, known: set<string>): Sources -> real
    requires Resolvable(e, known)
  {
    (r: Sources) => var x := NumberIn(e, known, r); if x.Some? then x.value else 0.0
  }

  lemma {:induction false} CountIsWeight(e: Expr, known: set<string>, rows: seq<Sources>)
    requires Resolvable(e, known)
    ensures CountOf(e, known, rows) as real == Weight(rows, Counted(e, known))
  {
    if rows != [] {
      CountIsWeight(e, known, rows[..|rows| - 1]);
    }
  }

  lemma {:induction false} SumIsWeight(e: Expr, known: set<string>, rows: seq<Sources>)
    requires Resolvable(e, known)
    ensures SumOf(e, known, rows) == Weight(rows, Summed(e, known))
    ensures NumbersOf(e, known, rows) == 0 ==> SumOf(e, known, rows) == 0.0
  {
    if rows != [] {
      SumIsWeight(e, known, rows[..|rows| - 1]);
    }
  }

  lemma {:induction false} LengthIsWeight(rows: seq<Sources>)
    ensures Weight(rows, One) == |rows| as real
  {
    if rows != [] {
      LengthIsWeight(rows[..|rows| - 1]);
    }
  }

  /** What an aggregate reports as a number; null reports nothing. */
  function Reported(r: Result<Value, QueryError>): real {
    if r.Ok? && Number(r.value).Some? then Number(r.value).value else 0.0
  }

  function ReportedTotal(fmt: Printer, fn: AggregateFn, e: Expr, known: set<string>, groups: seq<seq<Sources>>): real {
    if groups == [] then 0.0
    else ReportedTotal(fmt, fn, e, known, groups[..|groups| - 1]) + Reported(Evaluate(fmt, fn, [e], known, groups[|groups| - 1]))
  }

  /** COUNT and SUM over rows as a weight. */
  function Measure(fn: AggregateFn, e: Expr, known: set<string>): Sources -> real
    requires fn in {Count, Sum} && Resolvable(e, known)
  {
    if fn == Sum then Summed(e, known) else if e.FieldRef? then Counted(e, known) else One
  }

  lemma ReportedIsWeight(fmt: Printer, fn: AggregateFn, e: Expr, known: set<string>, rows: seq<Sources>)
    requires fn in {Count, Sum} && Resolvable(e, known)
    ensures Reported(Evaluate(fmt, fn, [e], known, rows)) == Weight(rows, Measure(fn, e, known))
  {
    CountIsWeight(e, known, rows);
    SumIsWeight(e, known, rows);
    LengthIsWeight(rows);
  }

  lemma {:induction false} ReportedTotalIsWeight(fmt: Printer, fn: AggregateFn, e: Expr, known: set<string>, groups: seq<seq<Sources>>)
    requires fn in {Count, Sum} && Resolvable(e, known)
    ensures ReportedTotal(fmt, fn, e, known, groups) == TotalWeight(groups, Measure(fn, e, known))
  {
    if groups != [] {
      ReportedTotalIsWeight(fmt, fn, e, known, groups[..|groups| - 1]);
      ReportedIsWeight(fmt, fn, e, known, groups[|groups| - 1]);
    }
  }

  /** Before HAVING, per-group COUNT and SUM add up to the COUNT and SUM of all rows. */
  lemma AggregatesConserve(fmt: Printer, fn: AggregateFn, e: Expr, known: set<string>, keys: seq<string>, rows: seq<Sources>)
    requires |keys| == |rows| && fn in {Count, Sum} && Resolvable(e, known)
    ensures ReportedTotal(fmt, fn, e, known, Groups(keys, rows)) == Reported(Evaluate(fmt, fn, [e], known, rows))
  {
    ReportedTotalIsWeight(fmt, fn, e, known, Groups(keys, rows));
    GroupsConserve(keys, rows, Measure(fn, e, known));
    ReportedIsWeight(fmt, fn, e, known, rows);
  }

  // ---- MIN and MAX -------------------------------------------------------------------------

  /** The non-null values of an expression over rows. */
  function ValuesOf(e: Expr, known: set<string>, rows: seq<Sources>): seq<Value>
    requires Resolvable(e, known)
  {
    if rows == [] then []
    else
      var v := NonNull(e, known, rows[|rows| - 1]);
      ValuesOf(e, known, rows[..|rows| - 1]) + if v.Some? then [v.value] else []
  }

  /** a is at least as good as b. */
  predicate AsGood(fmt: Printer, fn: AggregateFn, a: Value, b: Value) {
    if fn == Min then Compare(fmt, a, b) <= 0 else Compare(fmt, a, b) >= 0
  }

  /** MIN and MAX over one kind of value pick a value that is there, and none is better. */
  lemma {:induction false} BestIsBest(fmt: Printer, fn: AggregateFn, e: Expr, known: set<string>, rows: seq<Sources>)
    requires fn in {Min, Max} && Resolvable(e, known) && Homogeneous(ValuesOf(e, known, rows))
    ensures var best := BestOf(fmt, fn, e, known, rows);
            && (best.None? <==> ValuesOf(e, known, rows) == [])
            && (best.Some? ==> best.value in ValuesOf(e, known, rows))
            && (best.Some? ==> forall v | v in ValuesOf(e, known, rows) :: AsGood(fmt, fn, best.value, v))
  {
    if rows != [] {
      var n := |rows| - 1;
      var before, all := ValuesOf(e, known, rows[..n]), ValuesOf(e, known, rows);
      assert forall v | v in before :: v in all;
      SomeAreHomogeneous(all, before);
      BestIsBest(fmt, fn, e, known, rows[..n]);
      var last := NonNull(e, known, rows[n]);
      if last.Some? {
        assert all[|before|] == last.value && last.value in all;
        assert forall v :: v in all <==> v in before || v == last.value;
        var best := BestOf(fmt, fn, e, known, rows[..n]);
        forall v | v in all && best.Some?
          ensures AsGood(fmt, fn, BestOf(fmt, fn, e, known, rows).value, v)
        {
          BetterIsBest(fmt, fn, all, best.value, last.value, v);
        }
        CompareFlips(fmt, last.value, last.value);
      }
    }
  }

  /** The better of two is as good as whatever the old best was as good as. */
  lemma BetterIsBest(fmt: Printer, fn: AggregateFn, all: seq<Value>, best: Value, last: Value, v: Value)
    requires fn in {Min, Max} && Homogeneous(all) && best in all && last in all && v in all
    requires v == last || AsGood(fmt, fn, best, v)
    ensures AsGood(fmt, fn, if Beats(fmt, fn, last, best) then last else best, v)
  {
    ThreeHomogeneous(all, last, best, v);
    CompareIsPreorder(fmt, last, best, v);
    ThreeHomogeneous(all, v, best, last);
    CompareIsPreorder(fmt, v, best, last);
    CompareFlips(fmt, v, last);
  }

  lemma ThreeHomogeneous(all: seq<Value>, a: Value, b: Value, c: Value)
    requires Homogeneous(all) && a in all && b in all && c in all
    ensures Homogeneous([a, b, c])
  {
    SomeAreHomogeneous(all, [a, b, c]);
  }

  /** A value occurs over the rows exactly when some row has it. */
  lemma {:induction false} ValuesHeld(e: Expr, known: set<string>, rows: seq<Sources>, v: Value)
    requires Resolvable(e, known)
    ensures v in ValuesOf(e, known, rows) <==> exists r :: r in rows && NonNull(e, known, r) == Some(v)
  {
    if rows != [] {
      var n := |rows| - 1;
      ValuesHeld(e, known, rows[..n], v);
      assert forall r :: r in rows <==> r in rows[..n] || r == rows[n];
    }
  }

  lemma {:induction false} FlattenHolds(groups: seq<seq<Sources>>, r: Sources)
    ensures r in Flatten(groups) <==> exists g :: 0 <= g < |groups| && r in groups[g]
  {
    if groups != [] {
      var n := |groups| - 1;
      FlattenHolds(groups[..n], r);
      if g :| 0 <= g < |groups| && r in groups[g] && g < n {
        assert r in groups[..n][g];
      }
    }
  }

  lemma ValuesInGroups(e: Expr, known: set<string>, keys: seq<string>, rows: seq<Sources>, v: Value)
    requires |keys| == |rows| && Resolvable(e, known)
    ensures v in ValuesOf(e, known, rows) <==> exists g :: 0 <= g < |Groups(keys, rows)| && v in ValuesOf(e, known, Groups(keys, rows)[g])
  {
    var groups := Groups(keys, rows);
    GroupsPartition(keys, rows);
    SamePopulation(Flatten(groups), rows);
    ValuesHeld(e, known, rows, v);
    if r :| r in rows && NonNull(e, known, r) == Some(v) {
      FlattenHolds(groups, r);
      var g :| 0 <= g < |groups| && r in groups[g];
      ValuesHeld(e, known, groups[g], v);
    }
    if g :| 0 <= g < |groups| && v in ValuesOf(e, known, groups[g]) {
      ValuesHeld(e, known, groups[g], v);
      var r :| r in groups[g] && NonNull(e, known, r) == Some(v);
      FlattenHolds(groups, r);
    }
  }

  /** The best of the groups' bests is as good as every value of all rows, and some
      group reports it: MIN and MAX of groups give the global MIN and MAX. */
  lemma BestOfGroups(fmt: Printer, fn: AggregateFn, e: Expr, known: set<string>, keys: seq<string>, rows: seq<Sources>, g: nat)
    requires |keys| == |rows| && fn in {Min, Max} && Resolvable(e, known) && Homogeneous(ValuesOf(e, known, rows))
    requires var groups := Groups(keys, rows);
             g < |groups| && BestOf(fmt, fn, e, known, groups[g]).Some? &&
             forall h | 0 <= h < |groups| && BestOf(fmt, fn, e, known, groups[h]).Some? ::
               AsGood(fmt, fn, BestOf(fmt, fn, e, known, groups[g]).value, BestOf(fmt, fn, e, known, groups[h]).value)
    ensures BestOf(fmt, fn, e, known, rows).Some?
    ensures Compare(fmt, BestOf(fmt, fn, e, known, Groups(keys, rows)[g]).value, BestOf(fmt, fn, e, known, rows).value) == 0
  {
    var groups := Groups(keys, rows);
    var all := ValuesOf(e, known, rows);
    BestIsBest(fmt, fn, e, known, rows);
    GroupBestIn(fmt, fn, e, known, keys, rows, g);
    var top, best := BestOf(fmt, fn, e, known, rows), BestOf(fmt, fn, e, known, groups[g]).value;
    assert best in all;
    ValuesInGroups(e, known, keys, rows, top.value);
    var h :| 0 <= h < |groups| && top.value in ValuesOf(e, known, groups[h]);
    GroupBestIn(fmt, fn, e, known, keys, rows, h);
    var other := BestOf(fmt, fn, e, known, groups[h]).value;
    ThreeHomogeneous(all, best, other, top.value);
    CompareIsPreorder(fmt, best, other, top.value);
    ThreeHomogeneous(all, top.value, other, best);
    CompareIsPreorder(fmt, top.value, other, best);
    CompareFlips(fmt, best, top.value);
    CompareFlips(fmt, best, other);
    CompareFlips(fmt, other, top.value);
  }

  lemma GroupBestIn(fmt: Printer, fn: AggregateFn, e: Expr, known: set<string>, keys: seq<string>, rows: seq<Sources>, g: nat)
    requires |keys| == |rows| && fn in {Min, Max} && Resolvable(e, known) && Homogeneous(ValuesOf(e, known, rows))
    requires g < |Groups(keys, rows)|
    ensures var group := Groups(keys, rows)[g];
            var best := BestOf(fmt, fn, e, known, group);
            && (best.None? <==> ValuesOf(e, known, group) == [])
            && (best.Some? ==> best.value in ValuesOf(e, known, rows))
            && (best.Some? ==> forall v | v in ValuesOf(e, known, group) :: AsGood(fmt, fn, best.value, v))
  {
    var group := Groups(keys, rows)[g];
    forall v | v in ValuesOf(e, known, group)
      ensures v in ValuesOf(e, known, rows)
    {
      ValuesInGroups(e, known, keys, rows, v);
    }
    SomeAreHomogeneous(ValuesOf(e, known, rows), ValuesOf(e, known, group));
    BestIsBest(fmt, fn, e, known, group);
  }
}
