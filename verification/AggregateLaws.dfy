/** What the aggregates report, on the values of a field over the rows: how many rows have
    one, their total, their mean, and the least and greatest. */
module AggregateLaws {
  import opened Ordering
  import opened Values
  import opened Where
  import opened Resolving
  import opened GroupKeys
  import opened Grouping
  import opened Selection

  /** The row has a value in the field, and it is not null. */
  predicate Has(r: Sources, source: string, name: string, v: Value) {
    source in r && name in r[source] && r[source][name] == v && !v.Nil?
  }

  predicate HasSome(r: Sources, source: string, name: string) {
    source in r && name in r[source] && !r[source][name].Nil?
  }

  predicate HasNumber(r: Sources, source: string, name: string) {
    source in r && name in r[source] && Number(r[source][name]).Some?
  }

  function RowsWith(rows: seq<Sources>, source: string, name: string): set<nat> {
    set i: nat | i < |rows| && HasSome(rows[i], source, name)
  }

  function RowsWithNumber(rows: seq<Sources>, source: string, name: string): set<nat> {
    set i: nat | i < |rows| && HasNumber(rows[i], source, name)
  }

  lemma NonNullIs(source: string, name: string, known: set<string>, r: Sources, v: Value)
    requires source in known
    ensures NonNull(FieldRef(source, name), known, r) == Some(v) <==> Has(r, source, name, v)
  {
  }

  // ---- COUNT ----------------------------------------------------------------------------

  lemma RowsWithSnoc(rows: seq<Sources>, source: string, name: string)
    requires rows != []
    ensures var n := |rows| - 1;
            |RowsWith(rows, source, name)| == |RowsWith(rows[..n], source, name)| + if HasSome(rows[n], source, name) then 1 else 0
  {
    var n := |rows| - 1;
    assert RowsWith(rows, source, name) == RowsWith(rows[..n], source, name) + if HasSome(rows[n], source, name) then {n} else {};
  }

  lemma RowsWithNumberSnoc(rows: seq<Sources>, source: string, name: string)
    requires rows != []
    ensures var n := |rows| - 1;
            |RowsWithNumber(rows, source, name)| == |RowsWithNumber(rows[..n], source, name)| + if HasNumber(rows[n], source, name) then 1 else 0
  {
    var n := |rows| - 1;
    assert RowsWithNumber(rows, source, name) ==
           RowsWithNumber(rows[..n], source, name) + if HasNumber(rows[n], source, name) then {n} else {};
  }

  lemma {:induction false} CountedRows(source: string, name: string, known: set<string>, rows: seq<Sources>)
    requires source in known
    ensures CountOf(FieldRef(source, name), known, rows) == |RowsWith(rows, source, name)|
  {
    if rows != [] {
      CountedRows(source, name, known, rows[..|rows| - 1]);
      RowsWithSnoc(rows, source, name);
    }
  }

  lemma {:induction false} NumbersCounted(source: string, name: string, known: set<string>, rows: seq<Sources>)
    requires source in known
    ensures NumbersOf(FieldRef(source, name), known, rows) == |RowsWithNumber(rows, source, name)|
  {
    if rows != [] {
      NumbersCounted(source, name, known, rows[..|rows| - 1]);
      RowsWithNumberSnoc(rows, source, name);
    }
  }

  /** COUNT of a field is how many rows have a value in it that is not null; COUNT of anything
      else, as of 1 or *, is how many rows there are. */
  lemma CountIs(fmt: Printer, source: string, name: string, known: set<string>, rows: seq<Sources>, other: Expr)
    requires source in known && !other.FieldRef?
    ensures Evaluate(fmt, Count, [FieldRef(source, name)], known, rows) == Ok(Int(|RowsWith(rows, source, name)|))
    ensures Evaluate(fmt, Count, [other], known, rows) == Ok(Int(|rows|))
  {
    CountedRows(source, name, known, rows);
    assert rows == [] ==> RowsWith(rows, source, name) == {};
  }

  // ---- SUM and AVG ------------------------------------------------------------------------

  /** What SUM reports of a field, as a number. */
  function SumReported(fmt: Printer, source: string, name: string, known: set<string>, rows: seq<Sources>): real {
    Reported(Evaluate(fmt, Sum, [FieldRef(source, name)], known, rows))
  }

  lemma {:induction false} SumConcat(e: Expr, known: set<string>, a: seq<Sources>, b: seq<Sources>)
    requires Resolvable(e, known)
    ensures SumOf(e, known, a + b) == SumOf(e, known, a) + SumOf(e, known, b)
  {
    if b == [] {
      assert a + b == a;
    } else {
      var n := |b| - 1;
      assert (a + b)[..|a + b| - 1] == a + b[..n];
      SumConcat(e, known, a, b[..n]);
    }
  }

  lemma SumReports(fmt: Printer, source: string, name: string, known: set<string>, rows: seq<Sources>)
    requires source in known
    ensures SumReported(fmt, source, name, known, rows) == SumOf(FieldRef(source, name), known, rows)
  {
    SumIsWeight(FieldRef(source, name), known, rows);
  }

  /** SUM of one row is its number, if it has one; and SUM adds up over any two lists of rows. It is
      null exactly when no row has a number. */
  lemma SumIs(fmt: Printer, source: string, name: string, known: set<string>, a: seq<Sources>, b: seq<Sources>, r: Sources)
    requires source in known
    ensures SumReported(fmt, source, name, known, [r]) == if HasNumber(r, source, name) then Number(r[source][name]).value else 0.0
    ensures SumReported(fmt, source, name, known, a + b) == SumReported(fmt, source, name, known, a) + SumReported(fmt, source, name, known, b)
    ensures Evaluate(fmt, Sum, [FieldRef(source, name)], known, a) == Ok(Nil) <==> RowsWithNumber(a, source, name) == {}
  {
    SumReports(fmt, source, name, known, a);
    SumReports(fmt, source, name, known, b);
    SumReports(fmt, source, name, known, a + b);
    SumReports(fmt, source, name, known, [r]);
    SumConcat(FieldRef(source, name), known, a, b);
    NumbersCounted(source, name, known, a);
    var none: seq<Sources> := [r][..0];
    assert none == [];
  }

  /** AVG times the number of rows that have a number is SUM, and it is null when none has. */
  lemma AverageIs(fmt: Printer, source: string, name: string, known: set<string>, rows: seq<Sources>)
    requires source in known
    ensures var avg := Evaluate(fmt, Average, [FieldRef(source, name)], known, rows);
            && avg.Ok?
            && (avg.value == Nil <==> RowsWithNumber(rows, source, name) == {})
            && (avg.value != Nil ==> Number(avg.value).Some?)
            && (avg.value != Nil ==> Number(avg.value).value * |RowsWithNumber(rows, source, name)| as real == SumReported(fmt, source, name, known, rows))
  {
    SumReports(fmt, source, name, known, rows);
    NumbersCounted(source, name, known, rows);
    var n := NumbersOf(FieldRef(source, name), known, rows);
    if n != 0 {
      MeanTimesCount(SumOf(FieldRef(source, name), known, rows), n as real);
    } else {
      assert rows == [] ==> RowsWithNumber(rows, source, name) == {};
    }
  }

  lemma MeanTimesCount(sum: real, n: real)
    requires n != 0.0
    ensures sum / n * n == sum
  {
  }

  // ---- MIN and MAX ---------------------------------------------------------------------------

  /** a is no worse than b: for MIN no greater and for MAX no less, as numbers or as text. */
  predicate NoWorse(fmt: Printer, fn: AggregateFn, a: Value, b: Value) {
    if BothNumbers(a, b) then
      (if fn == Min then Number(a).value <= Number(b).value else Number(a).value >= Number(b).value)
    else if fn == Min then !StrLess(fmt(b), fmt(a)) else !StrLess(fmt(a), fmt(b))
  }

  /** MIN and MAX of a field whose values are all numbers, or none, are null exactly when no row has a
      value, and otherwise some row's value than which no row's is better. */
  lemma BestIs(fmt: Printer, fn: AggregateFn, source: string, name: string, known: set<string>, rows: seq<Sources>)
    requires fn in {Min, Max} && source in known && Homogeneous(ValuesOf(FieldRef(source, name), known, rows))
    ensures var best := Evaluate(fmt, fn, [FieldRef(source, name)], known, rows);
            && best.Ok?
            && (best.value == Nil <==> forall r | r in rows :: !HasSome(r, source, name))
            && (best.value != Nil ==> exists r :: r in rows && Has(r, source, name, best.value))
            && (best.value != Nil ==> forall r | r in rows && HasSome(r, source, name) :: NoWorse(fmt, fn, best.value, r[source][name]))
  {
    var e := FieldRef(source, name);
    BestIsBest(fmt, fn, e, known, rows);
    var best := BestOf(fmt, fn, e, known, rows);
    var all := ValuesOf(e, known, rows);
    forall r | r in rows && HasSome(r, source, name)
      ensures r[source][name] in all
      ensures best.Some? && NoWorse(fmt, fn, best.value, r[source][name])
    {
      ValuesHeld(e, known, rows, r[source][name]);
      NonNullIs(source, name, known, r, r[source][name]);
      StrLessTotal(fmt(best.value), fmt(r[source][name]));
    }
    if best.Some? {
      ValuesHeld(e, known, rows, best.value);
      var r :| r in rows && NonNull(e, known, r) == Some(best.value);
      NonNullIs(source, name, known, r, best.value);
    }
  }
}
