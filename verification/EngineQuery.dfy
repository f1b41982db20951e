/** A single-source query run against a columnar engine, index included. */
module EngineQuery {
  import opened Ordering
  import opened Where
  import opened T = Table
  import opened Columnar
  import opened Resolving
  import opened Query
  import Serialized

  datatype Failed = EngineFailed(failure: Failure) | QueryFailed(error: QueryError)

  /** loadCandidateRows: the rows the index selects, or all of them. */
  method LoadCandidateRows(e: ColumnarEngine, where: Option<Cond>) returns (r: Result<seq<Row>, Failure>)
    requires e.Valid()
    ensures r == if e.usable then Ok(Considered(e.schema, e.Indexings(), e.rows, where)) else Err(Unusable)
  {
    var candidates := e.CandidateRows(where);
    if candidates.Err? {
      return Err(candidates.error);
    }
    if candidates.value.Some? {
      ghost var c := AsEquality(where).value;
      ghost var ids := Candidates(e.schema, e.Indexings(), e.rows, Equality(c.0, c.1)).value;
      assert ids * e.rows.Keys == ids;
      return Ok(candidates.value.value);
    }
    r := e.Rows();
  }

  /** ExecuteQueryToRecordsReader for an ungrouped query over one collection. */
  method ExecuteOn(fmt: Printer, path: PathPrinter, e: ColumnarEngine, q: Query) returns (r: Result<seq<Record>, Failed>)
    requires e.Valid()
    ensures !e.usable ==> r == Err(EngineFailed(Unusable))
    ensures e.usable ==>
              r == match Answer(fmt, path, q, Considered(e.schema, e.Indexings(), e.rows, q.where))
                   case Ok(records) => Ok(records)
                   case Err(error) => Err(QueryFailed(error))
  {
    var rows := LoadCandidateRows(e, q.where);
    if rows.Err? {
      return Err(EngineFailed(rows.error));
    }
    var records := Execute(fmt, path, q, rows.value);
    match records {
      case Ok(rs) => r := Ok(rs);
      case Err(error) => r := Err(QueryFailed(error));
    }
  }

  /** The simple engine enumerates its rows in no order; a query over it still has one
      answer. */
  lemma SerializedHasOneAnswer(fmt: Printer, path: PathPrinter, q: Query, t: Serialized.Docs, a: seq<Row>, b: seq<Row>)
    requires Serialized.Lists(t, a) && Serialized.Lists(t, b)
    requires HomogeneousKeys(q.orderBy, SourcesOf(q, Filter(a, Keeper(fmt, path, q))))
    ensures Answer(fmt, path, q, a) == Answer(fmt, path, q, b)
  {
    Serialized.ListingsPermute(t, a, b);
    AnswerForgetsOrder(fmt, path, q, a, b);
  }
}
