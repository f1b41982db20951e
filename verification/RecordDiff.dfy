/** Field-level comparison of two records, and applying its result as a patch. */
module RecordDiff {
  import opened Ordering
  import opened Values

  datatype StructField = StructField(name: string, exported: bool, value: Value)

  /** A record's data after dereferencing, by the bucket compareRecords puts it in.
      A struct carries its type's name and its fields in declaration order. */
  datatype Datum =
    | MapData(fields: map<string, Value>)
    | StructData(typ: string, members: seq<StructField>)
    | OtherData(value: Value)

  datatype Options = Options(
    ignoreFields: set<string>,
    includeMatched: bool,
    onlyChangedFields: bool,
    absentEqualsNil: bool)

  datatype FieldValue = FieldValue(name: string, value: Datum, absent: bool)

  datatype RecordStatus = Missing | Extra | Matched | Changed

  datatype CandidateState = CandidateState(status: RecordStatus, fields: seq<FieldValue>)

  datatype Error = InvalidArgument | DuplicateID | UnsortedInput | IncomparableField | Upstream(text: string)

  predicate IsNilLike(v: Value) {
    v.Nil?
  }

  // ---- compareMap ---------------------------------------------------------------

  /** The delta, if any, for one key of two maps. */
  function DeltaAt(b: map<string, Value>, c: map<string, Value>, k: string, opts: Options): Option<FieldValue> {
    if k in opts.ignoreFields then None
    else if k in b && k in c then
      if b[k] != c[k] then Some(FieldValue(k, OtherData(c[k]), false)) else None
    else if k in b then
      if opts.absentEqualsNil && IsNilLike(b[k]) then None else Some(FieldValue(k, OtherData(Nil), true))
    else if k in c then
      if opts.absentEqualsNil && IsNilLike(c[k]) then None else Some(FieldValue(k, OtherData(c[k]), false))
    else None
  }

  function Deltas(keys: seq<string>, b: map<string, Value>, c: map<string, Value>, opts: Options): seq<FieldValue> {
    if keys == [] then []
    else
      var n := |keys| - 1;
      Deltas(keys[..n], b, c, opts) +
      match DeltaAt(b, c, keys[n], opts)
      case None => []
      case Some(d) => [d]
  }

  ghost function MapDeltas(b: map<string, Value>, c: map<string, Value>, opts: Options): seq<FieldValue> {
    Deltas(SortedIds(b.Keys + c.Keys), b, c, opts)
  }

  /** unionKeys, sorted */
  method SortedUnion(a: set<string>, b: set<string>) returns (keys: seq<string>)
    ensures keys == SortedIds(a + b)
  {
    var seen := a + b;
    var out: seq<string> := [];
    var pending := seen;
    while pending != {}
      invariant pending <= seen
      invariant Distinct(out)
      invariant forall x :: x in out <==> x in seen - pending
    {
      var k :| k in pending;
      assert k !in out;
      pending := pending - {k};
      out := out + [k];
    }
    keys := SortBy(out, StrLess);
    StrLessIsTotal(out);
    SortDistinct(out, StrLess);
    SortIsPermutation(out, StrLess);
    SortedIdsUnique(seen, keys);
  }

  method CompareMap(b: map<string, Value>, c: map<string, Value>, opts: Options) returns (deltas: seq<FieldValue>)
    ensures deltas == MapDeltas(b, c, opts)
  {
    var keys := SortedUnion(b.Keys, c.Keys);
    deltas := [];
    for i := 0 to |keys|
      invariant deltas == Deltas(keys[..i], b, c, opts)
    {
      var k := keys[i];
      assert keys[..i + 1][..i] == keys[..i];
      if k !in opts.ignoreFields {
        if k in b && k in c {
          if b[k] != c[k] {
            deltas := deltas + [FieldValue(k, OtherData(c[k]), false)];
          }
        } else if k in b {
          if !(opts.absentEqualsNil && IsNilLike(b[k])) {
            deltas := deltas + [FieldValue(k, OtherData(Nil), true)];
          }
        } else if k in c {
          if !(opts.absentEqualsNil && IsNilLike(c[k])) {
            deltas := deltas + [FieldValue(k, OtherData(c[k]), false)];
          }
        }
      }
    }
    assert keys[..|keys|] == keys;
  }

  // ---- compareStruct --------------------------------------------------------------

  predicate ByName(a: FieldValue, b: FieldValue) {
    StrLess(a.name, b.name)
  }

  /** Fields are paired by position. A baseline field without an exported partner
      makes reflection panic, which surfaces as an incomparable field. */
  function StructDeltas(b: seq<StructField>, c: seq<StructField>, opts: Options, n: nat): Result<seq<FieldValue>, Error>
    requires n <= |b|
  {
    if n == 0 then Ok([])
    else
      match StructDeltas(b, c, opts, n - 1)
      case Err(e) => Err(e)
      case Ok(ds) =>
        var f := b[n - 1];
        if !f.exported || f.name in opts.ignoreFields then Ok(ds)
        else if n > |c| || !c[n - 1].exported then Err(IncomparableField)
        else if f.value != c[n - 1].value then Ok(ds + [FieldValue(f.name, OtherData(c[n - 1].value), false)])
        else Ok(ds)
  }

  method CompareStruct(b: seq<StructField>, c: seq<StructField>, opts: Options) returns (r: Result<seq<FieldValue>, Error>)
    ensures r == match StructDeltas(b, c, opts, |b|) case Err(e) => Err(e) case Ok(ds) => Ok(SortBy(ds, ByName))
  {
    var deltas: seq<FieldValue> := [];
    for i := 0 to |b|
      invariant StructDeltas(b, c, opts, i) == Ok(deltas)
    {
      var f := b[i];
      if f.exported && f.name !in opts.ignoreFields {
        if i >= |c| || !c[i].exported {
          StructDeltasStop(b, c, opts, i + 1, |b|);
          return Err(IncomparableField);
        }
        if f.value != c[i].value {
          deltas := deltas + [FieldValue(f.name, OtherData(c[i].value), false)];
        }
      }
    }
    r := Ok(SortBy(deltas, ByName));
  }

  lemma {:induction false} StructDeltasStop(b: seq<StructField>, c: seq<StructField>, opts: Options, i: nat, n: nat)
    requires i <= n <= |b| && StructDeltas(b, c, opts, i).Err?
    ensures StructDeltas(b, c, opts, n) == StructDeltas(b, c, opts, i)
  {
    if i < n {
      StructDeltasStop(b, c, opts, i, n - 1);
    }
  }

  // ---- compareRecords, extractAllFields, baselineFields ---------------------------

  ghost function CompareRecords(b: Datum, c: Datum, opts: Options): Result<seq<FieldValue>, Error> {
    match (b, c)
    case (StructData(_, bs), StructData(_, cs)) => (
      match StructDeltas(bs, cs, opts, |bs|)
      case Err(e) => Err(e)
      case Ok(ds) => Ok(SortBy(ds, ByName)))
    case (MapData(bm), MapData(cm)) => Ok(MapDeltas(bm, cm, opts))
    case (OtherData(bv), OtherData(cv)) => Ok(if bv != cv then [FieldValue("_value", c, false)] else [])
    case _ => Ok([FieldValue("_value", c, false)])
  }

  method CompareRecordsByBucket(b: Datum, c: Datum, opts: Options) returns (r: Result<seq<FieldValue>, Error>)
    ensures r == CompareRecords(b, c, opts)
  {
    match (b, c) {
      case (StructData(_, bs), StructData(_, cs)) =>
        r := CompareStruct(bs, cs, opts);
      case (MapData(bm), MapData(cm)) =>
        var deltas := CompareMap(bm, cm, opts);
        r := Ok(deltas);
      case (OtherData(bv), OtherData(cv)) =>
        r := Ok(if bv != cv then [FieldValue("_value", c, false)] else []);
      case _ =>
        r := Ok([FieldValue("_value", c, false)]);
    }
  }

  function Exported(members: seq<StructField>): seq<FieldValue> {
    if members == [] then []
    else
      var n := |members| - 1;
      Exported(members[..n]) +
      if members[n].exported then [FieldValue(members[n].name, OtherData(members[n].value), false)] else []
  }

  ghost function FieldList(m: map<string, Value>): seq<FieldValue> {
    var keys := SortedIds(m.Keys);
    SortedIdsAscend(m.Keys);
    seq(|keys|, i requires 0 <= i < |keys| => assert keys[i] in keys; FieldValue(keys[i], OtherData(m[keys[i]]), false))
  }

  ghost function AllFields(d: Datum): seq<FieldValue> {
    match d
    case StructData(_, members) => Exported(members)
    case MapData(m) => FieldList(m)
    case OtherData(_) => [FieldValue("_value", d, false)]
  }

  method ExportedFields(members: seq<StructField>) returns (out: seq<FieldValue>)
    ensures out == Exported(members)
  {
    out := [];
    for i := 0 to |members|
      invariant out == Exported(members[..i])
    {
      assert members[..i + 1][..i] == members[..i];
      if members[i].exported {
        out := out + [FieldValue(members[i].name, OtherData(members[i].value), false)];
      }
    }
    assert members[..|members|] == members;
  }

  method MapFields(m: map<string, Value>) returns (out: seq<FieldValue>)
    ensures out == FieldList(m)
  {
    var keys := SortedUnion(m.Keys, {});
    assert m.Keys + {} == m.Keys;
    SortedIdsAscend(m.Keys);
    out := [];
    for i := 0 to |keys|
      invariant |out| == i
      invariant forall j | 0 <= j < i :: keys[j] in m && out[j] == FieldValue(keys[j], OtherData(m[keys[j]]), false)
    {
      assert keys[i] in keys;
      out := out + [FieldValue(keys[i], OtherData(m[keys[i]]), false)];
    }
  }

  method ExtractAllFields(d: Datum) returns (out: seq<FieldValue>)
    ensures out == AllFields(d)
  {
    match d {
      case StructData(_, members) =>
        out := ExportedFields(members);
      case MapData(m) =>
        var fields := MapFields(m);
        out := fields;
      case OtherData(_) =>
        out := [FieldValue("_value", d, false)];
    }
  }

  function Names(fields: seq<FieldValue>): set<string> {
    set i | 0 <= i < |fields| :: fields[i].name
  }

  function DeltaNames(states: seq<CandidateState>): set<string> {
    if states == [] then {}
    else DeltaNames(states[..|states| - 1]) + Names(states[|states| - 1].fields)
  }

  ghost function BaselineFields(d: Datum, states: seq<CandidateState>, opts: Options): seq<FieldValue> {
    if !opts.onlyChangedFields then AllFields(d)
    else
      var names := DeltaNames(states);
      if names == {} then [] else Filter(AllFields(d), (f: FieldValue) => f.name in names)
  }

  method BuildBaseline(d: Datum, states: seq<CandidateState>, opts: Options) returns (fields: seq<FieldValue>)
    ensures fields == BaselineFields(d, states, opts)
  {
    var all := ExtractAllFields(d);
    if !opts.onlyChangedFields {
      return all;
    }
    var names: set<string> := {};
    for i := 0 to |states|
      invariant names == DeltaNames(states[..i])
    {
      assert states[..i + 1][..i] == states[..i];
      names := names + Names(states[i].fields);
    }
    assert states[..|states|] == states;
    if names == {} {
      return [];
    }
    fields := Filter(all, (f: FieldValue) => f.name in names);
  }

  // ---- classify --------------------------------------------------------------------

  ghost function Classify(b: Option<Datum>, c: Option<Datum>, opts: Options): Result<CandidateState, Error> {
    if c.None? then Ok(CandidateState(Missing, []))
    else if b.None? then Ok(CandidateState(Extra, AllFields(c.value)))
    else
      match CompareRecords(b.value, c.value, opts)
      case Err(e) => Err(e)
      case Ok(ds) => Ok(if ds == [] then CandidateState(Matched, []) else CandidateState(Changed, ds))
  }

  method ClassifyPair(b: Option<Datum>, c: Option<Datum>, opts: Options) returns (r: Result<CandidateState, Error>)
    ensures r == Classify(b, c, opts)
  {
    if c.None? {
      return Ok(CandidateState(Missing, []));
    }
    if b.None? {
      var all := ExtractAllFields(c.value);
      return Ok(CandidateState(Extra, all));
    }
    var deltas := CompareRecordsByBucket(b.value, c.value, opts);
    match deltas {
      case Err(e) => r := Err(e);
      case Ok(ds) => r := Ok(if ds == [] then CandidateState(Matched, []) else CandidateState(Changed, ds));
    }
  }
}
