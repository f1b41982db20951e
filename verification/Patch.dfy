/** The diff as a patch: applying candidate i's states to the baseline rebuilds
    candidate i. */
module Patch {
  import opened Ordering
  import opened Values
  import opened RecordDiff
  import opened Merge
  import opened Diff

  // ---- Records as field maps --------------------------------------------------------------

  function MemberMap(members: seq<StructField>): Fields {
    if members == [] then map[]
    else
      var n := |members| - 1;
      var rest := MemberMap(members[..n]);
      if members[n].exported then rest[members[n].name := members[n].value] else rest
  }

  function FieldsOf(d: Datum): Fields {
    match d
    case MapData(m) => m
    case StructData(_, members) => MemberMap(members)
    case OtherData(v) => map["_value" := v]
  }

  ghost predicate MembersDistinct(members: seq<StructField>) {
    forall i, j | 0 <= i < j < |members| :: members[i].name != members[j].name
  }

  /** Two records of one shape: two maps, two structs of one type, or two others. */
  ghost predicate SameShape(b: Datum, c: Datum) {
    match (b, c)
    case (MapData(_), MapData(_)) => true
    case (OtherData(_), OtherData(_)) => true
    case (StructData(_, bs), StructData(_, cs)) =>
      && |bs| == |cs| && MembersDistinct(bs)
      && (forall i | 0 <= i < |bs| :: bs[i].name == cs[i].name && bs[i].exported == cs[i].exported)
    case _ => false
  }

  /** One delta applied to a record's fields. A delta that carries a whole map or
      struct (the _value delta between records of different kinds) replaces the record. */
  function PatchOne(f: Fields, d: FieldValue): Fields {
    if d.absent then f - {d.name}
    else if d.value.OtherData? then f[d.name := d.value.value]
    else FieldsOf(d.value)
  }

  function PatchFields(f: Fields, ds: seq<FieldValue>): Fields {
    if ds == [] then f else PatchOne(PatchFields(f, ds[..|ds| - 1]), ds[|ds| - 1])
  }

  function ApplyState(base: Option<Fields>, state: CandidateState): Option<Fields> {
    match state.status
    case Missing => None
    case Extra => Some(PatchFields(map[], state.fields))
    case Matched => base
    case Changed => if base.Some? then Some(PatchFields(base.value, state.fields)) else None
  }

  /** Two records agree field by field outside the ignored names; with
      WithAbsentEqualsNil a missing field agrees with a nil one. */
  ghost predicate AgreeAt(f: Fields, g: Fields, k: string, opts: Options) {
    || k in opts.ignoreFields
    || (k in f && k in g && f[k] == g[k])
    || (k !in f && k !in g)
    || (opts.absentEqualsNil && At(f, k).Nil? && At(g, k).Nil?)
  }

  ghost predicate Agree(f: Fields, g: Fields, opts: Options) {
    forall k :: AgreeAt(f, g, k, opts)
  }

  // ---- One record --------------------------------------------------------------------------

  ghost predicate NamesDistinct(ds: seq<FieldValue>) {
    forall i, j | 0 <= i < j < |ds| :: ds[i].name != ds[j].name
  }

  /** A patch sets what it names and leaves the rest, in whatever order it is listed. */
  lemma {:induction false} PatchAt(f: Fields, ds: seq<FieldValue>, k: string)
    requires NamesDistinct(ds) && forall i | 0 <= i < |ds| :: ds[i].absent || ds[i].value.OtherData?
    ensures forall i | 0 <= i < |ds| && ds[i].name == k ::
              if ds[i].absent then k !in PatchFields(f, ds)
              else k in PatchFields(f, ds) && PatchFields(f, ds)[k] == ds[i].value.value
    ensures (forall i | 0 <= i < |ds| :: ds[i].name != k) ==>
              (k in PatchFields(f, ds) <==> k in f) && (k in f ==> PatchFields(f, ds)[k] == f[k])
  {
    if ds != [] {
      PatchAt(f, ds[..|ds| - 1], k);
      assert forall i | 0 <= i < |ds| - 1 :: ds[..|ds| - 1][i] == ds[i];
    }
  }

  /** What the delta list of two maps contains. */
  lemma {:induction false} DeltasContain(keys: seq<string>, b: Fields, c: Fields, opts: Options)
    requires Distinct(keys)
    ensures NamesDistinct(Deltas(keys, b, c, opts))
    ensures forall i | 0 <= i < |Deltas(keys, b, c, opts)| ::
              var d := Deltas(keys, b, c, opts)[i];
              d.name in keys && DeltaAt(b, c, d.name, opts) == Some(d)
    ensures forall k | k in keys && DeltaAt(b, c, k, opts).Some? :: DeltaAt(b, c, k, opts).value in Deltas(keys, b, c, opts)
    ensures forall k | k in keys && DeltaAt(b, c, k, opts).Some? :: DeltaAt(b, c, k, opts).value.name == k
  {
    if keys != [] {
      var n := |keys| - 1;
      var rest := Deltas(keys[..n], b, c, opts);
      DeltasContain(keys[..n], b, c, opts);
      assert forall k :: k in keys <==> k in keys[..n] || k == keys[n];
      forall i | 0 <= i < |rest|
        ensures rest[i].name != keys[n]
      {
        var j :| 0 <= j < n && keys[..n][j] == rest[i].name;
        assert keys[j] != keys[n];
      }
    }
  }

  /** Agreement without options is equality. */
  lemma AgreeIsEqual(f: Fields, g: Fields, opts: Options)
    requires opts.ignoreFields == {} && !opts.absentEqualsNil && Agree(f, g, opts)
    ensures f == g
  {
    forall k
      ensures k in f <==> k in g
      ensures k in f ==> f[k] == g[k]
    {
      assert AgreeAt(f, g, k, opts);
    }
  }

  /** A patch that lists exactly one field's new value, or nothing, for k. */
  lemma PatchHit(f: Fields, ds: seq<FieldValue>, d: FieldValue)
    requires NamesDistinct(ds) && (forall i | 0 <= i < |ds| :: ds[i].absent || ds[i].value.OtherData?) && d in ds
    ensures d.absent ==> d.name !in PatchFields(f, ds)
    ensures !d.absent ==> d.value.OtherData? && d.name in PatchFields(f, ds) && PatchFields(f, ds)[d.name] == d.value.value
  {
    PatchAt(f, ds, d.name);
    var i :| 0 <= i < |ds| && ds[i] == d;
  }

  lemma PatchMiss(f: Fields, ds: seq<FieldValue>, k: string)
    requires NamesDistinct(ds) && (forall i | 0 <= i < |ds| :: ds[i].absent || ds[i].value.OtherData?)
    requires forall d | d in ds :: d.name != k
    ensures k in PatchFields(f, ds) <==> k in f
    ensures k in f ==> PatchFields(f, ds)[k] == f[k]
  {
    PatchAt(f, ds, k);
  }

  lemma MapDeltasContain(b: Fields, c: Fields, opts: Options)
    ensures NamesDistinct(MapDeltas(b, c, opts))
    ensures forall d | d in MapDeltas(b, c, opts) :: DeltaAt(b, c, d.name, opts) == Some(d)
    ensures forall k | DeltaAt(b, c, k, opts).Some? :: DeltaAt(b, c, k, opts).value in MapDeltas(b, c, opts)
  {
    var keys := SortedIds(b.Keys + c.Keys);
    SortedIdsAscend(b.Keys + c.Keys);
    AscendingDistinct(keys);
    DeltasContain(keys, b, c, opts);
    forall k | DeltaAt(b, c, k, opts).Some?
      ensures DeltaAt(b, c, k, opts).value in MapDeltas(b, c, opts)
    {
      assert k in keys;
    }
  }

  lemma MapPatchAt(b: Fields, c: Fields, opts: Options, k: string)
    ensures AgreeAt(PatchFields(b, MapDeltas(b, c, opts)), c, k, opts)
    ensures DeltaAt(b, c, k, opts).None? <==> AgreeAt(b, c, k, opts)
    ensures DeltaAt(b, c, k, opts).Some? ==> DeltaAt(b, c, k, opts).value in MapDeltas(b, c, opts)
  {
    var ds := MapDeltas(b, c, opts);
    MapDeltasContain(b, c, opts);
    match DeltaAt(b, c, k, opts)
    case Some(d) => PatchHit(b, ds, d);
    case None => PatchMiss(b, ds, k);
  }

  /** Every delta of two maps is a real difference. */
  lemma DeltasAreReal(b: Fields, c: Fields, opts: Options)
    ensures forall d | d in MapDeltas(b, c, opts) ::
              && d.name !in opts.ignoreFields
              && if d.absent then d.name in b && d.name !in c
                 else d.name in c && d.value == OtherData(c[d.name]) && (d.name !in b || b[d.name] != c[d.name])
    ensures forall d | d in MapDeltas(b, c, opts) :: DeltaAt(b, c, d.name, opts) == Some(d)
  {
    MapDeltasContain(b, c, opts);
  }

  /** For two maps: patching rebuilds the candidate, and there are no deltas exactly
      when the records agree. */
  lemma MapPatchAgrees(b: Fields, c: Fields, opts: Options)
    ensures Agree(PatchFields(b, MapDeltas(b, c, opts)), c, opts)
    ensures MapDeltas(b, c, opts) == [] <==> Agree(b, c, opts)
    ensures opts.ignoreFields == {} && !opts.absentEqualsNil ==> PatchFields(b, MapDeltas(b, c, opts)) == c
  {
    var ds := MapDeltas(b, c, opts);
    forall k
      ensures AgreeAt(PatchFields(b, ds), c, k, opts)
      ensures DeltaAt(b, c, k, opts).None? <==> AgreeAt(b, c, k, opts)
      ensures DeltaAt(b, c, k, opts).Some? ==> ds != []
    {
      MapPatchAt(b, c, opts, k);
    }
    if ds != [] {
      DeltasAreReal(b, c, opts);
      assert DeltaAt(b, c, ds[0].name, opts).Some?;
      assert !AgreeAt(b, c, ds[0].name, opts);
    }
    if opts.ignoreFields == {} && !opts.absentEqualsNil {
      AgreeIsEqual(PatchFields(b, ds), c, opts);
    }
  }

  lemma AscendingDistinct(keys: seq<string>)
    requires StrictlyAscending(StrLess, keys)
    ensures Distinct(keys)
  {
    forall i, j | 0 <= i < j < |keys|
      ensures keys[i] != keys[j]
    {
      StrLessTotal(keys[i], keys[j]);
    }
  }

  /** What the struct comparison lists before sorting. */
  lemma {:induction false} StructDeltasContain(bs: seq<StructField>, cs: seq<StructField>, opts: Options, n: nat)
    requires n <= |bs| == |cs| && MembersDistinct(bs)
    requires forall i | 0 <= i < |bs| :: bs[i].name == cs[i].name && bs[i].exported == cs[i].exported
    ensures StructDeltas(bs, cs, opts, n).Ok?
    ensures var ds := StructDeltas(bs, cs, opts, n).value;
            && NamesDistinct(ds)
            && (forall i | 0 <= i < |ds| :: !ds[i].absent && ds[i].value.OtherData? &&
                  exists j :: 0 <= j < n && bs[j].name == ds[i].name && Differs(bs, cs, opts, j) && ds[i].value.value == cs[j].value)
            && (forall j | 0 <= j < n && Differs(bs, cs, opts, j) :: FieldValue(bs[j].name, OtherData(cs[j].value), false) in ds)
  {
    if n > 0 {
      StructDeltasContain(bs, cs, opts, n - 1);
    }
  }

  predicate Differs(bs: seq<StructField>, cs: seq<StructField>, opts: Options, j: nat)
    requires j < |bs| == |cs|
  {
    bs[j].exported && bs[j].name !in opts.ignoreFields && bs[j].value != cs[j].value
  }

  /** Sorting deltas by name keeps names distinct. */
  lemma SortedNamesDistinct(ds: seq<FieldValue>)
    requires NamesDistinct(ds)
    ensures NamesDistinct(SortBy(ds, ByName))
    ensures forall d :: d in SortBy(ds, ByName) <==> d in ds
  {
    forall x: FieldValue, y: FieldValue
      ensures !ByName(x, x) && !(ByName(x, y) && ByName(y, x))
      ensures ByName(x, y) || ByName(y, x) || x.name == y.name
    {
      StrLessTotal(x.name, y.name);
    }
    forall x: FieldValue, y: FieldValue, z: FieldValue | ByName(x, y) && ByName(y, z)
      ensures ByName(x, z)
    {
      StrLessTransitive(x.name, y.name, z.name);
    }
    assert TotalOn(ByName, ds);
    SortDistinct(ds, ByName);
    SortIsPermutation(ds, ByName);
    var r := SortBy(ds, ByName);
    forall i, j | 0 <= i < j < |r|
      ensures r[i].name != r[j].name
    {
      assert ByName(r[i], r[j]);
    }
  }

  lemma {:induction false} MemberMapAt(members: seq<StructField>, k: string)
    requires MembersDistinct(members)
    ensures forall i | 0 <= i < |members| && members[i].name == k ::
              if members[i].exported then k in MemberMap(members) && MemberMap(members)[k] == members[i].value
              else k !in MemberMap(members)
    ensures (forall i | 0 <= i < |members| :: members[i].name != k) ==> k !in MemberMap(members)
  {
    if members != [] {
      var n := |members| - 1;
      MemberMapAt(members[..n], k);
      assert forall i | 0 <= i < n :: members[..n][i] == members[i];
    }
  }

  /** ds lists exactly the differing fields of two structs. */
  ghost predicate ListsDifferences(bs: seq<StructField>, cs: seq<StructField>, opts: Options, ds: seq<FieldValue>)
    requires |bs| == |cs|
  {
    && NamesDistinct(ds)
    && (forall d | d in ds :: !d.absent && d.value.OtherData? && exists j :: DeltaOf(bs, cs, opts, j, d))
    && (forall j | 0 <= j < |bs| && Differs(bs, cs, opts, j) :: FieldValue(bs[j].name, OtherData(cs[j].value), false) in ds)
  }

  predicate DeltaOf(bs: seq<StructField>, cs: seq<StructField>, opts: Options, j: int, d: FieldValue)
    requires |bs| == |cs|
  {
    0 <= j < |bs| && bs[j].name == d.name && Differs(bs, cs, opts, j) && d.value == OtherData(cs[j].value)
  }

  lemma StructPatchAt(bs: seq<StructField>, cs: seq<StructField>, opts: Options, ds: seq<FieldValue>, k: string)
    requires |bs| == |cs| && MembersDistinct(bs) && MembersDistinct(cs)
    requires forall i | 0 <= i < |bs| :: bs[i].name == cs[i].name && bs[i].exported == cs[i].exported
    requires ListsDifferences(bs, cs, opts, ds)
    ensures AgreeAt(PatchFields(MemberMap(bs), ds), MemberMap(cs), k, opts.(absentEqualsNil := false))
  {
    MemberMapAt(bs, k);
    MemberMapAt(cs, k);
    if d :| d in ds && d.name == k {
      PatchHit(MemberMap(bs), ds, d);
      var j :| DeltaOf(bs, cs, opts, j, d);
    } else {
      PatchMiss(MemberMap(bs), ds, k);
    }
  }

  /** For two structs of one type: comparing never fails and patching rebuilds the
      candidate's exported fields. */
  lemma StructPatchAgrees(b: Datum, c: Datum, opts: Options)
    requires b.StructData? && c.StructData? && SameShape(b, c)
    ensures CompareRecords(b, c, opts).Ok?
    ensures var ds := CompareRecords(b, c, opts).value;
            Agree(PatchFields(FieldsOf(b), ds), FieldsOf(c), opts.(absentEqualsNil := false))
  {
    var bs, cs := b.members, c.members;
    StructDeltasContain(bs, cs, opts, |bs|);
    var raw := StructDeltas(bs, cs, opts, |bs|).value;
    SortedNamesDistinct(raw);
    var ds := CompareRecords(b, c, opts).value;
    forall d | d in ds
      ensures !d.absent && d.value.OtherData? && exists j :: DeltaOf(bs, cs, opts, j, d)
    {
      assert d in raw;
      var i :| 0 <= i < |raw| && raw[i] == d;
      var j :| 0 <= j < |bs| && bs[j].name == raw[i].name && Differs(bs, cs, opts, j) && raw[i].value.value == cs[j].value;
      assert DeltaOf(bs, cs, opts, j, d);
    }
    forall k
      ensures AgreeAt(PatchFields(MemberMap(bs), ds), MemberMap(cs), k, opts.(absentEqualsNil := false))
    {
      StructPatchAt(bs, cs, opts, ds, k);
    }
  }

  /** Records of one shape: comparing never fails, and patching the baseline with
      the deltas gives a record that agrees with the candidate. */
  lemma RecordPatchAgrees(b: Datum, c: Datum, opts: Options)
    requires SameShape(b, c)
    ensures CompareRecords(b, c, opts).Ok?
    ensures var ds := CompareRecords(b, c, opts).value;
            && Agree(PatchFields(FieldsOf(b), ds), FieldsOf(c), opts)
            && (ds == [] ==> Agree(FieldsOf(b), FieldsOf(c), opts))
            && (opts.ignoreFields == {} && !opts.absentEqualsNil ==> PatchFields(FieldsOf(b), ds) == FieldsOf(c))
  {
    match (b, c)
    case (MapData(bm), MapData(cm)) =>
      MapPatchAgrees(bm, cm, opts);
    case (StructData(_, _), StructData(_, _)) =>
      StructPatchAgrees(b, c, opts);
      var f, g := PatchFields(FieldsOf(b), CompareRecords(b, c, opts).value), FieldsOf(c);
      forall k
        ensures AgreeAt(f, g, k, opts)
      {
        assert AgreeAt(f, g, k, opts.(absentEqualsNil := false));
      }
      if opts.ignoreFields == {} {
        AgreeIsEqual(f, g, opts.(absentEqualsNil := false));
      }
    case (OtherData(bv), OtherData(cv)) =>
      var ds := CompareRecords(b, c, opts).value;
      if bv != cv {
        assert ds[..0] == [];
        assert PatchFields(FieldsOf(b), ds) == FieldsOf(c);
      }
  }

  lemma {:induction false} ExportedRebuilds(members: seq<StructField>)
    ensures PatchFields(map[], Exported(members)) == MemberMap(members)
  {
    if members != [] {
      var n := |members| - 1;
      ExportedRebuilds(members[..n]);
      var all := Exported(members);
      if members[n].exported {
        var last := FieldValue(members[n].name, OtherData(members[n].value), false);
        assert all == Exported(members[..n]) + [last];
        assert all[..|all| - 1] == Exported(members[..n]) && all[|all| - 1] == last;
      } else {
        assert all == Exported(members[..n]);
      }
    }
  }

  lemma FieldListNames(m: Fields)
    ensures NamesDistinct(FieldList(m))
    ensures forall d | d in FieldList(m) :: d.name in m && d == FieldValue(d.name, OtherData(m[d.name]), false)
    ensures forall k | k in m :: FieldValue(k, OtherData(m[k]), false) in FieldList(m)
  {
    var keys := SortedIds(m.Keys);
    SortedIdsAscend(m.Keys);
    AscendingDistinct(keys);
    var ds := FieldList(m);
    forall k | k in m
      ensures FieldValue(k, OtherData(m[k]), false) in ds
    {
      var i :| 0 <= i < |keys| && keys[i] == k;
      assert ds[i] == FieldValue(k, OtherData(m[k]), false);
    }
  }

  lemma FieldListRebuilds(m: Fields)
    ensures PatchFields(map[], FieldList(m)) == m
  {
    var ds := FieldList(m);
    FieldListNames(m);
    assert forall i | 0 <= i < |ds| :: ds[i] in ds;
    forall k
      ensures k in PatchFields(map[], ds) <==> k in m
      ensures k in m ==> PatchFields(map[], ds)[k] == m[k]
    {
      if k in m {
        PatchHit(map[], ds, FieldValue(k, OtherData(m[k]), false));
      } else {
        PatchMiss(map[], ds, k);
      }
    }
  }

  /** The field list of an Extra record is the whole record. */
  lemma AllFieldsRebuild(d: Datum)
    ensures PatchFields(map[], AllFields(d)) == FieldsOf(d)
  {
    match d
    case StructData(_, members) => ExportedRebuilds(members);
    case OtherData(v) => assert AllFields(d)[..0] == [];
    case MapData(m) => FieldListRebuilds(m);
  }

  ghost predicate ComparablePair(b: Option<Datum>, c: Option<Datum>) {
    b.Some? && c.Some? ==> SameShape(b.value, c.value)
  }

  function OptFields(d: Option<Datum>): Option<Fields> {
    if d.None? then None else Some(FieldsOf(d.value))
  }

  ghost predicate OptAgree(f: Option<Fields>, g: Option<Fields>, opts: Options) {
    f.Some? == g.Some? && (f.Some? ==> Agree(f.value, g.value, opts))
  }

  /** One id, one candidate: applying its state to the baseline's record gives the
      candidate's record. */
  lemma StateRebuilds(b: Option<Datum>, c: Option<Datum>, opts: Options)
    requires ComparablePair(b, c)
    ensures Classify(b, c, opts).Ok?
    ensures OptAgree(ApplyState(OptFields(b), Classify(b, c, opts).value), OptFields(c), opts)
    ensures opts.ignoreFields == {} && !opts.absentEqualsNil ==>
              ApplyState(OptFields(b), Classify(b, c, opts).value) == OptFields(c)
  {
    if c.Some? {
      if b.None? {
        AllFieldsRebuild(c.value);
      } else {
        RecordPatchAgrees(b.value, c.value, opts);
      }
    }
  }

  // ---- Whole tables --------------------------------------------------------------------------

  /** A stream's records by id. */
  function TableOf<K(==)>(list: seq<Entry<K>>): map<K, Fields> {
    if list == [] then map[]
    else TableOf(list[..|list| - 1])[list[|list| - 1].id := FieldsOf(list[|list| - 1].data)]
  }

  function Find<K(==)>(t: map<K, Fields>, id: K): Option<Fields> {
    if id in t then Some(t[id]) else None
  }

  /** Candidate i's states of all diffs, applied in order. */
  function ApplyDiffs<K(==)>(base: map<K, Fields>, diffs: seq<IDDiff<K>>, i: nat): map<K, Fields>
    requires forall j | 0 <= j < |diffs| :: i < |diffs[j].candidates|
  {
    if diffs == [] then base
    else
      var t := ApplyDiffs(base, diffs[..|diffs| - 1], i);
      var d := diffs[|diffs| - 1];
      match ApplyState(Find(t, d.id), d.candidates[i])
      case None => t - {d.id}
      case Some(f) => t[d.id := f]
  }

  lemma {:induction false} TableOfIsLookup<K(!new)>(list: seq<Entry<K>>, id: K)
    ensures Find(TableOf(list), id) == OptFields(Lookup(list, id))
  {
    if list != [] {
      TableOfIsLookup(list[..|list| - 1], id);
    }
  }

  lemma {:induction false} StatesAt(base: Option<Datum>, cands: seq<Option<Datum>>, opts: Options, i: nat)
    requires States(base, cands, opts).Ok? && i < |cands|
    ensures Classify(base, cands[i], opts) == Ok(States(base, cands, opts).value[i])
  {
    if i < |cands| - 1 {
      StatesAt(base, cands[..|cands| - 1], opts, i);
    }
  }

  /** Candidates[i] of a diff is the class of input i against the baseline at that
      id, whatever the other inputs hold. */
  lemma CandidateAt<K(!new)>(lists: Lists<K>, id: K, opts: Options, i: nat)
    requires |lists| > 0 && DiffAt(lists, id, opts).Ok? && i < |lists| - 1
    ensures var d := DiffAt(lists, id, opts).value;
            && d.id == id && |d.candidates| == |lists| - 1
            && Classify(Lookup(lists[0], id), Lookup(lists[i + 1], id), opts) == Ok(d.candidates[i])
  {
    StatesAt(Lookup(lists[0], id), Lookups(lists, id)[1..], opts, i);
  }

  lemma {:induction false} EmittedShape<K(!new)>(lists: Lists<K>, seen: seq<K>, opts: Options)
    requires |lists| > 0
    ensures forall j | 0 <= j < |Emitted(lists, seen, opts)| ::
              && |Emitted(lists, seen, opts)[j].candidates| == |lists| - 1
              && Emitted(lists, seen, opts)[j].id in seen
  {
    if seen != [] {
      var n := |seen| - 1;
      EmittedShape(lists, seen[..n], opts);
      if DiffAt(lists, seen[n], opts).Ok? {
        assert forall z | z in seen[..n] :: z in seen;
      }
    }
  }

  /** Applying the emitted diffs touches exactly the ids merged, each with its own
      state; an id left out of the output has only Matched states. */
  lemma {:induction false} ApplyAtId<K(!new)>(lists: Lists<K>, seen: seq<K>, opts: Options, i: nat, base: map<K, Fields>, id: K)
    requires |lists| > 0 && i < |lists| - 1 && Distinct(seen)
    requires forall z | z in seen :: DiffAt(lists, z, opts).Ok?
    ensures forall j | 0 <= j < |Emitted(lists, seen, opts)| :: i < |Emitted(lists, seen, opts)[j].candidates|
    ensures Find(ApplyDiffs(base, Emitted(lists, seen, opts), i), id) ==
            if id in seen then ApplyState(Find(base, id), DiffAtCandidate(lists, id, opts, i)) else Find(base, id)
  {
    EmittedShape(lists, seen, opts);
    if seen != [] {
      var n := |seen| - 1;
      assert forall z | z in seen[..n] :: z in seen;
      assert id in seen <==> id in seen[..n] || id == seen[n];
      ApplyAtId(lists, seen[..n], opts, i, base, id);
      ApplyLast(lists, seen, opts, i, base, id);
    }
  }

  lemma ApplyLast<K(!new)>(lists: Lists<K>, seen: seq<K>, opts: Options, i: nat, base: map<K, Fields>, id: K)
    requires |lists| > 0 && i < |lists| - 1 && seen != [] && DiffAt(lists, seen[|seen| - 1], opts).Ok?
    requires forall j | 0 <= j < |Emitted(lists, seen, opts)| :: i < |Emitted(lists, seen, opts)[j].candidates|
    requires var n := |seen| - 1; forall j | 0 <= j < |Emitted(lists, seen[..n], opts)| :: i < |Emitted(lists, seen[..n], opts)[j].candidates|
    ensures var n := |seen| - 1;
            var before := Find(ApplyDiffs(base, Emitted(lists, seen[..n], opts), i), id);
            Find(ApplyDiffs(base, Emitted(lists, seen, opts), i), id) ==
            if id == seen[n] then ApplyState(before, DiffAtCandidate(lists, id, opts, i)) else before
  {
    var n := |seen| - 1;
    var before := Emitted(lists, seen[..n], opts);
    var all := Emitted(lists, seen, opts);
    var d := DiffAt(lists, seen[n], opts).value;
    CandidateAt(lists, seen[n], opts, i);
    if ShouldEmit(d, opts) {
      assert all[..|all| - 1] == before && all[|all| - 1] == d;
    } else {
      assert all == before;
    }
  }

  ghost function DiffAtCandidate<K(!new)>(lists: Lists<K>, id: K, opts: Options, i: nat): CandidateState
    requires |lists| > 0 && i < |lists| - 1 && DiffAt(lists, id, opts).Ok?
  {
    CandidateAt(lists, id, opts, i);
    DiffAt(lists, id, opts).value.candidates[i]
  }

  /** The diff is a faithful patch: for good streams whose common records have one
      shape, applying candidate i's states to the baseline gives candidate i's ids
      exactly and its records up to the options; with default options, exactly. */
  lemma DiffIsPatch<K(!new)>(streams: seq<Stream<K>>, less: (K, K) -> bool, opts: Options,
                             out: seq<IDDiff<K>>, err: Option<Error>, seen: seq<K>, how: Ending<K>, i: nat)
    requires Strict(less) && |streams| > 0 && i < |streams| - 1
    requires Outcome(streams, less, opts, out, err, seen, how) && err == None
    requires forall id :: ComparablePair(Lookup(Clean(streams[0], less), id), Lookup(Clean(streams[i + 1], less), id))
    ensures forall j | 0 <= j < |out| :: i < |out[j].candidates|
    ensures var patched := ApplyDiffs(TableOf(Clean(streams[0], less)), out, i);
            var wanted := TableOf(Clean(streams[i + 1], less));
            && patched.Keys == wanted.Keys
            && (forall id | id in wanted :: Agree(patched[id], wanted[id], opts))
            && (opts.ignoreFields == {} && !opts.absentEqualsNil ==> patched == wanted)
  {
    var lists := CleanAll(streams, less);
    AllCleanAscend(streams, less);
    EmittedShape(lists, seen, opts);
    var base, wanted := TableOf(lists[0]), TableOf(lists[i + 1]);
    var patched := ApplyDiffs(base, out, i);
    forall id
      ensures OptAgree(Find(patched, id), Find(wanted, id), opts)
      ensures opts.ignoreFields == {} && !opts.absentEqualsNil ==> Find(patched, id) == Find(wanted, id)
    {
      PatchedAt(lists, less, seen, opts, i, id);
    }
    assert forall id :: id in patched <==> Find(patched, id).Some?;
    assert forall id :: id in wanted <==> Find(wanted, id).Some?;
  }

  lemma PatchedAt<K(!new)>(lists: Lists<K>, less: (K, K) -> bool, seen: seq<K>, opts: Options, i: nat, id: K)
    requires Strict(less) && AllAscend(lists, less) && |lists| > 0 && i < |lists| - 1 && Distinct(seen)
    requires forall z | z in seen :: DiffAt(lists, z, opts).Ok?
    requires forall j, z | 0 <= j < |lists| && Has(lists[j], z) :: z in seen
    requires ComparablePair(Lookup(lists[0], id), Lookup(lists[i + 1], id))
    requires forall j | 0 <= j < |Emitted(lists, seen, opts)| :: i < |Emitted(lists, seen, opts)[j].candidates|
    ensures var patched := Find(ApplyDiffs(TableOf(lists[0]), Emitted(lists, seen, opts), i), id);
            var wanted := Find(TableOf(lists[i + 1]), id);
            && OptAgree(patched, wanted, opts)
            && (opts.ignoreFields == {} && !opts.absentEqualsNil ==> patched == wanted)
  {
    ApplyAtId(lists, seen, opts, i, TableOf(lists[0]), id);
    TableOfIsLookup(lists[0], id);
    TableOfIsLookup(lists[i + 1], id);
    LookupIff(lists[0], id, less);
    LookupIff(lists[i + 1], id, less);
    StateRebuilds(Lookup(lists[0], id), Lookup(lists[i + 1], id), opts);
    if id in seen {
      CandidateAt(lists, id, opts, i);
    }
  }
}
