/** What a status says of the inputs: which records it stands for, and so which ids a diff
    reports. */
module DiffStatus {
  import opened Ordering
  import opened Values
  import opened RecordDiff
  import opened Merge
  import opened Diff
  import opened Patch
  import opened DiffOutcome
  import opened Where

  // ---- Two records ---------------------------------------------------------------------

  /** A field of a struct that takes part in the comparison. */
  predicate Counts(f: StructField, opts: Options) {
    f.exported && f.name !in opts.ignoreFields
  }

  /** The candidate has an exported field at the same position. */
  predicate Paired(cs: seq<StructField>, i: nat) {
    i < |cs| && cs[i].exported
  }

  /** The two records say the same, outside the ignored fields: maps by name, structs by
      position, other values whole. Records of different kinds never do. */
  ghost predicate RecordsAgree(b: Datum, c: Datum, opts: Options) {
    match b
    case MapData(bm) => c.MapData? && Agree(bm, c.fields, opts)
    case StructData(_, bs) =>
      c.StructData? && forall i: nat | i < |bs| && Counts(bs[i], opts) :: Paired(c.members, i) && bs[i].value == c.members[i].value
    case OtherData(v) => c == OtherData(v)
  }

  /** Two structs that cannot be compared: a field that counts has no partner. */
  ghost predicate Unpaired(b: Datum, c: Datum, opts: Options) {
    b.StructData? && c.StructData? && exists i: nat :: i < |b.members| && Counts(b.members[i], opts) && !Paired(c.members, i)
  }

  lemma {:induction false} StructDeltasTell(bs: seq<StructField>, cs: seq<StructField>, opts: Options, n: nat)
    requires n <= |bs|
    ensures StructDeltas(bs, cs, opts, n).Ok? <==> forall i: nat | i < n && Counts(bs[i], opts) :: Paired(cs, i)
    ensures StructDeltas(bs, cs, opts, n).Ok? ==>
              (StructDeltas(bs, cs, opts, n).value == [] <==> forall i: nat | i < n && Counts(bs[i], opts) :: bs[i].value == cs[i].value)
  {
    if n > 0 {
      StructDeltasTell(bs, cs, opts, n - 1);
    }
  }

  lemma ComparisonTells(b: Datum, c: Datum, opts: Options)
    ensures CompareRecords(b, c, opts).Err? <==> Unpaired(b, c, opts)
    ensures CompareRecords(b, c, opts).Ok? ==> (CompareRecords(b, c, opts).value == [] <==> RecordsAgree(b, c, opts))
  {
    match (b, c)
    case (MapData(bm), MapData(cm)) => MapPatchAgrees(bm, cm, opts);
    case (StructData(_, bs), StructData(_, cs)) =>
      StructDeltasTell(bs, cs, opts, |bs|);
      if StructDeltas(bs, cs, opts, |bs|).Ok? {
        SortIsPermutation(StructDeltas(bs, cs, opts, |bs|).value, ByName);
        assert |SortBy(StructDeltas(bs, cs, opts, |bs|).value, ByName)| == |StructDeltas(bs, cs, opts, |bs|).value|;
      }
    case _ =>
  }

  /** Deltas come by ascending name, and for maps strictly so. */
  lemma DeltasAscend(b: Datum, c: Datum, opts: Options)
    requires CompareRecords(b, c, opts).Ok?
    ensures Sorted(ByName, CompareRecords(b, c, opts).value)
    ensures b.MapData? && c.MapData? ==> StrictlyAscending(ByName, CompareRecords(b, c, opts).value)
  {
    match (b, c)
    case (MapData(bm), MapData(cm)) =>
      var keys := SortedIds(bm.Keys + cm.Keys);
      SortedIdsAscend(bm.Keys + cm.Keys);
      MapDeltasAscend(keys, bm, cm, opts);
      AscendingIsSorted(Deltas(keys, bm, cm, opts));
    case (StructData(_, bs), StructData(_, cs)) =>
      var ds := StructDeltas(bs, cs, opts, |bs|).value;
      ByNameIsWeak(ds);
      SortSorts(ds, ByName);
    case _ =>
  }

  lemma AscendsOn(ds: seq<FieldValue>, d: FieldValue)
    requires StrictlyAscending(ByName, ds) && forall x | x in ds :: ByName(x, d)
    ensures StrictlyAscending(ByName, ds + [d])
  {
    assert forall i | 0 <= i < |ds| :: ds[i] in ds;
  }

  lemma DeltaIsNamed(b: Fields, c: Fields, k: string, opts: Options)
    ensures DeltaAt(b, c, k, opts).Some? ==> DeltaAt(b, c, k, opts).value.name == k
  {
  }

  lemma DeltasSnoc(keys: seq<string>, b: Fields, c: Fields, opts: Options) returns (last: seq<FieldValue>)
    requires keys != []
    ensures Deltas(keys, b, c, opts) == Deltas(keys[..|keys| - 1], b, c, opts) + last
    ensures last == [] || (|last| == 1 && last[0].name == keys[|keys| - 1])
  {
    DeltaIsNamed(b, c, keys[|keys| - 1], opts);
    last := match DeltaAt(b, c, keys[|keys| - 1], opts) case None => [] case Some(d) => [d];
  }

  lemma {:induction false} MapDeltasAscend(keys: seq<string>, b: Fields, c: Fields, opts: Options)
    requires StrictlyAscending(StrLess, keys)
    ensures StrictlyAscending(ByName, Deltas(keys, b, c, opts))
    ensures forall d | d in Deltas(keys, b, c, opts) :: d.name in keys
  {
    if keys != [] {
      var n := |keys| - 1;
      var before := Deltas(keys[..n], b, c, opts);
      MapDeltasAscend(keys[..n], b, c, opts);
      var last := DeltasSnoc(keys, b, c, opts);
      assert forall k | k in keys[..n] :: StrLess(k, keys[n]) && k in keys;
      if last == [] {
        assert before + last == before;
      } else {
        assert last == [last[0]];
        AscendsOn(before, last[0]);
      }
    }
  }

  lemma AscendingIsSorted(ds: seq<FieldValue>)
    requires StrictlyAscending(ByName, ds)
    ensures Sorted(ByName, ds)
  {
    forall i, j | 0 <= i < j < |ds|
      ensures !ByName(ds[j], ds[i])
    {
      assert ByName(ds[i], ds[j]);
      StrLessTotal(ds[i].name, ds[j].name);
    }
  }

  lemma ByNameIsWeak(ds: seq<FieldValue>)
    ensures WeakOn(ByName, ds)
  {
    forall x: FieldValue, y: FieldValue, z: FieldValue
      ensures !ByName(x, x)
      ensures ByName(x, y) && ByName(y, z) ==> ByName(x, z)
      ensures ByName(x, z) ==> ByName(x, y) || ByName(y, z)
    {
      TextIsPreorder(x.name, y.name, z.name);
      TextIsPreorder(z.name, y.name, x.name);
    }
  }

  /** What each status says: Missing, the candidate has no record; Extra, only the candidate
      has one; Matched, both have one and they agree; Changed, both have one and they do not.
      There is no status exactly when two structs cannot be compared. */
  lemma StatusMeans(b: Option<Datum>, c: Option<Datum>, opts: Options)
    ensures Classify(b, c, opts).Err? <==> b.Some? && c.Some? && Unpaired(b.value, c.value, opts)
    ensures var r := Classify(b, c, opts);
            r.Ok? ==>
              && (r.value.status == Missing <==> c.None?)
              && (r.value.status == Extra <==> c.Some? && b.None?)
              && (r.value.status == Matched <==> b.Some? && c.Some? && RecordsAgree(b.value, c.value, opts))
              && (r.value.status == Changed <==> b.Some? && c.Some? && !RecordsAgree(b.value, c.value, opts))
              && (r.value.status in {Missing, Matched} ==> r.value.fields == [])
              && (r.value.status == Changed ==> r.value.fields != [])
  {
    if b.Some? && c.Some? {
      ComparisonTells(b.value, c.value, opts);
    }
  }

  /** On records of one shape this is agreement field by field; but the comparison of two
      plain values does not look at the ignored names. */
  lemma RecordsAgreeIff(b: Datum, c: Datum, opts: Options)
    requires SameShape(b, c)
    ensures RecordsAgree(b, c, opts) <==>
            Agree(FieldsOf(b), FieldsOf(c), opts) && (b.OtherData? && "_value" in opts.ignoreFields ==> b == c)
  {
    match (b, c)
    case (MapData(_), MapData(_)) =>
    case (StructData(_, bs), StructData(_, cs)) => StructsAgreeIff(bs, cs, opts);
    case (OtherData(bv), OtherData(cv)) =>
      if "_value" !in opts.ignoreFields {
        assert AgreeAt(FieldsOf(b), FieldsOf(c), "_value", opts) <==> bv == cv;
      }
  }

  lemma StructsAgreeIff(bs: seq<StructField>, cs: seq<StructField>, opts: Options)
    requires |bs| == |cs| && MembersDistinct(bs) && MembersDistinct(cs)
    requires forall i | 0 <= i < |bs| :: bs[i].name == cs[i].name && bs[i].exported == cs[i].exported
    ensures (forall i: nat | i < |bs| && Counts(bs[i], opts) :: bs[i].value == cs[i].value) <==> Agree(MemberMap(bs), MemberMap(cs), opts)
  {
    if forall i: nat | i < |bs| && Counts(bs[i], opts) :: bs[i].value == cs[i].value {
      forall k
        ensures AgreeAt(MemberMap(bs), MemberMap(cs), k, opts)
      {
        MemberMapAt(bs, k);
        MemberMapAt(cs, k);
      }
    }
    if Agree(MemberMap(bs), MemberMap(cs), opts) {
      forall i: nat | i < |bs| && Counts(bs[i], opts)
        ensures bs[i].value == cs[i].value
      {
        MemberMapAt(bs, bs[i].name);
        MemberMapAt(cs, bs[i].name);
        assert AgreeAt(MemberMap(bs), MemberMap(cs), bs[i].name, opts);
      }
    }
  }

  // ---- Whole runs -----------------------------------------------------------------------

  /** The status of one candidate, read off the two streams. */
  ghost predicate Tells(status: RecordStatus, b: Option<Datum>, c: Option<Datum>, opts: Options) {
    match status
    case Missing => c.None?
    case Extra => c.Some? && b.None?
    case Matched => b.Some? && c.Some? && RecordsAgree(b.value, c.value, opts)
    case Changed => b.Some? && c.Some? && !RecordsAgree(b.value, c.value, opts)
  }

  /** Every pair of records has one status. */
  lemma OneStatusTells(b: Option<Datum>, c: Option<Datum>, opts: Options)
    ensures exists status :: Tells(status, b, c, opts)
    ensures forall x, y | Tells(x, b, c, opts) && Tells(y, b, c, opts) :: x == y
  {
    if c.None? {
      assert Tells(Missing, b, c, opts);
    } else if b.None? {
      assert Tells(Extra, b, c, opts);
    } else if RecordsAgree(b.value, c.value, opts) {
      assert Tells(Matched, b, c, opts);
    } else {
      assert Tells(Changed, b, c, opts);
    }
  }

  /** Candidate i has the baseline's record, and the two agree. */
  ghost predicate SameRecord<K(!new)>(lists: Lists<K>, id: K, opts: Options, i: nat)
    requires i + 1 < |lists|
  {
    Tells(Matched, Lookup(lists[0], id), Lookup(lists[i + 1], id), opts)
  }

  /** Some candidate lacks the record, has one more, or disagrees. */
  ghost predicate Disturbed<K(!new)>(lists: Lists<K>, id: K, opts: Options) {
    exists i: nat :: i < |lists| - 1 && !SameRecord(lists, id, opts, i)
  }

  lemma StatusAt<K(!new)>(lists: Lists<K>, id: K, opts: Options, i: nat)
    requires |lists| > 0 && DiffAt(lists, id, opts).Ok? && i < |lists| - 1
    ensures var d := DiffAt(lists, id, opts).value;
            && |d.candidates| == |lists| - 1
            && Tells(d.candidates[i].status, Lookup(lists[0], id), Lookup(lists[i + 1], id), opts)
            && (d.candidates[i].status == Matched <==> SameRecord(lists, id, opts, i))
  {
    CandidateAt(lists, id, opts, i);
    StatusMeans(Lookup(lists[0], id), Lookup(lists[i + 1], id), opts);
  }

  lemma EmitsIff<K(!new)>(lists: Lists<K>, id: K, opts: Options)
    requires |lists| > 0 && DiffAt(lists, id, opts).Ok?
    ensures ShouldEmit(DiffAt(lists, id, opts).value, opts) <==> opts.includeMatched || Disturbed(lists, id, opts)
  {
    var d := DiffAt(lists, id, opts).value;
    assert |d.candidates| == |lists| - 1;
    forall i: nat | i < |lists| - 1
      ensures d.candidates[i].status == Matched <==> SameRecord(lists, id, opts, i)
    {
      StatusAt(lists, id, opts, i);
    }
  }

  /** Every status a run emits says what the streams hold. */
  lemma StatusTells<K(!new)>(streams: seq<Stream<K>>, less: (K, K) -> bool, opts: Options,
                             out: seq<IDDiff<K>>, err: Option<Error>, seen: seq<K>, how: Ending<K>, d: IDDiff<K>, i: nat)
    requires StrictTotal(less) && |streams| > 0 && Outcome(streams, less, opts, out, err, seen, how)
    requires d in out && i < |streams| - 1
    ensures |d.candidates| == |streams| - 1
    ensures Tells(d.candidates[i].status, Lookup(Clean(streams[0], less), d.id), Lookup(Clean(streams[i + 1], less), d.id), opts)
  {
    var lists := CleanAll(streams, less);
    EmittedKeeps(lists, seen, opts, d);
    StatusAt(lists, d.id, opts, i);
  }

  /** A finished run reports exactly the ids where some candidate lacks the record, has one
      more, or disagrees; under WithIncludeMatched, every id. */
  lemma ReportsDisturbed<K(!new)>(streams: seq<Stream<K>>, less: (K, K) -> bool, opts: Options,
                                  out: seq<IDDiff<K>>, err: Option<Error>, seen: seq<K>, how: Ending<K>, id: K)
    requires StrictTotal(less) && |streams| > 0 && Outcome(streams, less, opts, out, err, seen, how) && err == None
    ensures id in IdsOf(out) <==> InUnion(streams, id, less) && (opts.includeMatched || Disturbed(CleanAll(streams, less), id, opts))
  {
    EmittedIds(CleanAll(streams, less), seen, opts);
    SeenIsPrefix(streams, less, opts, out, err, seen, how);
    SucceedsIff(streams, less, opts, out, err, seen, how);
    if InUnion(streams, id, less) {
      EmitsIff(CleanAll(streams, less), id, opts);
    }
  }

  // ---- The baseline fields shown ----------------------------------------------------------

  /** Candidate i's delta list names the field. */
  predicate Touches(states: seq<CandidateState>, i: nat, name: string)
    requires i < |states|
  {
    exists j | 0 <= j < |states[i].fields| :: states[i].fields[j].name == name
  }

  lemma {:induction false} DeltaNamesAre(states: seq<CandidateState>, name: string)
    ensures name in DeltaNames(states) <==> exists i: nat :: i < |states| && Touches(states, i, name)
  {
    if states != [] {
      var n := |states| - 1;
      DeltaNamesAre(states[..n], name);
      forall i: nat | i < n
        ensures Touches(states[..n], i, name) == Touches(states, i, name)
      {
        assert states[..n][i] == states[i];
      }
      assert name in Names(states[n].fields) <==> Touches(states, n, name);
    }
  }

  /** A diff has baseline fields exactly when the baseline has the record: all of its
      fields, or under WithOnlyChangedFields exactly those some candidate's delta names. */
  lemma BaselineShows<K(!new)>(streams: seq<Stream<K>>, less: (K, K) -> bool, opts: Options,
                               out: seq<IDDiff<K>>, err: Option<Error>, seen: seq<K>, how: Ending<K>, d: IDDiff<K>)
    requires StrictTotal(less) && |streams| > 0 && Outcome(streams, less, opts, out, err, seen, how) && d in out
    ensures var b := Lookup(Clean(streams[0], less), d.id);
            && (d.baseline.Some? <==> b.Some?)
            && (b.Some? ==> forall f :: f in d.baseline.value <==>
                  f in AllFields(b.value) && (opts.onlyChangedFields ==> exists i: nat :: i < |d.candidates| && Touches(d.candidates, i, f.name)))
  {
    EmittedKeeps(CleanAll(streams, less), seen, opts, d);
    var b := Lookup(Clean(streams[0], less), d.id);
    if b.Some? {
      forall f
        ensures f in d.baseline.value <==>
                f in AllFields(b.value) && (opts.onlyChangedFields ==> exists i: nat :: i < |d.candidates| && Touches(d.candidates, i, f.name))
      {
        DeltaNamesAre(d.candidates, f.name);
        BaselineHolds(b.value, d.candidates, opts, f);
      }
    }
  }

  lemma BaselineHolds(b: Datum, states: seq<CandidateState>, opts: Options, f: FieldValue)
    ensures f in BaselineFields(b, states, opts) <==> f in AllFields(b) && (opts.onlyChangedFields ==> f.name in DeltaNames(states))
  {
  }
}
