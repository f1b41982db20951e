/** What the outcome of a diff run says: it is fully determined by the inputs,
    ordered, complete, and ends in the one error the inputs contain. */
module DiffOutcome {
  import opened Ordering
  import opened Values
  import opened RecordDiff
  import opened Merge
  import opened Diff
  import opened Patch

  /** less is a strict total order, as < is for the ordered key types. */
  ghost predicate StrictTotal<K(!new)>(less: (K, K) -> bool) {
    Strict(less) && forall x, y {:trigger less(x, y)} :: x != y ==> less(x, y) || less(y, x)
  }

  /** Some stream yields id before anything goes wrong in it. */
  ghost predicate InUnion<K(!new)>(streams: seq<Stream<K>>, id: K, less: (K, K) -> bool) {
    exists i :: 0 <= i < |streams| && Has(CleanAll(streams, less)[i], id)
  }

  /** The run cannot get past id: its records cannot be compared, or some stream
      fails right after it. */
  ghost predicate Stops<K(!new)>(streams: seq<Stream<K>>, id: K, less: (K, K) -> bool, opts: Options)
    requires |streams| > 0
  {
    DiffAt(CleanAll(streams, less), id, opts).Err? || exists i :: 0 <= i < |streams| && FaultAfter(streams[i], id, less)
  }

  lemma SeenHeld<K(!new)>(streams: seq<Stream<K>>, less: (K, K) -> bool, opts: Options,
                          out: seq<IDDiff<K>>, err: Option<Error>, seen: seq<K>, how: Ending<K>, z: K)
    requires |streams| > 0 && Outcome(streams, less, opts, out, err, seen, how) && z in seen
    ensures InUnion(streams, z, less) && !Stops(streams, z, less, opts)
  {
    var lists := CleanAll(streams, less);
    var i :| 0 <= i < |lists| && Has(lists[i], z);
  }

  /** The ids merged are the union of the inputs up to the id that stops the run;
      they come in strictly ascending order. */
  lemma SeenIsPrefix<K(!new)>(streams: seq<Stream<K>>, less: (K, K) -> bool, opts: Options,
                              out: seq<IDDiff<K>>, err: Option<Error>, seen: seq<K>, how: Ending<K>)
    requires StrictTotal(less) && |streams| > 0 && Outcome(streams, less, opts, out, err, seen, how)
    ensures StrictlyAscending(less, seen)
    ensures how.Finished? ==> forall z :: z in seen <==> InUnion(streams, z, less)
    ensures how.FailedComparing? || how.FailedAdvancing? ==>
              && (forall z :: z in seen <==> InUnion(streams, z, less) && less(z, how.at))
              && InUnion(streams, how.at, less) && Stops(streams, how.at, less, opts)
    ensures forall z | z in seen :: !Stops(streams, z, less, opts)
  {
    forall i, j | 0 <= i < j < |seen|
      ensures less(seen[i], seen[j])
    {
      assert seen[i] != seen[j] && !less(seen[j], seen[i]);
    }
    var lists := CleanAll(streams, less);
    forall z
      ensures z in seen ==> InUnion(streams, z, less) && !Stops(streams, z, less, opts)
      ensures how.Finished? && InUnion(streams, z, less) ==> z in seen
      ensures how.FailedComparing? || how.FailedAdvancing? ==> (z in seen <==> InUnion(streams, z, less) && less(z, how.at))
    {
      if z in seen {
        SeenHeld(streams, less, opts, out, err, seen, how, z);
      }
      if InUnion(streams, z, less) {
        var i :| 0 <= i < |streams| && Has(lists[i], z);
      }
    }
  }

  /** The inputs determine the run: emitted diffs, error, and where it stopped. */
  lemma OutcomeUnique<K(!new)>(streams: seq<Stream<K>>, less: (K, K) -> bool, opts: Options,
                               out: seq<IDDiff<K>>, err: Option<Error>, seen: seq<K>, how: Ending<K>,
                               out': seq<IDDiff<K>>, err': Option<Error>, seen': seq<K>, how': Ending<K>)
    requires StrictTotal(less) && |streams| > 0
    requires Outcome(streams, less, opts, out, err, seen, how) && Outcome(streams, less, opts, out', err', seen', how')
    ensures out == out' && err == err' && seen == seen' && how == how'
  {
    SeenIsPrefix(streams, less, opts, out, err, seen, how);
    SeenIsPrefix(streams, less, opts, out', err', seen', how');
    SameEnding(streams, less, opts, out, err, seen, how, out', err', seen', how');
    if !how.FailedPriming? {
      OneAscent(seen, seen', less);
    }
  }

  /** A set of ids has one ascending listing. */
  lemma OneAscent<K(!new)>(seen: seq<K>, seen': seq<K>, less: (K, K) -> bool)
    requires StrictTotal(less) && StrictlyAscending(less, seen) && StrictlyAscending(less, seen')
    requires forall z :: z in seen <==> z in seen'
    ensures seen == seen'
  {
    assert TotalOn(less, seen);
    AscendingUnique(seen, seen', less);
  }

  lemma SameStop<K(!new)>(streams: seq<Stream<K>>, less: (K, K) -> bool, opts: Options,
                          out: seq<IDDiff<K>>, err: Option<Error>, seen: seq<K>, how: Ending<K>,
                          out': seq<IDDiff<K>>, err': Option<Error>, seen': seq<K>, how': Ending<K>)
    requires StrictTotal(less) && |streams| > 0
    requires Outcome(streams, less, opts, out, err, seen, how) && Outcome(streams, less, opts, out', err', seen', how')
    requires (how.FailedComparing? || how.FailedAdvancing?) && (how'.FailedComparing? || how'.FailedAdvancing?)
    ensures how.at == how'.at
  {
    SeenIsPrefix(streams, less, opts, out, err, seen, how);
    SeenIsPrefix(streams, less, opts, out', err', seen', how');
    assert !less(how.at, how'.at) && !less(how'.at, how.at);
  }

  lemma SameEnding<K(!new)>(streams: seq<Stream<K>>, less: (K, K) -> bool, opts: Options,
                            out: seq<IDDiff<K>>, err: Option<Error>, seen: seq<K>, how: Ending<K>,
                            out': seq<IDDiff<K>>, err': Option<Error>, seen': seq<K>, how': Ending<K>)
    requires StrictTotal(less) && |streams| > 0
    requires Outcome(streams, less, opts, out, err, seen, how) && Outcome(streams, less, opts, out', err', seen', how')
    ensures how == how' && err == err'
  {
    SeenIsPrefix(streams, less, opts, out, err, seen, how);
    SeenIsPrefix(streams, less, opts, out', err', seen', how');
    if (how.FailedComparing? || how.FailedAdvancing?) && (how'.FailedComparing? || how'.FailedAdvancing?) {
      SameStop(streams, less, opts, out, err, seen, how, out', err', seen', how');
    }
  }

  /** A run succeeds exactly when every stream is in order to its end and every
      common pair of records can be compared. */
  lemma SucceedsIff<K(!new)>(streams: seq<Stream<K>>, less: (K, K) -> bool, opts: Options,
                             out: seq<IDDiff<K>>, err: Option<Error>, seen: seq<K>, how: Ending<K>)
    requires Strict(less) && |streams| > 0 && Outcome(streams, less, opts, out, err, seen, how)
    ensures err == None <==>
              && (forall i | 0 <= i < |streams| :: GoodLength(streams[i], less) == |streams[i]|)
              && (forall id | InUnion(streams, id, less) :: DiffAt(CleanAll(streams, less), id, opts).Ok?)
  {
    var lists := CleanAll(streams, less);
    match how
    case Finished =>
      forall id | InUnion(streams, id, less)
        ensures DiffAt(lists, id, opts).Ok?
      {
        var i :| 0 <= i < |streams| && Has(lists[i], id);
        assert id in seen;
      }
    case FailedPriming(i) =>
    case FailedComparing(x) =>
      var i :| 0 <= i < |lists| && Has(lists[i], x);
      assert InUnion(streams, x, less);
    case FailedAdvancing(x, i) =>
  }

  /** The error that ends a run at a bad pull tells what is wrong with it: the
      source failed, or the id repeats the one before it, or is smaller. */
  lemma FaultTells<K(!new)>(s: Stream<K>, less: (K, K) -> bool)
    requires StrictTotal(less) && GoodLength(s, less) < |s|
    ensures var n := GoodLength(s, less);
            && (s[n].Fault? <==> FaultAt(s, n).Upstream?)
            && (s[n].Rec? ==> n > 0 && s[n - 1].Rec?)
            && (s[n].Rec? ==> (FaultAt(s, n) == DuplicateID <==> s[n].id == s[n - 1].id))
            && (s[n].Rec? ==> (FaultAt(s, n) == UnsortedInput <==> less(s[n].id, s[n - 1].id)))
  {
    assert !Extends(s, GoodLength(s, less), less);
  }

  // ---- What is emitted ----------------------------------------------------------------

  function IdsOf<K>(diffs: seq<IDDiff<K>>): seq<K> {
    seq(|diffs|, j requires 0 <= j < |diffs| => diffs[j].id)
  }

  /** The merge emits a diff for this id. */
  ghost predicate Emits<K(!new)>(lists: Lists<K>, id: K, opts: Options)
    requires |lists| > 0
  {
    DiffAt(lists, id, opts).Ok? && ShouldEmit(DiffAt(lists, id, opts).value, opts)
  }

  lemma IdsOfSnoc<K(!new)>(diffs: seq<IDDiff<K>>, d: IDDiff<K>)
    ensures IdsOf(diffs + [d]) == IdsOf(diffs) + [d.id]
  {
  }

  /** Emission keeps the merge order and drops only what options say. */
  lemma {:induction false} EmittedIds<K(!new)>(lists: Lists<K>, seen: seq<K>, opts: Options)
    requires |lists| > 0
    ensures IdsOf(Emitted(lists, seen, opts)) == Filter(seen, z => Emits(lists, z, opts))
  {
    if seen != [] {
      var n := |seen| - 1;
      var keep := z => Emits(lists, z, opts);
      EmittedIds(lists, seen[..n], opts);
      assert seen == seen[..n] + [seen[n]];
      FilterConcat(seen[..n], [seen[n]], keep);
      var before := Emitted(lists, seen[..n], opts);
      if Emits(lists, seen[n], opts) {
        assert Filter([seen[n]], keep) == [seen[n]];
        IdsOfSnoc(before, DiffAt(lists, seen[n], opts).value);
      } else {
        assert Filter([seen[n]], keep) == [];
        assert Emitted(lists, seen, opts) == before;
      }
    }
  }

  lemma {:induction false} EmittedKeeps<K(!new)>(lists: Lists<K>, seen: seq<K>, opts: Options, d: IDDiff<K>)
    requires |lists| > 0
    ensures d in Emitted(lists, seen, opts) <==> d.id in seen && ShouldEmit(d, opts) && DiffAt(lists, d.id, opts) == Ok(d)
  {
    if seen != [] {
      var n := |seen| - 1;
      EmittedKeeps(lists, seen[..n], opts, d);
      var before, all := Emitted(lists, seen[..n], opts), Emitted(lists, seen, opts);
      var last := DiffAt(lists, seen[n], opts);
      assert d in all <==> d in before || (last == Ok(d) && ShouldEmit(d, opts));
      assert last.Ok? ==> last.value.id == seen[n];
      assert d.id in seen <==> d.id in seen[..n] || d.id == seen[n];
    }
  }

  /** Emitted diffs come in strictly ascending id order, one an id. A successful run
      emits exactly the ids of the union that have something to say: all of them
      under WithIncludeMatched, otherwise those some candidate does not match. */
  lemma EmittedIsComplete<K(!new)>(streams: seq<Stream<K>>, less: (K, K) -> bool, opts: Options,
                                   out: seq<IDDiff<K>>, err: Option<Error>, seen: seq<K>, how: Ending<K>)
    requires StrictTotal(less) && |streams| > 0 && Outcome(streams, less, opts, out, err, seen, how)
    ensures StrictlyAscending(less, IdsOf(out))
    ensures err == None ==> forall d :: d in out <==>
              && InUnion(streams, d.id, less) && DiffAt(CleanAll(streams, less), d.id, opts) == Ok(d)
              && (opts.includeMatched || exists i :: 0 <= i < |d.candidates| && d.candidates[i].status != Matched)
    ensures err == None && opts.includeMatched ==> forall id :: id in IdsOf(out) <==> InUnion(streams, id, less)
  {
    var lists := CleanAll(streams, less);
    SeenIsPrefix(streams, less, opts, out, err, seen, how);
    EmittedIds(lists, seen, opts);
    FilterAscending(seen, z => Emits(lists, z, opts), less);
    forall d
      ensures d in out <==> d.id in seen && ShouldEmit(d, opts) && DiffAt(lists, d.id, opts) == Ok(d)
    {
      EmittedKeeps(lists, seen, opts, d);
    }
    if err == None && opts.includeMatched {
      FilterPointwise(seen, z => Emits(lists, z, opts), z => true);
      FilterAll(seen);
    }
  }

  lemma {:induction false} FilterAll<K(!new)>(s: seq<K>)
    ensures Filter(s, z => true) == s
  {
    if s != [] {
      FilterAll(s[1..]);
    }
  }

  /** When the run ends while moving past x, the diffs already emitted are exactly
      the ones for ids below x: x's own diff is assembled and lost. */
  lemma ErrorPrefix<K(!new)>(streams: seq<Stream<K>>, less: (K, K) -> bool, opts: Options,
                             out: seq<IDDiff<K>>, err: Option<Error>, seen: seq<K>, how: Ending<K>)
    requires StrictTotal(less) && |streams| > 0 && Outcome(streams, less, opts, out, err, seen, how)
    requires how.FailedAdvancing?
    ensures forall d :: d in out <==>
              InUnion(streams, d.id, less) && less(d.id, how.at) && DiffAt(CleanAll(streams, less), d.id, opts) == Ok(d) && ShouldEmit(d, opts)
    ensures DiffAt(CleanAll(streams, less), how.at, opts).Ok?
    ensures how.at !in IdsOf(out)
    ensures err.Some? && err.value == FaultAt(streams[how.stream], GoodLength(streams[how.stream], less))
  {
    var lists := CleanAll(streams, less);
    SeenIsPrefix(streams, less, opts, out, err, seen, how);
    forall d
      ensures d in out <==> d.id in seen && ShouldEmit(d, opts) && DiffAt(lists, d.id, opts) == Ok(d)
    {
      EmittedKeeps(lists, seen, opts, d);
    }
    EmittedIds(lists, seen, opts);
    assert how.at !in seen;
  }

  const DEFAULTS := Options({}, false, false, false)

  predicate Below(a: int, b: int) {
    a < b
  }

  /** The baseline has id 1 and then fails; the candidate has nothing. */
  function FailingBaseline(data: Datum): seq<Stream<int>> {
    [[Rec(1, data), Fault("x")], []]
  }

  lemma FailingLists(data: Datum)
    ensures var streams := FailingBaseline(data);
            && GoodLength(streams[0], Below) == 1
            && Clean(streams[0], Below) == [Entry(1, data)] && Clean(streams[1], Below) == []
            && CleanAll(streams, Below) == [[Entry(1, data)], []]
  {
    var s := FailingBaseline(data)[0];
    assert Extends(s, 0, Below) && !Extends(s, 1, Below);
    assert Clean(s, Below)[0] == Entry(1, data);
  }

  lemma LostDiffIsMissing(data: Datum)
    ensures var d := DiffAt([[Entry(1, data)], []], 1, DEFAULTS);
            d.Ok? && d.value.candidates == [CandidateState(Missing, [])] && ShouldEmit(d.value, DEFAULTS)
  {
    var lists := [[Entry(1, data)], []];
    assert Lookups(lists, 1)[1..] == [None];
    var none, states := [None], [CandidateState(Missing, [])];
    assert none[..0] == [] && [] + states == states;
    assert States(Some(data), none, DEFAULTS) == Ok(states);
    assert states[0].status != Matched;
  }

  /** The run tells the error only, although the diff of id 1 was assembled. */
  lemma LostDiff(data: Datum, out: seq<IDDiff<int>>, err: Option<Error>, seen: seq<int>, how: Ending<int>)
    requires Outcome(FailingBaseline(data), Below, DEFAULTS, out, err, seen, how)
    ensures out == [] && err == Some(Upstream("x"))
    ensures var d := DiffAt(CleanAll(FailingBaseline(data), Below), 1, DEFAULTS);
            d.Ok? && d.value.candidates == [CandidateState(Missing, [])] && ShouldEmit(d.value, DEFAULTS)
  {
    var streams := FailingBaseline(data);
    FailingLists(data);
    LostDiffIsMissing(data);
    assert FaultAfter(streams[0], 1, Below);
    SeenIsPrefix(streams, Below, DEFAULTS, out, err, seen, how);
    OneAscent(seen, [], Below);
  }

  // ---- Where the diff is not a patch ----------------------------------------------------

  predicate SameBucket(b: Datum, c: Datum) {
    b.MapData? == c.MapData? && b.StructData? == c.StructData?
  }

  /** Between records of different buckets the diff carries one _value delta. A map
      or struct there replaces the record; any other value says nothing of the fields
      the baseline has besides, so it rebuilds the candidate exactly when there are none. */
  lemma MixedPatchIff(b: Datum, c: Datum, opts: Options)
    requires !SameBucket(b, c)
    ensures CompareRecords(b, c, opts) == Ok([FieldValue("_value", c, false)])
    ensures PatchFields(FieldsOf(b), CompareRecords(b, c, opts).value) == FieldsOf(c) <==>
            (c.OtherData? ==> FieldsOf(b).Keys <= {"_value"})
  {
    var ds := [FieldValue("_value", c, false)];
    assert ds[..0] == [];
    assert PatchFields(FieldsOf(b), ds) == PatchOne(FieldsOf(b), ds[0]);
    if c.OtherData? {
      var f, g := PatchOne(FieldsOf(b), ds[0]), FieldsOf(c);
      assert f.Keys == FieldsOf(b).Keys + {"_value"} && g.Keys == {"_value"};
      if FieldsOf(b).Keys <= {"_value"} {
        assert f == g;
      }
    }
  }

  /** A map baseline against a plain candidate keeps the map's fields. */
  lemma MixedShapesDoNotPatch()
    ensures var b, c := MapData(map["a" := Int(1)]), OtherData(Str("x"));
            var opts := Options({}, false, false, false);
            PatchFields(FieldsOf(b), CompareRecords(b, c, opts).value) != FieldsOf(c)
  {
    var b, c := MapData(map["a" := Int(1)]), OtherData(Str("x"));
    assert "a" in FieldsOf(b).Keys;
    MixedPatchIff(b, c, Options({}, false, false, false));
  }
}
