/** DiffFunc: a K-way merge of one baseline and any number of candidate streams,
    emitting one IDDiff an id. Stream 0 is the baseline. */
module Diff {
  import opened Ordering
  import opened Values
  import opened RecordDiff
  import opened Merge

  datatype IDDiff<K> = IDDiff(id: K, baseline: Option<seq<FieldValue>>, candidates: seq<CandidateState>)

  // ---- What is emitted for an id ------------------------------------------------------

  ghost function States(base: Option<Datum>, cands: seq<Option<Datum>>, opts: Options): (r: Result<seq<CandidateState>, Error>)
    ensures r.Ok? ==> |r.value| == |cands|
  {
    if cands == [] then Ok([])
    else
      var n := |cands| - 1;
      match States(base, cands[..n], opts)
      case Err(e) => Err(e)
      case Ok(states) =>
        match Classify(base, cands[n], opts)
        case Err(e) => Err(e)
        case Ok(state) => Ok(states + [state])
  }

  ghost function DiffOf<K>(id: K, base: Option<Datum>, cands: seq<Option<Datum>>, opts: Options): Result<IDDiff<K>, Error> {
    match States(base, cands, opts)
    case Err(e) => Err(e)
    case Ok(states) =>
      Ok(IDDiff(id, if base.Some? then Some(BaselineFields(base.value, states, opts)) else None, states))
  }

  ghost function Lookups<K>(lists: Lists<K>, id: K): (r: seq<Option<Datum>>)
    ensures |r| == |lists| && forall i | 0 <= i < |lists| :: r[i] == Lookup(lists[i], id)
  {
    seq(|lists|, i requires 0 <= i < |lists| => Lookup(lists[i], id))
  }

  /** The diff of one id depends only on each stream's record for it. */
  ghost function DiffAt<K>(lists: Lists<K>, id: K, opts: Options): Result<IDDiff<K>, Error>
    requires |lists| > 0
  {
    DiffOf(id, Lookups(lists, id)[0], Lookups(lists, id)[1..], opts)
  }

  predicate ShouldEmit<K>(d: IDDiff<K>, opts: Options) {
    opts.includeMatched || exists i | 0 <= i < |d.candidates| :: d.candidates[i].status != Matched
  }

  /** The diffs emitted for ids merged in this order. */
  ghost function Emitted<K>(lists: Lists<K>, seen: seq<K>, opts: Options): seq<IDDiff<K>>
    requires |lists| > 0
  {
    if seen == [] then []
    else
      var n := |seen| - 1;
      var d := DiffAt(lists, seen[n], opts);
      Emitted(lists, seen[..n], opts) + if d.Ok? && ShouldEmit(d.value, opts) then [d.value] else []
  }

  // ---- How a run ends --------------------------------------------------------------------

  datatype Ending<K> =
    | Finished
    | FailedPriming(stream: nat)
    | FailedComparing(at: K)
    | FailedAdvancing(at: K, stream: nat)

  ghost function CleanAll<K>(streams: seq<Stream<K>>, less: (K, K) -> bool): (r: Lists<K>)
    ensures |r| == |streams|
    ensures forall i | 0 <= i < |r| :: r[i] == Clean(streams[i], less)
  {
    seq(|streams|, i requires 0 <= i < |streams| => Clean(streams[i], less))
  }

  /** The stream's very first pull fails. */
  predicate BadStart<K>(s: Stream<K>, less: (K, K) -> bool) {
    GoodLength(s, less) == 0 < |s|
  }

  /** The pull right after the stream's record for id fails. */
  predicate FaultAfter<K(==)>(s: Stream<K>, id: K, less: (K, K) -> bool) {
    0 < GoodLength(s, less) < |s| && s[GoodLength(s, less) - 1].id == id
  }

  /** The merge has come to x: all smaller ids are merged, nothing else is. */
  ghost predicate Reached<K(!new)>(lists: Lists<K>, seen: seq<K>, x: K, less: (K, K) -> bool) {
    && (forall i, z | 0 <= i < |lists| && Has(lists[i], z) && less(z, x) :: z in seen)
    && (forall z | z in seen :: z != x && !less(x, z))
    && (exists i :: 0 <= i < |lists| && Has(lists[i], x))
  }

  /** The ids merged and the diffs emitted for them. */
  ghost predicate Ran<K(!new)>(streams: seq<Stream<K>>, less: (K, K) -> bool, opts: Options, out: seq<IDDiff<K>>, seen: seq<K>)
    requires |streams| > 0
  {
    var lists := CleanAll(streams, less);
    && out == Emitted(lists, seen, opts)
    && Distinct(seen) && Sorted(less, seen)
    && (forall z | z in seen :: DiffAt(lists, z, opts).Ok?)
    && (forall z | z in seen :: exists i :: 0 <= i < |lists| && Has(lists[i], z))
    && (forall i, z | 0 <= i < |streams| && z in seen :: !FaultAfter(streams[i], z, less))
  }

  /** How the run ended, and with what error. */
  ghost predicate Ended<K(!new)>(streams: seq<Stream<K>>, less: (K, K) -> bool, opts: Options, err: Option<Error>, seen: seq<K>, how: Ending<K>)
    requires |streams| > 0
  {
    var lists := CleanAll(streams, less);
    && (!how.FailedPriming? ==> forall i | 0 <= i < |streams| :: !BadStart(streams[i], less))
    && match how
       case Finished =>
         && err == None
         && (forall i | 0 <= i < |streams| :: GoodLength(streams[i], less) == |streams[i]|)
         && (forall i, z | 0 <= i < |lists| && Has(lists[i], z) :: z in seen)
       case FailedPriming(i) =>
         && seen == []
         && i < |streams| && BadStart(streams[i], less) && err == Some(FaultAt(streams[i], 0))
         && (forall j | 0 <= j < i :: !BadStart(streams[j], less))
       case FailedComparing(x) =>
         && Reached(lists, seen, x, less)
         && DiffAt(lists, x, opts).Err? && err == Some(DiffAt(lists, x, opts).error)
       case FailedAdvancing(x, i) =>
         && Reached(lists, seen, x, less)
         && DiffAt(lists, x, opts).Ok?
         && i < |streams| && FaultAfter(streams[i], x, less)
         && err == Some(FaultAt(streams[i], GoodLength(streams[i], less)))
         && (forall j | 0 <= j < i :: !FaultAfter(streams[j], x, less))
  }

  /** Everything about a run: the ids merged, the diffs emitted, the error. */
  ghost predicate Outcome<K(!new)>(streams: seq<Stream<K>>, less: (K, K) -> bool, opts: Options,
                                   out: seq<IDDiff<K>>, err: Option<Error>, seen: seq<K>, how: Ending<K>)
    requires |streams| > 0
  {
    Ran(streams, less, opts, out, seen) && Ended(streams, less, opts, err, seen, how)
  }

  // ---- Cursors ------------------------------------------------------------------------------

  /** One input stream with its current record. pos counts the pulls so far. */
  class StreamCursor<K(==,!new,0)> {
    const stream: Stream<K>
    var pos: nat
    var live: bool
    var id: K
    var data: Datum
    var prev: K
    var hasPrev: bool

    constructor (stream: Stream<K>)
      ensures this.stream == stream && New()
    {
      this.stream := stream;
      pos, live, hasPrev := 0, true, false;
      data := OtherData(Nil);
    }

    ghost predicate New()
      reads this
    {
      pos == 0 && live && !hasPrev
    }

    /** Primed: on a good record, or at the end of a good stream. */
    ghost predicate On(less: (K, K) -> bool)
      reads this
    {
      && pos <= GoodLength(stream, less)
      && (live ==> pos > 0 && stream[pos - 1] == Rec(id, data) && hasPrev && prev == id)
      && (!live ==> pos == |stream|)
    }

    /** Records behind the cursor. */
    ghost function Passed(): nat
      reads this
    {
      if live && pos > 0 then pos - 1 else pos
    }

    /** On a good record or at a good end, with k records behind. */
    ghost predicate Follows(k: nat, less: (K, K) -> bool)
      reads this
    {
      On(less) && Passed() == k
    }

    method Advance(less: (K, K) -> bool) returns (err: Option<Error>)
      requires New() || (On(less) && live)
      modifies this
      ensures err.None? ==> On(less)
      ensures err.None? && old(pos) < |stream| ==> live && pos == old(pos) + 1
      ensures err.None? && old(pos) == |stream| ==> !live && pos == old(pos)
      ensures err.Some? ==>
                old(pos) < |stream| && GoodLength(stream, less) == old(pos) && err == Some(FaultAt(stream, old(pos)))
    {
      if pos == |stream| {
        live := false;
        return None;
      }
      var item := stream[pos];
      pos := pos + 1;
      match item {
        case Fault(text) =>
          live := false;
          err := Some(Upstream(text));
        case Rec(rid, rdata) =>
          if hasPrev {
            if !less(prev, rid) {
              if prev == rid {
                return Some(DuplicateID);
              }
              return Some(UnsortedInput);
            }
          }
          prev := rid;
          hasPrev := true;
          id := rid;
          data := rdata;
          err := None;
      }
    }

    /** Advance if the current record is the one for x. */
    method AdvancePast(x: K, less: (K, K) -> bool, ghost behind: nat) returns (err: Option<Error>)
      requires Follows(behind, less)
      modifies this
      ensures var head := behind < |Clean(stream, less)| && Clean(stream, less)[behind].id == x;
              if err.None? then
                Follows(if head then behind + 1 else behind, less) && !(head && FaultNext(stream, behind, less))
              else
                head && FaultNext(stream, behind, less) && err == Some(FaultAt(stream, behind + 1))
    {
      err := None;
      if live && id == x {
        err := Advance(less);
      }
    }
  }

  /** Cursor i reads stream i and has p[i] records behind it. */
  ghost predicate Tracks<K(!new,0)>(cursors: seq<StreamCursor<K>>, streams: seq<Stream<K>>, p: seq<nat>, less: (K, K) -> bool)
    reads cursors
  {
    && |cursors| == |streams| == |p|
    && (forall i, j | 0 <= i < j < |cursors| :: cursors[i] != cursors[j])
    && (forall i | 0 <= i < |cursors| ::
          cursors[i].stream == streams[i] && cursors[i].Follows(p[i], less))
  }

  /** A live cursor shows the head of its list; a dead one is at its end. */
  lemma CursorShowsHead<K(!new,0)>(cursors: seq<StreamCursor<K>>, streams: seq<Stream<K>>, p: seq<nat>, less: (K, K) -> bool, i: nat)
    requires Tracks(cursors, streams, p, less) && i < |cursors|
    ensures var list := Clean(streams[i], less);
            && p[i] <= |list|
            && (cursors[i].live <==> p[i] < |list|)
            && (cursors[i].live ==> list[p[i]] == Entry(cursors[i].id, cursors[i].data))
            && (!cursors[i].live ==> p[i] == |streams[i]|)
  {
    assert cursors[i].On(less);
  }

  method Prime<K(==,!new,0)>(cursors: seq<StreamCursor<K>>, less: (K, K) -> bool, ghost streams: seq<Stream<K>>)
      returns (err: Option<Error>, ghost failed: nat)
    requires |cursors| == |streams|
    requires forall i, j | 0 <= i < j < |cursors| :: cursors[i] != cursors[j]
    requires forall i | 0 <= i < |cursors| :: cursors[i].stream == streams[i] && cursors[i].New()
    modifies cursors
    ensures err.None? ==> Tracks(cursors, streams, seq(|streams|, i => 0), less)
    ensures err.None? ==> forall i | 0 <= i < |streams| :: !BadStart(streams[i], less)
    ensures err.Some? ==>
              && failed < |streams| && BadStart(streams[failed], less) && err == Some(FaultAt(streams[failed], 0))
              && forall j | 0 <= j < failed :: !BadStart(streams[j], less)
  {
    failed := 0;
    for i := 0 to |cursors|
      invariant forall j | 0 <= j < i :: cursors[j].Follows(0, less) && !BadStart(streams[j], less)
      invariant forall j | i <= j < |cursors| :: cursors[j].New()
    {
      err := cursors[i].Advance(less);
      if err.Some? {
        failed := i;
        return;
      }
    }
    err := None;
  }

  method SmallestID<K(==,!new,0)>(cursors: seq<StreamCursor<K>>, less: (K, K) -> bool, ghost streams: seq<Stream<K>>, ghost p: seq<nat>)
      returns (smallest: Option<K>)
    requires Strict(less) && Tracks(cursors, streams, p, less)
    ensures smallest.None? ==> forall i | 0 <= i < |p| :: p[i] == |streams[i]| == |Clean(streams[i], less)|
    ensures smallest.Some? ==> Smallest(CleanAll(streams, less), p, smallest.value, less)
  {
    ghost var lists := CleanAll(streams, less);
    smallest := None;
    for i := 0 to |cursors|
      invariant smallest.None? ==> forall j | 0 <= j < i :: p[j] == |streams[j]| == |lists[j]|
      invariant smallest.Some? ==> exists j :: 0 <= j < i && HeadIs(lists, p, j, smallest.value)
      invariant smallest.Some? ==> forall j | 0 <= j < i && p[j] < |lists[j]| :: !less(lists[j][p[j]].id, smallest.value)
    {
      CursorShowsHead(cursors, streams, p, less, i);
      if cursors[i].live && (smallest.None? || less(cursors[i].id, smallest.value)) {
        smallest := Some(cursors[i].id);
        assert HeadIs(lists, p, i, smallest.value);
      }
    }
  }

  method AssembleIDDiff<K(==,!new,0)>(id: K, cursors: seq<StreamCursor<K>>, opts: Options, ghost heads: seq<Option<Datum>>)
      returns (r: Result<IDDiff<K>, Error>)
    requires |cursors| == |heads| > 0
    requires forall i | 0 <= i < |cursors| ::
               heads[i] == if cursors[i].live && cursors[i].id == id then Some(cursors[i].data) else None
    ensures r == DiffOf(id, heads[0], heads[1..], opts)
  {
    var base := if cursors[0].live && cursors[0].id == id then Some(cursors[0].data) else None;
    ghost var cands := heads[1..];
    var states: seq<CandidateState> := [];
    for i := 1 to |cursors|
      invariant States(base, cands[..i - 1], opts) == Ok(states)
    {
      var cand := if cursors[i].live && cursors[i].id == id then Some(cursors[i].data) else None;
      var state := ClassifyPair(base, cand, opts);
      assert cands[..i][..i - 1] == cands[..i - 1] && cands[i - 1] == cand;
      if state.Err? {
        StatesStop(base, cands, i, opts);
        return Err(state.error);
      }
      states := states + [state.value];
    }
    assert cands[..|cands|] == cands;
    var baseline := None;
    if base.Some? {
      var fields := BuildBaseline(base.value, states, opts);
      baseline := Some(fields);
    }
    r := Ok(IDDiff(id, baseline, states));
  }

  lemma {:induction false} StatesStop(base: Option<Datum>, cands: seq<Option<Datum>>, i: nat, opts: Options)
    requires i <= |cands| && States(base, cands[..i], opts).Err?
    ensures States(base, cands, opts) == States(base, cands[..i], opts)
    decreases |cands|
  {
    if i == |cands| {
      assert cands[..i] == cands;
    } else {
      var n := |cands| - 1;
      assert cands[..n][..i] == cands[..i];
      StatesStop(base, cands[..n], i, opts);
    }
  }

  /** Advance every cursor that is at id, in stream order; the first failure ends it. */
  method AdvanceAt<K(==,!new,0)>(id: K, cursors: seq<StreamCursor<K>>, less: (K, K) -> bool, ghost streams: seq<Stream<K>>, ghost p: seq<nat>)
      returns (err: Option<Error>, ghost failed: nat)
    requires Tracks(cursors, streams, p, less)
    modifies cursors
    ensures err.None? ==> Tracks(cursors, streams, Moved(CleanAll(streams, less), p, id), less)
    ensures err.None? ==> forall i | 0 <= i < |streams| && HeadIs(CleanAll(streams, less), p, i, id) :: !FaultNext(streams[i], p[i], less)
    ensures err.Some? ==>
              && failed < |streams| && HeadIs(CleanAll(streams, less), p, failed, id) && FaultNext(streams[failed], p[failed], less)
              && err == Some(FaultAt(streams[failed], p[failed] + 1))
              && forall j | 0 <= j < failed && HeadIs(CleanAll(streams, less), p, j, id) :: !FaultNext(streams[j], p[j], less)
  {
    ghost var lists := CleanAll(streams, less);
    ghost var p' := Moved(lists, p, id);
    failed := 0;
    for i := 0 to |cursors|
      invariant forall j | 0 <= j < i :: cursors[j].Follows(p'[j], less)
      invariant forall j | 0 <= j < i && HeadIs(lists, p, j, id) :: !FaultNext(streams[j], p[j], less)
      invariant forall j | i <= j < |cursors| :: cursors[j].Follows(p[j], less)
    {
      err := cursors[i].AdvancePast(id, less, p[i]);
      if err.Some? {
        failed := i;
        return;
      }
      forall j | 0 <= j < |cursors| && j != i
        ensures cursors[j].Follows(if j < i then p'[j] else p[j], less)
      {
        assert cursors[j] != cursors[i];
      }
    }
    err := None;
  }

  /** Record k is good and the pull after it is not. */
  predicate FaultNext<K>(s: Stream<K>, k: nat, less: (K, K) -> bool) {
    k + 1 == GoodLength(s, less) < |s|
  }

  // ---- The merge loop --------------------------------------------------------------------

  /** At the smallest head x, a stream fails right after its record for x exactly
      when x is its head and its next pull fails. */
  lemma FaultIsNext<K(!new)>(streams: seq<Stream<K>>, p: seq<nat>, seen: seq<K>, x: K, less: (K, K) -> bool, i: nat)
    requires Strict(less) && i < |streams|
    requires Standing(CleanAll(streams, less), p, seen, less) && Smallest(CleanAll(streams, less), p, x, less)
    ensures FaultAfter(streams[i], x, less) <==>
            HeadIs(CleanAll(streams, less), p, i, x) && FaultNext(streams[i], p[i], less)
  {
    var lists: Lists<K> := CleanAll(streams, less);
    AllCleanAscend(streams, less);
    var n := |lists[i]|;
    if FaultAfter(streams[i], x, less) {
      assert lists[i][n - 1].id == x;
      MoveStands(lists, p, seen, x, less);
    }
  }

  lemma AllCleanAscend<K(!new)>(streams: seq<Stream<K>>, less: (K, K) -> bool)
    requires Strict(less)
    ensures AllAscend(CleanAll(streams, less), less)
  {
    forall i | 0 <= i < |streams|
      ensures Ascends(CleanAll(streams, less)[i], less)
    {
      CleanAscends(streams[i], less);
    }
  }

  /** What the merge has established after emitting the diffs of seen. */
  ghost predicate Underway<K(!new)>(streams: seq<Stream<K>>, less: (K, K) -> bool, opts: Options, out: seq<IDDiff<K>>, seen: seq<K>)
    requires |streams| > 0
  {
    var lists := CleanAll(streams, less);
    && out == Emitted(lists, seen, opts)
    && (forall z | z in seen :: DiffAt(lists, z, opts).Ok?)
    && (forall i, z | 0 <= i < |streams| && z in seen :: !FaultAfter(streams[i], z, less))
    && (forall i | 0 <= i < |streams| :: !BadStart(streams[i], less))
  }

  ghost function HeadData<K>(lists: Lists<K>, p: seq<nat>, x: K): (r: seq<Option<Datum>>)
    requires |p| == |lists|
    ensures |r| == |p|
    ensures forall i | 0 <= i < |p| :: r[i] == if HeadIs(lists, p, i, x) then Some(lists[i][p[i]].data) else None
  {
    seq(|p|, i requires 0 <= i < |p| => if HeadIs(lists, p, i, x) then Some(lists[i][p[i]].data) else None)
  }

  lemma HeadsAreRecords<K(!new)>(streams: seq<Stream<K>>, p: seq<nat>, seen: seq<K>, x: K, less: (K, K) -> bool, opts: Options)
    requires Strict(less) && |streams| > 0
    requires Standing(CleanAll(streams, less), p, seen, less) && Smallest(CleanAll(streams, less), p, x, less)
    ensures var heads := HeadData(CleanAll(streams, less), p, x);
            DiffOf(x, heads[0], heads[1..], opts) == DiffAt(CleanAll(streams, less), x, opts)
  {
    var lists := CleanAll(streams, less);
    var heads := HeadData(lists, p, x);
    AllCleanAscend(streams, less);
    forall i | 0 <= i < |p|
      ensures heads[i] == Lookup(lists[i], x)
    {
      HeadIsLookup(lists, p, seen, x, less, i);
    }
    assert heads == Lookups(lists, x);
  }

  lemma SeenIsHeld<K(!new)>(lists: Lists<K>, p: seq<nat>, seen: seq<K>, less: (K, K) -> bool)
    requires Standing(lists, p, seen, less)
    ensures forall z | z in seen :: exists i :: 0 <= i < |lists| && Has(lists[i], z)
  {
    forall z | z in seen
      ensures exists i :: 0 <= i < |lists| && Has(lists[i], z)
    {
      var j :| 0 <= j < |seen| && seen[j] == z;
      assert Merged(lists, p, seen[j]);
      var i, k :| 0 <= i < |p| && 0 <= k < p[i] && lists[i][k].id == z;
      assert Has(lists[i], z);
    }
  }

  ghost function Remaining<K>(lists: Lists<K>, p: seq<nat>): nat
    requires Positions(lists, p)
  {
    if lists == [] then 0
    else
      var n := |lists| - 1;
      assert Positions(lists[..n], p[..n]);
      Remaining(lists[..n], p[..n]) + (|lists[n]| - p[n])
  }

  /** Every step consumes input. */
  lemma {:induction false} MoveShrinks<K(!new)>(lists: Lists<K>, p: seq<nat>, x: K)
    requires Positions(lists, p)
    ensures Positions(lists, Moved(lists, p, x))
    ensures Remaining(lists, Moved(lists, p, x)) <= Remaining(lists, p)
    ensures (exists i :: 0 <= i < |p| && HeadIs(lists, p, i, x)) ==> Remaining(lists, Moved(lists, p, x)) < Remaining(lists, p)
  {
    if lists != [] {
      var n := |lists| - 1;
      assert Moved(lists, p, x)[..n] == Moved(lists[..n], p[..n], x);
      MoveShrinks(lists[..n], p[..n], x);
      if i :| 0 <= i < |p| && HeadIs(lists, p, i, x) && i < n {
        assert HeadIs(lists[..n], p[..n], i, x);
      }
    }
  }

  method DiffFunc<K(==,!new,0)>(baseline: Stream<K>, candidates: seq<Stream<K>>, less: Option<(K, K) -> bool>, opts: Options)
      returns (out: seq<IDDiff<K>>, err: Option<Error>, ghost seen: seq<K>, ghost how: Ending<K>)
    requires less.Some? ==> Strict(less.value)
    ensures less.None? ==> out == [] && err == Some(InvalidArgument)
    ensures less.Some? ==> Outcome([baseline] + candidates, less.value, opts, out, err, seen, how)
  {
    out, seen, how := [], [], Finished;
    if less.None? {
      return out, Some(InvalidArgument), seen, how;
    }
    ghost var streams := [baseline] + candidates;
    ghost var lists := CleanAll(streams, less.value);
    AllCleanAscend(streams, less.value);
    var baseCur := new StreamCursor(baseline);
    var cursors := [baseCur];
    for i := 0 to |candidates|
      invariant |cursors| == i + 1
      invariant forall j | 0 <= j <= i :: fresh(cursors[j]) && cursors[j].New() && cursors[j].stream == streams[j]
      invariant forall j, k | 0 <= j < k <= i :: cursors[j] != cursors[k]
    {
      var c := new StreamCursor(candidates[i]);
      cursors := cursors + [c];
    }
    ghost var failed;
    err, failed := Prime(cursors, less.value, streams);
    if err.Some? {
      how := FailedPriming(failed);
      return;
    }
    ghost var p: seq<nat> := seq(|streams|, i => 0);
    out, err, seen, how := MergeLoop(cursors, less.value, opts, streams, p);
  }

  /** Merging id adds one diff and keeps what is established. */
  lemma MergedUnderway<K(!new)>(streams: seq<Stream<K>>, less: (K, K) -> bool, opts: Options, out: seq<IDDiff<K>>, seen: seq<K>, id: K)
    requires |streams| > 0 && Underway(streams, less, opts, out, seen)
    requires DiffAt(CleanAll(streams, less), id, opts).Ok?
    requires forall i | 0 <= i < |streams| :: !FaultAfter(streams[i], id, less)
    ensures var d := DiffAt(CleanAll(streams, less), id, opts).value;
            Underway(streams, less, opts, if ShouldEmit(d, opts) then out + [d] else out, seen + [id])
  {
    assert (seen + [id])[..|seen|] == seen;
  }

  /** Asked for where the parts of SoFar are needed. */
  predicate Open(p: seq<nat>, asked: bool) {
    true
  }

  /** Where the merge stands, and what it has emitted. The parts only come into play
      where Open asks for them. */
  ghost predicate SoFar<K(!new)>(streams: seq<Stream<K>>, less: (K, K) -> bool, opts: Options, p: seq<nat>, out: seq<IDDiff<K>>, seen: seq<K>)
    requires |streams| > 0
  {
    forall asked {:trigger Open(p, asked)} :: Open(p, asked) ==>
      Standing(CleanAll(streams, less), p, seen, less) && Underway(streams, less, opts, out, seen)
  }

  /** The turn for id fails: its records cannot be compared, or stream failed.value
      is the first that cannot advance past it. */
  ghost predicate Fails<K(!new)>(streams: seq<Stream<K>>, less: (K, K) -> bool, opts: Options, id: K, error: Error, failed: Option<nat>)
    requires |streams| > 0
  {
    var d := DiffAt(CleanAll(streams, less), id, opts);
    match failed
    case None => d == Err(error)
    case Some(i) =>
      && d.Ok?
      && i < |streams| && FaultAfter(streams[i], id, less)
      && error == FaultAt(streams[i], GoodLength(streams[i], less))
      && (forall j | 0 <= j < i :: !FaultAfter(streams[j], id, less))
  }

  lemma RunsSoFar<K(!new)>(streams: seq<Stream<K>>, less: (K, K) -> bool, opts: Options, p: seq<nat>, out: seq<IDDiff<K>>, seen: seq<K>)
    requires Strict(less) && |streams| > 0 && SoFar(streams, less, opts, p, out, seen)
    ensures Ran(streams, less, opts, out, seen)
    ensures |p| == |streams| && forall i | 0 <= i < |streams| :: !BadStart(streams[i], less)
  {
    assert Open(p, true);
    SeenIsHeld(CleanAll(streams, less), p, seen, less);
  }

  lemma SeenIsUnion<K(!new)>(streams: seq<Stream<K>>, less: (K, K) -> bool, opts: Options, p: seq<nat>, out: seq<IDDiff<K>>, seen: seq<K>)
    requires |streams| > 0 && SoFar(streams, less, opts, p, out, seen)
    requires |p| == |streams| && forall i | 0 <= i < |p| :: p[i] == |streams[i]| == |Clean(streams[i], less)|
    ensures var lists := CleanAll(streams, less); forall i, z | 0 <= i < |lists| && Has(lists[i], z) :: z in seen
  {
    assert Open(p, true);
    DoneIsUnion(CleanAll(streams, less), p, seen, less);
  }

  lemma RunFinishes<K(!new)>(streams: seq<Stream<K>>, less: (K, K) -> bool, opts: Options, p: seq<nat>, out: seq<IDDiff<K>>, seen: seq<K>)
    requires Strict(less) && |streams| > 0 && SoFar(streams, less, opts, p, out, seen)
    requires |p| == |streams| && forall i | 0 <= i < |p| :: p[i] == |streams[i]| == |Clean(streams[i], less)|
    ensures Outcome(streams, less, opts, out, None, seen, Finished)
  {
    RunsSoFar(streams, less, opts, p, out, seen);
    SeenIsUnion(streams, less, opts, p, out, seen);
  }

  lemma ReachesSmallest<K(!new)>(streams: seq<Stream<K>>, less: (K, K) -> bool, opts: Options, p: seq<nat>, out: seq<IDDiff<K>>, seen: seq<K>, id: K)
    requires Strict(less) && |streams| > 0 && SoFar(streams, less, opts, p, out, seen)
    requires |p| == |streams| && Smallest(CleanAll(streams, less), p, id, less)
    ensures Reached(CleanAll(streams, less), seen, id, less)
  {
    assert Open(p, true);
    AllCleanAscend(streams, less);
    SmallestSplits(CleanAll(streams, less), p, seen, id, less);
  }

  lemma RunFails<K(!new)>(streams: seq<Stream<K>>, less: (K, K) -> bool, opts: Options, p: seq<nat>, out: seq<IDDiff<K>>, seen: seq<K>,
                          id: K, error: Error, failed: Option<nat>)
    requires Strict(less) && |streams| > 0 && SoFar(streams, less, opts, p, out, seen)
    requires |p| == |streams| && Smallest(CleanAll(streams, less), p, id, less) && Fails(streams, less, opts, id, error, failed)
    ensures Outcome(streams, less, opts, out, Some(error), seen, if failed.Some? then FailedAdvancing(id, failed.value) else FailedComparing(id))
  {
    RunsSoFar(streams, less, opts, p, out, seen);
    ReachesSmallest(streams, less, opts, p, out, seen, id);
  }

  /** A turn that succeeds emits its diff, consumes input, and skips nothing. */
  lemma RunGoesOn<K(!new)>(streams: seq<Stream<K>>, less: (K, K) -> bool, opts: Options, p: seq<nat>, out: seq<IDDiff<K>>, seen: seq<K>, id: K)
    requires Strict(less) && |streams| > 0 && SoFar(streams, less, opts, p, out, seen)
    requires |p| == |streams| && Smallest(CleanAll(streams, less), p, id, less) && DiffAt(CleanAll(streams, less), id, opts).Ok?
    requires forall i | 0 <= i < |streams| :: !FaultAfter(streams[i], id, less)
    ensures var lists := CleanAll(streams, less);
            var d := DiffAt(lists, id, opts).value;
            && SoFar(streams, less, opts, Moved(lists, p, id), if ShouldEmit(d, opts) then out + [d] else out, seen + [id])
            && Positions(lists, p) && Positions(lists, Moved(lists, p, id))
            && Remaining(lists, Moved(lists, p, id)) < Remaining(lists, p)
  {
    assert Open(p, true);
    var lists := CleanAll(streams, less);
    AllCleanAscend(streams, less);
    MoveStands(lists, p, seen, id, less);
    MoveShrinks(lists, p, id);
    MergedUnderway(streams, less, opts, out, seen, id);
  }

  lemma HeadsShown<K(!new)>(streams: seq<Stream<K>>, less: (K, K) -> bool, opts: Options, p: seq<nat>, out: seq<IDDiff<K>>, seen: seq<K>, id: K)
    requires Strict(less) && |streams| > 0 && SoFar(streams, less, opts, p, out, seen)
    requires |p| == |streams| && Smallest(CleanAll(streams, less), p, id, less)
    ensures var heads := HeadData(CleanAll(streams, less), p, id);
            DiffOf(id, heads[0], heads[1..], opts) == DiffAt(CleanAll(streams, less), id, opts)
    ensures forall i | 0 <= i < |streams| ::
              FaultAfter(streams[i], id, less) <==> HeadIs(CleanAll(streams, less), p, i, id) && FaultNext(streams[i], p[i], less)
  {
    assert Open(p, true);
    HeadsAreRecords(streams, p, seen, id, less, opts);
    forall i | 0 <= i < |streams|
      ensures FaultAfter(streams[i], id, less) <==> HeadIs(CleanAll(streams, less), p, i, id) && FaultNext(streams[i], p[i], less)
    {
      FaultIsNext(streams, p, seen, id, less, i);
    }
  }

  /** One turn of the loop: assemble the diff of id, then advance past it. */
  method MergeStep<K(==,!new,0)>(id: K, cursors: seq<StreamCursor<K>>, less: (K, K) -> bool, opts: Options,
                                 ghost streams: seq<Stream<K>>, ghost p: seq<nat>, ghost out: seq<IDDiff<K>>, ghost seen: seq<K>)
      returns (r: Result<IDDiff<K>, Error>, ghost failed: Option<nat>)
    requires Strict(less) && |streams| > 0 && Tracks(cursors, streams, p, less)
    requires SoFar(streams, less, opts, p, out, seen) && Smallest(CleanAll(streams, less), p, id, less)
    modifies cursors
    ensures r.Ok? ==>
              && DiffAt(CleanAll(streams, less), id, opts) == r
              && Tracks(cursors, streams, Moved(CleanAll(streams, less), p, id), less)
              && forall i | 0 <= i < |streams| :: !FaultAfter(streams[i], id, less)
    ensures r.Err? ==> Fails(streams, less, opts, id, r.error, failed)
  {
    ghost var lists := CleanAll(streams, less);
    HeadsShown(streams, less, opts, p, out, seen, id);
    ghost var heads := HeadData(lists, p, id);
    forall i | 0 <= i < |cursors|
      ensures heads[i] == if cursors[i].live && cursors[i].id == id then Some(cursors[i].data) else None
    {
      CursorShowsHead(cursors, streams, p, less, i);
    }
    failed := None;
    r := AssembleIDDiff(id, cursors, opts, heads);
    if r.Err? {
      return;
    }
    var err;
    ghost var at;
    err, at := AdvanceAt(id, cursors, less, streams, p);
    if err.Some? {
      failed := Some(at);
      r := Err(err.value);
    }
  }

  method MergeLoop<K(==,!new,0)>(cursors: seq<StreamCursor<K>>, less: (K, K) -> bool, opts: Options,
                                 ghost streams: seq<Stream<K>>, ghost start: seq<nat>)
      returns (out: seq<IDDiff<K>>, err: Option<Error>, ghost seen: seq<K>, ghost how: Ending<K>)
    requires Strict(less) && |streams| > 0
    requires start == seq(|streams|, i => 0) && Tracks(cursors, streams, start, less)
    requires forall i | 0 <= i < |streams| :: !BadStart(streams[i], less)
    modifies cursors
    ensures Outcome(streams, less, opts, out, err, seen, how)
  {
    ghost var lists := CleanAll(streams, less);
    ghost var p := start;
    out, err, seen, how := [], None, [], Finished;
    while true
      invariant Tracks(cursors, streams, p, less)
      invariant SoFar(streams, less, opts, p, out, seen)
      invariant Positions(lists, p)
      decreases Remaining(lists, p)
    {
      var next := SmallestID(cursors, less, streams, p);
      if next.None? {
        RunFinishes(streams, less, opts, p, out, seen);
        return out, None, seen, Finished;
      }
      var id := next.value;
      var diff;
      ghost var failed;
      diff, failed := MergeStep(id, cursors, less, opts, streams, p, out, seen);
      if diff.Err? {
        RunFails(streams, less, opts, p, out, seen, id, diff.error, failed);
        how := if failed.Some? then FailedAdvancing(id, failed.value) else FailedComparing(id);
        return out, Some(diff.error), seen, how;
      }
      RunGoesOn(streams, less, opts, p, out, seen, id);
      p := Moved(lists, p, id);
      seen := seen + [id];
      if ShouldEmit(diff.value, opts) {
        out := out + [diff.value];
      }
    }
  }
}
