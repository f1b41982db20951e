/** Sorted record streams and the K-way merge over them, as facts about positions. */
module Merge {
  import opened Ordering
  import opened RecordDiff

  /** One pull of an input stream: a record, or the source's own error. */
  datatype Item<K> = Rec(id: K, data: Datum) | Fault(text: string)

  type Stream<K> = seq<Item<K>>

  /** What the merge needs of less: irreflexive and transitive. A strict weak
      order, which callers promise, is both. */
  ghost predicate Strict<K(!new)>(less: (K, K) -> bool) {
    && (forall x :: !less(x, x))
    && (forall x, y, z {:trigger less(x, y), less(y, z)} :: less(x, y) && less(y, z) ==> less(x, z))
  }

  /** Pull k is a record that comes strictly after the one before it. */
  predicate Extends<K>(s: Stream<K>, k: nat, less: (K, K) -> bool)
    requires k < |s|
  {
    s[k].Rec? && (k > 0 && s[k - 1].Rec? ==> less(s[k - 1].id, s[k].id))
  }

  /** How far a stream is good. */
  function GoodFrom<K>(s: Stream<K>, k: nat, less: (K, K) -> bool): (n: nat)
    requires k <= |s|
    ensures k <= n <= |s|
    ensures forall j | k <= j < n :: s[j].Rec? && Extends(s, j, less)
    ensures n < |s| ==> !Extends(s, n, less)
    decreases |s| - k
  {
    if k == |s| || !Extends(s, k, less) then k else GoodFrom(s, k + 1, less)
  }

  function GoodLength<K>(s: Stream<K>, less: (K, K) -> bool): (n: nat)
    ensures n <= |s|
    ensures forall j | 0 <= j < n :: s[j].Rec? && Extends(s, j, less)
    ensures n < |s| ==> !Extends(s, n, less)
  {
    GoodFrom(s, 0, less)
  }

  /** The error of the pull that ends the good part: the source's own, a repeat of
      the id before it, or an id that does not come after it. */
  function FaultAt<K(==)>(s: Stream<K>, k: nat): Error
    requires k < |s| && (s[k].Rec? ==> k > 0 && s[k - 1].Rec?)
  {
    if s[k].Fault? then Upstream(s[k].text)
    else if s[k - 1].id == s[k].id then DuplicateID
    else UnsortedInput
  }

  // ---- The good parts as sorted lists -----------------------------------------------

  datatype Entry<K> = Entry(id: K, data: Datum)

  /** The records a stream yields before anything goes wrong in it. */
  function Clean<K>(s: Stream<K>, less: (K, K) -> bool): (r: seq<Entry<K>>)
    ensures |r| == GoodLength(s, less)
    ensures forall k | 0 <= k < |r| :: s[k] == Rec(r[k].id, r[k].data)
  {
    seq(GoodLength(s, less), k requires 0 <= k < GoodLength(s, less) => Entry(s[k].id, s[k].data))
  }

  ghost predicate Ascends<K>(list: seq<Entry<K>>, less: (K, K) -> bool) {
    forall j, k | 0 <= j < k < |list| :: less(list[j].id, list[k].id)
  }

  lemma CleanAscends<K(!new)>(s: Stream<K>, less: (K, K) -> bool)
    requires Strict(less)
    ensures Ascends(Clean(s, less), less)
  {
    forall j, k | 0 <= j < k < |Clean(s, less)|
      ensures less(Clean(s, less)[j].id, Clean(s, less)[k].id)
    {
      CleanIncreases(s, less, j, k);
    }
  }

  lemma {:induction false} CleanIncreases<K(!new)>(s: Stream<K>, less: (K, K) -> bool, i: nat, j: nat)
    requires Strict(less) && i < j < GoodLength(s, less)
    ensures less(Clean(s, less)[i].id, Clean(s, less)[j].id)
    decreases j
  {
    assert Extends(s, j, less);
    if i < j - 1 {
      CleanIncreases(s, less, i, j - 1);
    }
  }

  /** The record a list has for id. */
  function Lookup<K(==)>(list: seq<Entry<K>>, id: K): Option<Datum> {
    if list == [] then None
    else if list[|list| - 1].id == id then Some(list[|list| - 1].data)
    else Lookup(list[..|list| - 1], id)
  }

  /** id is in the list. */
  ghost predicate Has<K>(list: seq<Entry<K>>, id: K) {
    exists k :: 0 <= k < |list| && list[k].id == id
  }

  lemma {:induction false} LookupMiss<K(!new)>(list: seq<Entry<K>>, id: K)
    requires forall k | 0 <= k < |list| :: list[k].id != id
    ensures Lookup(list, id) == None
  {
    if list != [] {
      LookupMiss(list[..|list| - 1], id);
    }
  }

  lemma {:induction false} LookupHit<K(!new)>(list: seq<Entry<K>>, less: (K, K) -> bool, k: nat)
    requires Strict(less) && Ascends(list, less) && k < |list|
    ensures Lookup(list, list[k].id) == Some(list[k].data)
  {
    var n := |list| - 1;
    if k < n {
      assert less(list[k].id, list[n].id) && !less(list[k].id, list[k].id);
      LookupHit(list[..n], less, k);
    }
  }

  /** A list holds a record for exactly its own ids. */
  lemma LookupIff<K(!new)>(list: seq<Entry<K>>, id: K, less: (K, K) -> bool)
    requires Strict(less) && Ascends(list, less)
    ensures Lookup(list, id).Some? <==> Has(list, id)
  {
    if k :| 0 <= k < |list| && list[k].id == id {
      LookupHit(list, less, k);
    } else {
      LookupMiss(list, id);
    }
  }

  // ---- Where a merge stands ---------------------------------------------------------

  type Lists<K> = seq<seq<Entry<K>>>

  ghost predicate AllAscend<K>(lists: Lists<K>, less: (K, K) -> bool) {
    forall i | 0 <= i < |lists| :: Ascends(lists[i], less)
  }

  ghost predicate Positions<K>(lists: Lists<K>, p: seq<nat>) {
    |p| == |lists| && forall i | 0 <= i < |p| :: p[i] <= |lists[i]|
  }

  /** The first p[i] records of list i are merged. */
  ghost predicate Past<K>(lists: Lists<K>, p: seq<nat>, seen: seq<K>)
    requires Positions(lists, p)
  {
    forall i, k | 0 <= i < |p| && 0 <= k < p[i] :: lists[i][k].id in seen
  }

  /** Names a record a quantifier below is about, so that it is only used there. */
  predicate Left(i: int, k: int) {
    0 <= i && 0 <= k
  }

  /** What is left is neither merged already nor before anything merged. */
  ghost predicate Ahead<K>(lists: Lists<K>, p: seq<nat>, seen: seq<K>, less: (K, K) -> bool)
    requires Positions(lists, p)
  {
    forall i, k, j {:trigger Left(i, k), seen[j]} | Left(i, k) && i < |p| && p[i] <= k < |lists[i]| && 0 <= j < |seen| ::
      lists[i][k].id != seen[j] && !less(lists[i][k].id, seen[j])
  }

  /** Some merged record has this id. */
  ghost predicate Merged<K>(lists: Lists<K>, p: seq<nat>, z: K)
    requires Positions(lists, p)
  {
    exists i, k :: 0 <= i < |p| && 0 <= k < p[i] && lists[i][k].id == z
  }

  /** p[i] records of list i are merged; seen are the ids merged so far. */
  ghost predicate Standing<K(!new)>(lists: Lists<K>, p: seq<nat>, seen: seq<K>, less: (K, K) -> bool) {
    && Positions(lists, p)
    && Past(lists, p, seen)
    && Ahead(lists, p, seen, less)
    && (forall j | 0 <= j < |seen| :: Merged(lists, p, seen[j]))
    && Distinct(seen)
    && Sorted(less, seen)
  }

  /** The next record of list i has this id. */
  predicate HeadIs<K(==)>(lists: Lists<K>, p: seq<nat>, i: nat, id: K)
    requires i < |p| == |lists|
  {
    p[i] < |lists[i]| && lists[i][p[i]].id == id
  }

  /** id is at the head of some list and no head is smaller. */
  ghost predicate Smallest<K>(lists: Lists<K>, p: seq<nat>, id: K, less: (K, K) -> bool)
    requires |p| == |lists|
  {
    && (exists i :: 0 <= i < |p| && HeadIs(lists, p, i, id))
    && (forall i | 0 <= i < |p| && p[i] < |lists[i]| :: !less(lists[i][p[i]].id, id))
  }

  /** Every list headed by id moves on by one. */
  function Moved<K(==)>(lists: Lists<K>, p: seq<nat>, id: K): (r: seq<nat>)
    requires |p| == |lists|
    ensures |r| == |p|
  {
    seq(|p|, i requires 0 <= i < |p| => if HeadIs(lists, p, i, id) then p[i] + 1 else p[i])
  }

  /** Past its head, a list only holds ids that are not id and not before it. */
  lemma RestIsAfter<K(!new)>(lists: Lists<K>, p: seq<nat>, id: K, less: (K, K) -> bool, i: nat, k: nat)
    requires Strict(less) && AllAscend(lists, less) && |p| == |lists| && i < |p| && Smallest(lists, p, id, less)
    requires p[i] <= k < |lists[i]|
    ensures !less(lists[i][k].id, id)
    ensures k > p[i] || !HeadIs(lists, p, i, id) ==> lists[i][k].id != id
  {
    var h, x := lists[i][p[i]].id, lists[i][k].id;
    assert !less(h, id) && !less(id, id);
    if k > p[i] {
      assert Ascends(lists[i], less);
      assert less(h, x);
      assert less(x, id) ==> less(h, id);
    }
  }

  lemma MoveAhead<K(!new)>(lists: Lists<K>, p: seq<nat>, seen: seq<K>, id: K, less: (K, K) -> bool)
    requires Strict(less) && AllAscend(lists, less) && Standing(lists, p, seen, less) && Smallest(lists, p, id, less)
    ensures Positions(lists, Moved(lists, p, id))
    ensures Ahead(lists, Moved(lists, p, id), seen + [id], less)
  {
    var p' := Moved(lists, p, id);
    var seen' := seen + [id];
    forall i, k, j | Left(i, k) && i < |p'| && p'[i] <= k < |lists[i]| && 0 <= j < |seen'|
      ensures lists[i][k].id != seen'[j] && !less(lists[i][k].id, seen'[j])
    {
      if j < |seen| {
        assert seen'[j] == seen[j] && p[i] <= k;
      } else {
        RestIsAfter(lists, p, id, less, i, k);
      }
    }
  }

  /** Merging the smallest head keeps the standing: nothing is skipped, nothing
      repeats, nothing goes backwards. */
  lemma MoveStands<K(!new)>(lists: Lists<K>, p: seq<nat>, seen: seq<K>, id: K, less: (K, K) -> bool)
    requires Strict(less) && AllAscend(lists, less) && Standing(lists, p, seen, less) && Smallest(lists, p, id, less)
    ensures Standing(lists, Moved(lists, p, id), seen + [id], less)
    ensures id !in seen
  {
    var p' := Moved(lists, p, id);
    var seen' := seen + [id];
    MoveAhead(lists, p, seen, id, less);
    var h :| 0 <= h < |p| && HeadIs(lists, p, h, id);
    assert forall j | 0 <= j < |seen| :: id != seen[j] && !less(id, seen[j]) by {
      assert Left(h, p[h]);
    }
    assert Past(lists, p', seen') by {
      forall i, k | 0 <= i < |p'| && 0 <= k < p'[i]
        ensures lists[i][k].id in seen'
      {
        if k < p[i] { assert lists[i][k].id in seen; } else { assert seen'[|seen|] == id; }
      }
    }
    forall j | 0 <= j < |seen'|
      ensures Merged(lists, p', seen'[j])
    {
      if j == |seen| {
        assert p'[h] == p[h] + 1 && lists[h][p[h]].id == id;
      } else {
        assert Merged(lists, p, seen[j]);
        var i, k :| 0 <= i < |p| && 0 <= k < p[i] && lists[i][k].id == seen[j];
        assert k < p'[i];
      }
    }
  }

  /** At the smallest head, each list's record for it is its head or missing. */
  lemma HeadIsLookup<K(!new)>(lists: Lists<K>, p: seq<nat>, seen: seq<K>, id: K, less: (K, K) -> bool, i: nat)
    requires Strict(less) && AllAscend(lists, less) && Standing(lists, p, seen, less) && Smallest(lists, p, id, less)
    requires i < |p|
    ensures Lookup(lists[i], id) == if HeadIs(lists, p, i, id) then Some(lists[i][p[i]].data) else None
  {
    if HeadIs(lists, p, i, id) {
      LookupHit(lists[i], less, p[i]);
    } else {
      MoveStands(lists, p, seen, id, less);
      forall k | 0 <= k < |lists[i]|
        ensures lists[i][k].id != id
      {
        if k >= p[i] {
          RestIsAfter(lists, p, id, less, i, k);
        } else {
          assert lists[i][k].id in seen;
        }
      }
      LookupMiss(lists[i], id);
    }
  }

  /** Every id less than the smallest head has been merged, and nothing merged is
      greater than it. */
  lemma SmallestSplits<K(!new)>(lists: Lists<K>, p: seq<nat>, seen: seq<K>, id: K, less: (K, K) -> bool)
    requires Strict(less) && AllAscend(lists, less) && Standing(lists, p, seen, less) && Smallest(lists, p, id, less)
    ensures forall i, z | 0 <= i < |lists| && Has(lists[i], z) && less(z, id) :: z in seen
    ensures forall z | z in seen :: z != id && !less(id, z)
    ensures exists i :: 0 <= i < |lists| && Has(lists[i], id)
  {
    forall i, z | 0 <= i < |lists| && Has(lists[i], z) && less(z, id)
      ensures z in seen
    {
      var k :| 0 <= k < |lists[i]| && lists[i][k].id == z;
      if k >= p[i] {
        RestIsAfter(lists, p, id, less, i, k);
      }
    }
    var h :| 0 <= h < |p| && HeadIs(lists, p, h, id);
    assert Left(h, p[h]);
    assert lists[h][p[h]].id == id;
    assert Has(lists[h], id);
  }

  /** When every list is merged to the end, the ids merged are the union. */
  lemma DoneIsUnion<K(!new)>(lists: Lists<K>, p: seq<nat>, seen: seq<K>, less: (K, K) -> bool)
    requires Standing(lists, p, seen, less)
    requires forall i | 0 <= i < |p| :: p[i] == |lists[i]|
    ensures forall z :: z in seen <==> exists i :: 0 <= i < |lists| && Has(lists[i], z)
  {
    forall z
      ensures z in seen <==> exists i :: 0 <= i < |lists| && Has(lists[i], z)
    {
      if z in seen {
        var j :| 0 <= j < |seen| && seen[j] == z;
        assert Merged(lists, p, seen[j]);
        var i, k :| 0 <= i < |p| && 0 <= k < p[i] && lists[i][k].id == z;
        assert Has(lists[i], z);
      }
      if i :| 0 <= i < |lists| && Has(lists[i], z) {
        var k :| 0 <= k < |lists[i]| && lists[i][k].id == z;
        assert lists[i][k].id in seen;
      }
    }
  }
}
