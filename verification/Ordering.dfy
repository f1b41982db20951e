/** Sequences the way the adapters use them: the stable sort behind Go's
    sort.Strings, sort.Slice and sort.SliceStable, filtering, and the byte-wise
    order on strings. The library routines are modelled by what they promise: a
    stable, sorted rearrangement. */
module Ordering {

  datatype Option<+T> = None | Some(value: T)

  datatype Result<+T, +E> = Ok(value: T) | Err(error: E)

  /** less is a strict weak order on the elements of xs. */
  ghost predicate WeakOn<T(!new)>(less: (T, T) -> bool, xs: seq<T>) {
    && (forall x {:trigger less(x, x)} | x in xs :: !less(x, x))
    && (forall x, y, z {:trigger less(x, y), less(y, z)} |
        x in xs && y in xs && z in xs && less(x, y) && less(y, z) :: less(x, z))
    && (forall x, y, z {:trigger less(x, y), less(x, z)} {:trigger less(y, z), less(x, z)} |
        x in xs && y in xs && z in xs && less(x, z) :: less(x, y) || less(y, z))
  }

  /** less is a strict total order on the elements of xs. */
  ghost predicate TotalOn<T(!new)>(less: (T, T) -> bool, xs: seq<T>) {
    && WeakOn(less, xs)
    && (forall x, y {:trigger less(x, y)} | x in xs && y in xs && x != y :: less(x, y) || less(y, x))
  }

  /** No element is smaller than one before it. */
  ghost predicate Sorted<T(!new)>(less: (T, T) -> bool, s: seq<T>) {
    forall i, j | 0 <= i < j < |s| :: !less(s[j], s[i])
  }

  ghost predicate StrictlyAscending<T(!new)>(less: (T, T) -> bool, s: seq<T>) {
    forall i, j | 0 <= i < j < |s| :: less(s[i], s[j])
  }

  function Insert<T>(x: T, s: seq<T>, less: (T, T) -> bool): seq<T> {
    if s == [] then [x]
    else if less(s[0], x) then [s[0]] + Insert(x, s[1..], less)
    else [x] + s
  }

  /** A stable sort. */
  function SortBy<T>(s: seq<T>, less: (T, T) -> bool): seq<T> {
    if s == [] then [] else Insert(s[0], SortBy(s[1..], less), less)
  }

  function Filter<T>(s: seq<T>, keep: T -> bool): (r: seq<T>)
    ensures forall x | x in r :: x in s && keep(x)
    ensures forall x | x in s && keep(x) :: x in r
    ensures |r| <= |s|
  {
    if s == [] then [] else (if keep(s[0]) then [s[0]] else []) + Filter(s[1..], keep)
  }

  function Map<S, T>(s: seq<S>, f: S -> T): (r: seq<T>)
    ensures |r| == |s| && forall i | 0 <= i < |s| :: r[i] == f(s[i])
  {
    seq(|s|, i requires 0 <= i < |s| => f(s[i]))
  }

  // ---- Sorting ------------------------------------------------------------

  lemma {:induction false} InsertIsPermutation<T(!new)>(x: T, s: seq<T>, less: (T, T) -> bool)
    ensures multiset(Insert(x, s, less)) == multiset{x} + multiset(s)
  {
    if s != [] {
      assert s == [s[0]] + s[1..];
      if less(s[0], x) {
        InsertIsPermutation(x, s[1..], less);
      }
    }
  }

  lemma {:induction false} SortIsPermutation<T(!new)>(s: seq<T>, less: (T, T) -> bool)
    ensures multiset(SortBy(s, less)) == multiset(s)
    ensures |SortBy(s, less)| == |s|
    ensures forall x :: x in SortBy(s, less) <==> x in s
  {
    if s != [] {
      assert s == [s[0]] + s[1..];
      SortIsPermutation(s[1..], less);
      InsertIsPermutation(s[0], SortBy(s[1..], less), less);
    }
    SamePopulation(SortBy(s, less), s);
  }

  lemma SamePopulation<T(!new)>(a: seq<T>, b: seq<T>)
    requires multiset(a) == multiset(b)
    ensures |a| == |b|
    ensures forall x :: x in a <==> x in b
  {
    assert |multiset(a)| == |a| && |multiset(b)| == |b|;
    forall x
      ensures x in a <==> x in b
    {
      assert x in a <==> x in multiset(a);
      assert x in b <==> x in multiset(b);
    }
  }

  /** The elements of s all lie in dom. */
  ghost predicate Within<T(!new)>(s: seq<T>, dom: seq<T>) {
    forall i | 0 <= i < |s| :: s[i] in dom
  }

  lemma {:induction false} InsertKeepsSorted<T(!new)>(x: T, s: seq<T>, less: (T, T) -> bool, dom: seq<T>)
    requires WeakOn(less, dom) && x in dom && Within(s, dom)
    requires Sorted(less, s)
    ensures Sorted(less, Insert(x, s, less))
  {
    if s != [] && less(s[0], x) {
      var rest := Insert(x, s[1..], less);
      InsertKeepsSorted(x, s[1..], less, dom);
      forall j | 0 <= j < |rest|
        ensures !less(rest[j], s[0])
      {
        InsertElements(x, s[1..], less, j);
        assert s[0] in dom && rest[j] in dom;
      }
    } else if s != [] {
      forall j | 0 <= j < |s|
        ensures !less(s[j], x)
      {
        assert s[0] in dom && s[j] in dom;
        assert j > 0 ==> !less(s[j], s[0]);
      }
    }
  }

  lemma {:induction false} InsertElements<T(!new)>(x: T, s: seq<T>, less: (T, T) -> bool, j: nat)
    requires j < |Insert(x, s, less)|
    ensures Insert(x, s, less)[j] == x || exists i :: 0 <= i < |s| && s[i] == Insert(x, s, less)[j]
  {
    if s != [] && less(s[0], x) && j > 0 {
      InsertElements(x, s[1..], less, j - 1);
      if Insert(x, s, less)[j] != x {
        var i :| 0 <= i < |s[1..]| && s[1..][i] == Insert(x, s[1..], less)[j - 1];
        assert s[i + 1] == Insert(x, s, less)[j];
      }
    } else if s != [] && !less(s[0], x) && j > 0 {
      assert Insert(x, s, less)[j] == s[j - 1];
    } else if s != [] && less(s[0], x) {
      assert Insert(x, s, less)[j] == s[0];
    }
  }

  lemma SortSorts<T(!new)>(s: seq<T>, less: (T, T) -> bool)
    requires WeakOn(less, s)
    ensures Sorted(less, SortBy(s, less))
  {
    SortSortsWithin(s, less, s);
  }

  lemma {:induction false} SortSortsWithin<T(!new)>(s: seq<T>, less: (T, T) -> bool, dom: seq<T>)
    requires WeakOn(less, dom) && Within(s, dom)
    ensures Sorted(less, SortBy(s, less)) && Within(SortBy(s, less), dom)
  {
    if s != [] {
      SortSortsWithin(s[1..], less, dom);
      InsertKeepsSorted(s[0], SortBy(s[1..], less), less, dom);
    }
    var r := SortBy(s, less);
    forall i | 0 <= i < |r|
      ensures r[i] in dom
    {
      SortIsPermutation(s, less);
      assert r[i] in r;
      assert r[i] in s;
      var k :| 0 <= k < |s| && s[k] == r[i];
    }
  }

  /** A sorted sequence over a strict total order is determined by its elements. */
  lemma {:induction false} SortedUnique<T(!new)>(a: seq<T>, b: seq<T>, less: (T, T) -> bool, dom: seq<T>)
    requires multiset(a) == multiset(b)
    requires TotalOn(less, dom) && Within(a, dom)
    requires Sorted(less, a) && Sorted(less, b)
    ensures a == b
  {
    SamePopulation(a, b);
    if a != [] {
      SameHead(a, b, less, dom);
      TailMultiset(a);
      TailMultiset(b);
      SortedUnique(a[1..], b[1..], less, dom);
      assert a == [a[0]] + a[1..] && b == [b[0]] + b[1..];
    }
  }

  lemma TailMultiset<T(!new)>(a: seq<T>)
    requires a != []
    ensures multiset(a[1..]) == multiset(a) - multiset{a[0]}
  {
    assert a == [a[0]] + a[1..];
  }

  lemma SameHead<T(!new)>(a: seq<T>, b: seq<T>, less: (T, T) -> bool, dom: seq<T>)
    requires a != [] && |a| == |b|
    requires forall x :: x in a <==> x in b
    requires TotalOn(less, dom) && Within(a, dom)
    requires Sorted(less, a) && Sorted(less, b)
    ensures a[0] == b[0]
  {
    assert a[0] in b && b[0] in a;
    var i :| 0 <= i < |b| && b[i] == a[0];
    var j :| 0 <= j < |a| && a[j] == b[0];
    assert a[0] in dom && a[j] in dom;
    assert less(a[j], a[0]) || less(a[0], a[j]) || a[0] == a[j];
  }

  /** Sorting forgets the order its input came in. */
  lemma SortForgetsOrder<T(!new)>(a: seq<T>, b: seq<T>, less: (T, T) -> bool)
    requires multiset(a) == multiset(b)
    requires TotalOn(less, a)
    ensures SortBy(a, less) == SortBy(b, less)
  {
    assert Within(b, a) by { SamePopulation(a, b); }
    SortIsPermutation(a, less);
    SortIsPermutation(b, less);
    SortSortsWithin(a, less, a);
    SortSortsWithin(b, less, a);
    SortedUnique(SortBy(a, less), SortBy(b, less), less, a);
  }

  ghost predicate Distinct<T(!new)>(s: seq<T>) {
    forall i, j | 0 <= i < j < |s| :: s[i] != s[j]
  }

  /** Distinct elements come out distinct. */
  lemma PermutedDistinct<T(!new)>(a: seq<T>, b: seq<T>)
    requires multiset(a) == multiset(b) && Distinct(a)
    ensures Distinct(b)
  {
    forall i, j | 0 <= i < j < |b|
      ensures b[i] != b[j]
    {
      if b[i] == b[j] {
        RepeatCounts(b, i, j);
        MultisetOfDistinct(a, b[i]);
      }
    }
  }

  lemma RepeatCounts<T(!new)>(s: seq<T>, i: nat, j: nat)
    requires i < j < |s| && s[i] == s[j]
    ensures multiset(s)[s[i]] >= 2
  {
    assert s == s[..j] + s[j..] && s[..j][i] == s[i] && s[j..][0] == s[i];
    assert s[i] in multiset(s[..j]) && s[i] in multiset(s[j..]);
  }

  lemma {:induction false} MultisetOfDistinct<T(!new)>(s: seq<T>, x: T)
    requires Distinct(s)
    ensures multiset(s)[x] <= 1
  {
    if s != [] {
      MultisetOfDistinct(s[1..], x);
      assert s == [s[0]] + s[1..];
      assert s[0] !in s[1..];
    }
  }

  /** Sorting distinct elements by a total order gives a strictly ascending sequence. */
  lemma SortDistinct<T(!new)>(s: seq<T>, less: (T, T) -> bool)
    requires TotalOn(less, s) && Distinct(s)
    ensures StrictlyAscending(less, SortBy(s, less))
  {
    var r := SortBy(s, less);
    SortIsPermutation(s, less);
    SortSortsWithin(s, less, s);
    PermutedDistinct(s, r);
    forall i, j | 0 <= i < j < |r|
      ensures less(r[i], r[j])
    {
      var x, y := r[i], r[j];
      assert x in s && y in s && x != y;
      assert !less(y, x) ==> less(x, y);
    }
  }

  /** Two elements tie when neither is smaller. */
  predicate Tie<T>(less: (T, T) -> bool, x: T, y: T) {
    !less(x, y) && !less(y, x)
  }

  /** Stability: the elements that tie with x keep their relative order. */
  lemma {:induction false} SortIsStable<T(!new)>(s: seq<T>, less: (T, T) -> bool, x: T, dom: seq<T>)
    requires WeakOn(less, dom) && x in dom && Within(s, dom)
    ensures Filter(SortBy(s, less), y => Tie(less, x, y)) == Filter(s, y => Tie(less, x, y))
  {
    if s != [] {
      var ties := y => Tie(less, x, y);
      SortIsStable(s[1..], less, x, dom);
      SortSortsWithin(s[1..], less, dom);
      forall a, b | a in dom && b in dom && less(a, b)
        ensures !(ties(a) && ties(b))
      {
        OrderedDoNotBothTie(a, b, less, x, dom);
      }
      InsertIsStable(s[0], SortBy(s[1..], less), less, dom, ties);
    }
  }

  lemma {:induction false} InsertIsStable<T(!new)>(e: T, s: seq<T>, less: (T, T) -> bool, dom: seq<T>, ties: T -> bool)
    requires e in dom && Within(s, dom)
    requires forall a, b {:trigger less(a, b)} | a in dom && b in dom && less(a, b) :: !(ties(a) && ties(b))
    ensures Filter(Insert(e, s, less), ties) == (if ties(e) then [e] else []) + Filter(s, ties)
  {
    if s != [] && less(s[0], e) {
      InsertIsStable(e, s[1..], less, dom, ties);
      assert s[0] in dom;
      FilterPastHead(s[0], e, Insert(e, s[1..], less), s[1..], ties);
      assert s == [s[0]] + s[1..];
    } else {
      FilterConcat([e], s, ties);
      assert Insert(e, s, less) == [e] + s;
    }
  }

  lemma FilterHead<T>(head: T, rest: seq<T>, keep: T -> bool)
    ensures Filter([head] + rest, keep) == if keep(head) then [head] + Filter(rest, keep) else Filter(rest, keep)
  {
    assert ([head] + rest)[1..] == rest;
  }

  lemma FilterPastHead<T(!new)>(head: T, e: T, inserted: seq<T>, rest: seq<T>, ties: T -> bool)
    requires Filter(inserted, ties) == (if ties(e) then [e] else []) + Filter(rest, ties)
    requires !(ties(head) && ties(e))
    ensures Filter([head] + inserted, ties) == (if ties(e) then [e] else []) + Filter([head] + rest, ties)
  {
    FilterHead(head, inserted, ties);
    FilterHead(head, rest, ties);
    if ties(head) {
      assert Filter(inserted, ties) == Filter(rest, ties);
    }
  }

  lemma OrderedDoNotBothTie<T(!new)>(a: T, b: T, less: (T, T) -> bool, x: T, dom: seq<T>)
    requires WeakOn(less, dom) && a in dom && b in dom && x in dom && less(a, b)
    ensures !(Tie(less, x, a) && Tie(less, x, b))
  {
    assert less(a, x) || less(x, b);
  }

  /** Sorting puts the one least element first. */
  lemma HeadIsLeast<T(!new)>(s: seq<T>, less: (T, T) -> bool)
    requires TotalOn(less, s)
    ensures SortBy(s, less) == [] <==> s == []
    ensures s != [] ==> SortBy(s, less)[0] in s && forall d | d in s && d != SortBy(s, less)[0] :: less(SortBy(s, less)[0], d)
  {
    var r := SortBy(s, less);
    SortIsPermutation(s, less);
    SortSorts(s, less);
    if s != [] {
      assert r[0] in r;
      forall d | d in s && d != r[0]
        ensures less(r[0], d)
      {
        assert d in r;
        var i :| 0 <= i < |r| && r[i] == d;
        assert !less(r[i], r[0]);
      }
    }
  }

  /** Nothing that holds a cycle can be sorted. */
  lemma CycleIsUnsorted<T(!new)>(s: seq<T>, less: (T, T) -> bool, a: T, b: T, c: T)
    requires a in s && b in s && c in s
    requires less(a, b) && less(b, c) && less(c, a) && a != b && b != c && a != c
    ensures !Sorted(less, s)
  {
    var i, j, k :| 0 <= i < |s| && 0 <= j < |s| && 0 <= k < |s| && s[i] == a && s[j] == b && s[k] == c;
  }

  /** In a sorted arrangement, everything in a prefix comes before everything left
      out of it. */
  lemma PrefixIsSmallest<T(!new)>(s: seq<T>, less: (T, T) -> bool, n: nat, a: T, b: T)
    requires TotalOn(less, s) && n <= |SortBy(s, less)|
    requires a in SortBy(s, less)[..n] && b in s && b !in SortBy(s, less)[..n]
    ensures less(a, b)
  {
    var r := SortBy(s, less);
    SortIsPermutation(s, less);
    SortSorts(s, less);
    var i :| 0 <= i < n && r[..n][i] == a;
    assert b in r;
    var j :| 0 <= j < |r| && r[j] == b;
    assert forall m | 0 <= m < n :: r[..n][m] in r[..n] && r[..n][m] == r[m];
    assert r[i] == a && a in s;
    assert i < j && !less(r[j], r[i]);
  }

  // ---- Filtering ----------------------------------------------------------

  lemma {:induction false} FilterConcat<T(!new)>(a: seq<T>, b: seq<T>, keep: T -> bool)
    ensures Filter(a + b, keep) == Filter(a, keep) + Filter(b, keep)
  {
    if a == [] {
      assert a + b == b;
    } else {
      assert (a + b)[1..] == a[1..] + b;
      FilterConcat(a[1..], b, keep);
    }
  }

  lemma FilterOne<T>(x: T, keep: T -> bool)
    ensures Filter([x], keep) == if keep(x) then [x] else []
  {
    assert [x][1..] == [];
  }

  lemma {:induction false} FilterNone<T(!new)>(s: seq<T>, keep: T -> bool)
    requires forall x | x in s :: !keep(x)
    ensures Filter(s, keep) == []
  {
    if s != [] {
      FilterNone(s[1..], keep);
    }
  }

  /** Filtering one more element at the end. */
  lemma FilterSnoc<T(!new)>(s: seq<T>, x: T, keep: T -> bool)
    ensures keep(x) ==> Filter(s + [x], keep) == Filter(s, keep) + [x]
    ensures !keep(x) ==> Filter(s + [x], keep) == Filter(s, keep)
  {
    FilterConcat(s, [x], keep);
    FilterOne(x, keep);
  }

  lemma {:induction false} FilterMultiset<T(!new)>(s: seq<T>, keep: T -> bool, x: T)
    ensures multiset(Filter(s, keep))[x] == if keep(x) then multiset(s)[x] else 0
  {
    if s != [] {
      assert s == [s[0]] + s[1..];
      FilterMultiset(s[1..], keep, x);
    }
  }

  lemma FilterPermutation<T(!new)>(a: seq<T>, b: seq<T>, keep: T -> bool)
    requires multiset(a) == multiset(b)
    ensures multiset(Filter(a, keep)) == multiset(Filter(b, keep))
  {
    forall x
      ensures multiset(Filter(a, keep))[x] == multiset(Filter(b, keep))[x]
    {
      FilterMultiset(a, keep, x);
      FilterMultiset(b, keep, x);
    }
  }

  lemma {:induction false} FilterPointwise<T(!new)>(s: seq<T>, p: T -> bool, q: T -> bool)
    requires forall x | x in s :: p(x) == q(x)
    ensures Filter(s, p) == Filter(s, q)
  {
    if s != [] {
      FilterPointwise(s[1..], p, q);
    }
  }

  lemma {:induction false} FilterAscending<T(!new)>(s: seq<T>, keep: T -> bool, less: (T, T) -> bool)
    requires StrictlyAscending(less, s)
    ensures StrictlyAscending(less, Filter(s, keep))
  {
    if s != [] {
      var rest := Filter(s[1..], keep);
      FilterAscending(s[1..], keep, less);
      forall j | 0 <= j < |rest|
        ensures less(s[0], rest[j])
      {
        assert rest[j] in rest;
      }
    }
  }

  lemma SameEmpty<T(!new)>(a: seq<T>, b: seq<T>)
    requires forall x :: x in a <==> x in b
    ensures a == [] <==> b == []
  {
    if a != [] {
      assert a[0] in b;
    }
    if b != [] {
      assert b[0] in a;
    }
  }

  /** A strictly ascending sequence is determined by its set of elements. */
  lemma {:induction false} AscendingUnique<T(!new)>(a: seq<T>, b: seq<T>, less: (T, T) -> bool)
    requires TotalOn(less, a)
    requires forall x :: x in a <==> x in b
    requires StrictlyAscending(less, a) && StrictlyAscending(less, b)
    ensures a == b
  {
    SameEmpty(a, b);
    if a != [] {
      assert a[0] in b && b[0] in a;
      var i :| 0 <= i < |b| && b[i] == a[0];
      var j :| 0 <= j < |a| && a[j] == b[0];
      assert i == 0;
      TailElements(a, less);
      assert TotalOn(less, b);
      TailElements(b, less);
      assert TotalOn(less, a[1..]);
      AscendingUnique(a[1..], b[1..], less);
    }
  }

  lemma TailElements<T(!new)>(a: seq<T>, less: (T, T) -> bool)
    requires a != [] && TotalOn(less, a) && StrictlyAscending(less, a)
    ensures forall x :: x in a[1..] <==> x in a && x != a[0]
  {
    forall x
      ensures x in a[1..] <==> x in a && x != a[0]
    {
      assert a == [a[0]] + a[1..];
      if x in a[1..] {
        var k :| 0 <= k < |a[1..]| && a[1..][k] == x;
        assert less(a[0], a[k + 1]) && !less(a[0], a[0]);
      }
    }
  }

  // ---- Strings ------------------------------------------------------------

  /** Go's < on strings. */
  predicate StrLess(a: string, b: string) {
    b != [] && (a == [] || a[0] < b[0] || (a[0] == b[0] && StrLess(a[1..], b[1..])))
  }

  /** a and b are the same up to n, where a ends or has the smaller character. */
  predicate DiffersAt(a: string, b: string, n: nat) {
    n <= |a| && n < |b| && a[..n] == b[..n] && (n == |a| || a[n] < b[n])
  }

  /** The order of two strings is decided where they first differ. */
  lemma {:induction false} StrLessIff(a: string, b: string)
    ensures StrLess(a, b) <==> exists n: nat :: DiffersAt(a, b, n)
  {
    if a == [] || b == [] || a[0] != b[0] {
      assert StrLess(a, b) ==> DiffersAt(a, b, 0);
    } else {
      StrLessIff(a[1..], b[1..]);
      if n: nat :| DiffersAt(a[1..], b[1..], n) {
        assert a[..n + 1] == [a[0]] + a[1..][..n] && b[..n + 1] == [b[0]] + b[1..][..n];
        assert DiffersAt(a, b, n + 1);
      }
      if n: nat :| DiffersAt(a, b, n) {
        assert a[1..][..n - 1] == a[..n][1..] && b[1..][..n - 1] == b[..n][1..];
        assert DiffersAt(a[1..], b[1..], n - 1);
      }
    }
  }

  lemma {:induction false} StrLessTransitive(a: string, b: string, c: string)
    requires StrLess(a, b) && StrLess(b, c)
    ensures StrLess(a, c)
  {
    if a != [] && a[0] == b[0] && b[0] == c[0] {
      StrLessTransitive(a[1..], b[1..], c[1..]);
    }
  }

  lemma {:induction false} StrLessTotal(a: string, b: string)
    ensures StrLess(a, b) || StrLess(b, a) || a == b
    ensures !(StrLess(a, b) && StrLess(b, a))
    ensures !StrLess(a, a)
  {
    if a != [] && b != [] && a[0] == b[0] {
      StrLessTotal(a[1..], b[1..]);
      assert a == [a[0]] + a[1..] && b == [b[0]] + b[1..];
    }
    if a != [] {
      StrLessTotal(a[1..], a[1..]);
    }
  }

  lemma StrLessIsTotal(s: seq<string>)
    ensures TotalOn(StrLess, s)
  {
    forall x, y
      ensures StrLess(x, y) || StrLess(y, x) || x == y
      ensures !(StrLess(x, y) && StrLess(y, x)) && !StrLess(x, x)
    {
      StrLessTotal(x, y);
    }
    forall x, y, z | StrLess(x, y) && StrLess(y, z)
      ensures StrLess(x, z)
    {
      StrLessTransitive(x, y, z);
    }
  }

  // ---- Sets of strings in order -----------------------------------------------

  ghost function Enumerate(s: set<string>): seq<string> {
    if s == {} then []
    else
      var x :| x in s;
      [x] + Enumerate(s - {x})
  }

  /** The ids of s in ascending order. */
  ghost function SortedIds(s: set<string>): seq<string> {
    SortBy(Enumerate(s), StrLess)
  }

  lemma {:induction false} EnumerateElements(s: set<string>)
    ensures forall x :: x in Enumerate(s) <==> x in s
    ensures Distinct(Enumerate(s))
  {
    if s != {} {
      var e := Enumerate(s);
      EnumerateElements(s - {e[0]});
      assert e[1..] == Enumerate(s - {e[0]});
      assert forall i | 0 < i < |e| :: e[i] in e[1..];
      forall x
        ensures x in e <==> x in s
      {
        assert x in e <==> x == e[0] || x in e[1..];
      }
    }
  }

  lemma SortedIdsAscend(s: set<string>)
    ensures StrictlyAscending(StrLess, SortedIds(s))
    ensures forall x :: x in SortedIds(s) <==> x in s
  {
    EnumerateElements(s);
    StrLessIsTotal(Enumerate(s));
    SortDistinct(Enumerate(s), StrLess);
    SortIsPermutation(Enumerate(s), StrLess);
  }

  /** Any ascending list of exactly the ids in s is SortedIds(s). */
  lemma SortedIdsUnique(s: set<string>, ids: seq<string>)
    requires StrictlyAscending(StrLess, ids)
    requires forall x :: x in ids <==> x in s
    ensures ids == SortedIds(s)
  {
    SortedIdsAscend(s);
    StrLessIsTotal(ids);
    AscendingUnique(ids, SortedIds(s), StrLess);
  }
}
