/** Stable sorting by a comparator that leaves ties, and what of it depends on the
    order of the input. */
module Ties {
  import opened Ordering
  import opened Contests

  /** Sorting only looks at what the comparator looks at. */
  lemma {:induction false} InsertMaps<S, T>(x: S, p: seq<S>, f: S -> T, less: (S, S) -> bool, less': (T, T) -> bool)
    requires forall i | 0 <= i < |p| :: less'(f(p[i]), f(x)) == less(p[i], x)
    ensures Insert(f(x), Map(p, f), less') == Map(Insert(x, p, less), f)
  {
    var m := Map(p, f);
    if p == [] {
      assert m == [];
    } else if less(p[0], x) {
      assert m[1..] == Map(p[1..], f);
      InsertMaps(x, p[1..], f, less, less');
      assert Map([p[0]] + Insert(x, p[1..], less), f) == [f(p[0])] + Map(Insert(x, p[1..], less), f);
    } else {
      assert Map([x] + p, f) == [f(x)] + m;
    }
  }

  lemma {:induction false} SortMaps<S(!new), T>(p: seq<S>, f: S -> T, less: (S, S) -> bool, less': (T, T) -> bool)
    requires forall x, y {:trigger less(x, y)} | x in p && y in p :: less'(f(x), f(y)) == less(x, y)
    ensures SortBy(Map(p, f), less') == Map(SortBy(p, less), f)
  {
    if p == [] {
      assert Map(p, f) == [];
    } else {
      assert Map(p, f)[1..] == Map(p[1..], f);
      assert forall x | x in p[1..] :: x in p;
      SortMaps(p[1..], f, less, less');
      var rest := SortBy(p[1..], less);
      SortIsPermutation(p[1..], less);
      forall i | 0 <= i < |rest|
        ensures less'(f(rest[i]), f(p[0])) == less(rest[i], p[0])
      {
        assert rest[i] in rest && rest[i] in p[1..];
        assert rest[i] in p && p[0] in p;
      }
      InsertMaps(p[0], rest, f, less, less');
    }
  }

  // ---- Ranks ------------------------------------------------------------------------

  function FirstElements<T(==)>(p: seq<T>, n: nat): set<T>
    requires n <= |p|
  {
    set i | 0 <= i < n :: p[i]
  }

  lemma {:induction false} FirstElementsCount<T(!new)>(p: seq<T>, n: nat)
    requires n <= |p| && Distinct(p)
    ensures |FirstElements(p, n)| == n
  {
    if n > 0 {
      FirstElementsCount(p, n - 1);
      assert p[n - 1] !in FirstElements(p, n - 1);
      assert FirstElements(p, n) == FirstElements(p, n - 1) + {p[n - 1]};
    }
  }

  lemma SmallerIsBefore<T(!new)>(less: (T, T) -> bool, b: seq<T>, i: nat, x: T)
    requires Sorted(less, b) && i < |b| && x in b && less(x, b[i]) && !less(b[i], b[i])
    ensures x in FirstElements(b, i)
  {
    forall k | i <= k < |b|
      ensures b[k] != x
    {
      assert k == i || !less(b[k], b[i]);
    }
  }

  /** Two sorted arrangements of one set agree, place by place, up to ties. */
  lemma NotBelow<T(!new)>(less: (T, T) -> bool, s: set<T>, dom: seq<T>, a: seq<T>, b: seq<T>, i: nat)
    requires WeakOn(less, dom) && Lists(dom, s) && Lists(a, s) && Lists(b, s) && Sorted(less, a) && Sorted(less, b)
    requires i < |a| == |b|
    ensures !less(a[i], b[i])
  {
    if less(a[i], b[i]) {
      forall x | x in FirstElements(a, i + 1)
        ensures x in FirstElements(b, i)
      {
        var k :| 0 <= k <= i && a[k] == x;
        assert a[k] in a && a[i] in a && b[i] in b;
        assert !less(a[i], a[k]) || k == i;
        assert x in dom && a[i] in dom && b[i] in dom;
        if k < i {
          assert less(a[i], b[i]) ==> less(a[i], x) || less(x, b[i]);
        }
        assert x in b;
        SmallerIsBefore(less, b, i, x);
      }
      FirstElementsCount(a, i + 1);
      FirstElementsCount(b, i);
      SubsetCount(FirstElements(a, i + 1), FirstElements(b, i));
      assert false;
    }
  }

  lemma {:induction false} SubsetCount<T(!new)>(x: set<T>, y: set<T>)
    requires x <= y
    ensures |x| <= |y|
  {
    if x != {} {
      var e :| e in x;
      SubsetCount(x - {e}, y - {e});
    }
  }

  lemma SameRank<T(!new)>(less: (T, T) -> bool, s: set<T>, p: seq<T>, q: seq<T>)
    requires WeakOn(less, p) && Lists(p, s) && Lists(q, s)
    ensures |SortBy(p, less)| == |SortBy(q, less)| == |s|
    ensures forall i | 0 <= i < |s| :: Tie(less, SortBy(p, less)[i], SortBy(q, less)[i])
    ensures forall i | 0 <= i < |s| :: SortBy(p, less)[i] in s && SortBy(q, less)[i] in s
  {
    var a, b := SortBy(p, less), SortBy(q, less);
    Arranged(less, s, p, p);
    Arranged(less, s, p, q);
    ListsCount(a, s);
    ListsCount(b, s);
    forall i | 0 <= i < |s|
      ensures Tie(less, a[i], b[i]) && a[i] in s && b[i] in s
    {
      NotBelow(less, s, p, a, b, i);
      NotBelow(less, s, p, b, a, i);
      assert a[i] in a && b[i] in b;
    }
  }

  lemma Arranged<T(!new)>(less: (T, T) -> bool, s: set<T>, dom: seq<T>, q: seq<T>)
    requires WeakOn(less, dom) && Lists(dom, s) && Lists(q, s)
    ensures Lists(SortBy(q, less), s) && Sorted(less, SortBy(q, less))
  {
    SortIsPermutation(q, less);
    SameLists(q, SortBy(q, less), s);
    assert Within(q, dom) by {
      assert forall i | 0 <= i < |q| :: q[i] in q;
    }
    SortSortsWithin(q, less, dom);
  }

  // ---- Ties -----------------------------------------------------------------------------

  /** What goes before x, and what it goes before. */
  ghost function Under<T(!new)>(less: (T, T) -> bool, s: set<T>, x: T): set<T> {
    set y | y in s && less(y, x)
  }

  ghost function Over<T(!new)>(less: (T, T) -> bool, s: set<T>, x: T): set<T> {
    set y | y in s && less(x, y)
  }

  /** x and the elements it ties with come to stand at some place from lo up to hi. */
  ghost predicate InWindow<T(!new)>(less: (T, T) -> bool, s: set<T>, x: T, lo: nat, hi: nat) {
    lo < hi && |Under(less, s, x)| < hi && lo + |Over(less, s, x)| < |s|
  }

  /** Elements the comparator leaves tied look the same, if the window shows any of them. */
  ghost predicate TiesAlike<T(!new), U(!new)>(less: (T, T) -> bool, s: set<T>, out: T -> U, lo: nat, hi: nat) {
    forall x, y {:trigger Tie(less, x, y)} | x in s && y in s && Tie(less, x, y) && InWindow(less, s, x, lo, hi) :: out(x) == out(y)
  }

  /** Whatever order s is listed in, the window on it looks the same sorted. */
  ghost predicate LooksOneWay<T(!new), U(!new)>(less: (T, T) -> bool, p: seq<T>, s: set<T>, out: T -> U, lo: nat, hi: nat)
    requires Lists(p, s) && lo <= hi <= |s|
  {
    forall q | Lists(q, s) :: Shows(less, q, s, out, lo, hi) == Shows(less, p, s, out, lo, hi)
  }

  ghost function Shows<T(!new), U(!new)>(less: (T, T) -> bool, q: seq<T>, s: set<T>, out: T -> U, lo: nat, hi: nat): seq<U>
    requires Lists(q, s) && lo <= hi <= |s|
  {
    SortedCount(less, q, s);
    Map(SortBy(q, less), out)[lo..hi]
  }

  lemma SortedCount<T(!new)>(less: (T, T) -> bool, q: seq<T>, s: set<T>)
    requires Lists(q, s)
    ensures |SortBy(q, less)| == |s|
  {
    SortIsPermutation(q, less);
    ListsCount(q, s);
  }

  /** The element at a place of a sorted arrangement has no more elements before it, and no
      more after it, than the place has. */
  lemma PlaceOf<T(!new)>(less: (T, T) -> bool, s: set<T>, dom: seq<T>, a: seq<T>, i: nat)
    requires WeakOn(less, dom) && Lists(dom, s) && Lists(a, s) && Sorted(less, a) && i < |a|
    ensures |a| == |s| && |Under(less, s, a[i])| <= i && i + |Over(less, s, a[i])| < |s|
  {
    ListsCount(a, s);
    FirstElementsCount(a, i);
    forall y | y in Under(less, s, a[i])
      ensures y in FirstElements(a, i)
    {
      assert a[i] in a && y in a;
      SmallerIsBefore(less, a, i, y);
    }
    SubsetCount(Under(less, s, a[i]), FirstElements(a, i));
    FirstElementsCount(a, i + 1);
    forall k | 0 <= k <= i
      ensures !less(a[i], a[k]) && a[k] in s
    {
      assert a[k] in a && a[i] in dom;
    }
    var first, over := FirstElements(a, i + 1), Over(less, s, a[i]);
    assert first <= s && over <= s && first !! over;
    SubsetCount(first + over, s);
  }

  /** Up to an element below x everything is below x; from one above x on, above. */
  lemma BelowUpTo<T(!new)>(less: (T, T) -> bool, dom: seq<T>, a: seq<T>, x: T, i: nat, k: nat)
    requires WeakOn(less, dom) && Within(a, dom) && x in dom && Sorted(less, a) && i <= k < |a|
    ensures less(a[k], x) ==> less(a[i], x)
    ensures less(x, a[i]) ==> less(x, a[k])
  {
    assert a[i] in dom && a[k] in dom;
    assert i < k ==> !less(a[k], a[i]);
  }

  lemma NotUnder<T(!new)>(less: (T, T) -> bool, s: set<T>, dom: seq<T>, a: seq<T>, x: T, k: nat)
    requires WeakOn(less, dom) && Within(a, dom) && x in dom && Lists(a, s) && Sorted(less, a)
    requires |Under(less, s, x)| <= k < |a|
    ensures !less(a[k], x)
  {
    if less(a[k], x) {
      FirstElementsCount(a, k + 1);
      forall y | y in FirstElements(a, k + 1)
        ensures y in Under(less, s, x)
      {
        var i :| 0 <= i <= k && a[i] == y;
        BelowUpTo(less, dom, a, x, i, k);
      }
      SubsetCount(FirstElements(a, k + 1), Under(less, s, x));
      assert false;
    }
  }

  lemma NotOver<T(!new)>(less: (T, T) -> bool, s: set<T>, dom: seq<T>, a: seq<T>, x: T, k: nat)
    requires WeakOn(less, dom) && Within(a, dom) && x in dom && Lists(a, s) && Sorted(less, a)
    requires k < |a| == |s| && k + |Over(less, s, x)| < |s|
    ensures !less(x, a[k])
  {
    if less(x, a[k]) {
      var first := FirstElements(a, k);
      FirstElementsCount(a, k);
      forall y | y in s - first
        ensures y in Over(less, s, x)
      {
        var i :| 0 <= i < |a| && a[i] == y;
        BelowUpTo(less, dom, a, x, k, i);
      }
      RestCount(first, s);
      SubsetCount(s - first, Over(less, s, x));
      assert false;
    }
  }

  lemma RestCount<T(!new)>(first: set<T>, s: set<T>)
    requires first <= s
    ensures |s - first| == |s| - |first|
  {
    assert (s - first) + first == s && (s - first) !! first;
  }

  /** Between the places its ties can take, every place holds one of them. */
  lemma PlaceTies<T(!new)>(less: (T, T) -> bool, s: set<T>, dom: seq<T>, a: seq<T>, x: T, k: nat)
    requires WeakOn(less, dom) && Lists(dom, s) && Lists(a, s) && Sorted(less, a) && x in s
    requires |Under(less, s, x)| <= k && k + |Over(less, s, x)| < |s|
    ensures k < |a| && a[k] in s && Tie(less, a[k], x)
  {
    ListsCount(a, s);
    assert a[k] in a;
    assert Within(a, dom) by {
      assert forall i | 0 <= i < |a| :: a[i] in a;
    }
    NotUnder(less, s, dom, a, x, k);
    NotOver(less, s, dom, a, x, k);
  }

  lemma RankTies<T(!new), U(!new)>(less: (T, T) -> bool, p: seq<T>, s: set<T>, out: T -> U, lo: nat, hi: nat, a: seq<T>, b: seq<T>, i: nat)
    requires WeakOn(less, p) && Lists(p, s) && Lists(a, s) && Sorted(less, a) && TiesAlike(less, s, out, lo, hi)
    requires lo <= i < hi && i < |a| && i < |b| && b[i] in s && Tie(less, a[i], b[i])
    ensures out(a[i]) == out(b[i])
  {
    PlaceOf(less, s, p, a, i);
    assert a[i] in a;
  }

  lemma AlikeLooksOneWay<T(!new), U(!new)>(less: (T, T) -> bool, p: seq<T>, s: set<T>, out: T -> U, lo: nat, hi: nat)
    requires WeakOn(less, p) && Lists(p, s) && lo <= hi <= |s| && TiesAlike(less, s, out, lo, hi)
    ensures LooksOneWay(less, p, s, out, lo, hi)
  {
    forall q | Lists(q, s)
      ensures Shows(less, q, s, out, lo, hi) == Shows(less, p, s, out, lo, hi)
    {
      SameRank(less, s, p, q);
      Arranged(less, s, p, p);
      var a, b := SortBy(p, less), SortBy(q, less);
      forall i | lo <= i < hi
        ensures out(a[i]) == out(b[i])
      {
        RankTies(less, p, s, out, lo, hi, a, b, i);
      }
    }
  }

  /** Swapping two tied elements of a sorted arrangement keeps it sorted. */
  lemma SwapTies<T(!new)>(less: (T, T) -> bool, s: set<T>, dom: seq<T>, a: seq<T>, j: nat, k: nat)
    requires WeakOn(less, dom) && Lists(dom, s) && Lists(a, s) && Sorted(less, a)
    requires j < |a| && k < |a| && Tie(less, a[j], a[k])
    ensures Lists(a[j := a[k]][k := a[j]], s) && Sorted(less, a[j := a[k]][k := a[j]])
  {
    var b := a[j := a[k]][k := a[j]];
    var at := (i: int) => if i == j then k else if i == k then j else i;
    assert forall i | 0 <= i < |a| :: b[i] == a[at(i)] && 0 <= at(i) < |a|;
    forall x
      ensures x in b <==> x in s
    {
      if x in a {
        var i :| 0 <= i < |a| && a[i] == x;
        assert b[at(i)] == x;
      }
    }
    forall i, i' | 0 <= i < i' < |b|
      ensures b[i] != b[i'] && !less(b[i'], b[i])
    {
      assert a[i] in dom && a[i'] in dom && a[j] in dom && a[k] in dom by {
        assert a[i] in a && a[i'] in a && a[j] in a && a[k] in a;
      }
    }
  }

  /** Another sorted arrangement that looks different at a place of the window. */
  lemma OtherArrangement<T(!new), U(!new)>(less: (T, T) -> bool, p: seq<T>, s: set<T>, out: T -> U, lo: nat, hi: nat, x: T, y: T, a: seq<T>)
      returns (b: seq<T>, k: nat)
    requires WeakOn(less, p) && Lists(p, s) && Lists(a, s) && Sorted(less, a) && lo <= hi <= |s|
    requires x in s && y in s && Tie(less, x, y) && out(x) != out(y) && InWindow(less, s, x, lo, hi)
    ensures Lists(b, s) && Sorted(less, b) && |a| == |b| == |s| && lo <= k < hi && out(a[k]) != out(b[k])
  {
    var under := |Under(less, s, x)|;
    k := if lo <= under then under else lo;
    UnderOver(less, s, p, x);
    PlaceTies(less, s, p, a, x, k);
    ListsCount(a, s);
    var z := if out(a[k]) == out(x) then y else x;
    assert z in a;
    var j :| 0 <= j < |a| && a[j] == z;
    assert a[k] in p && x in p && y in p;
    SwapTies(less, s, p, a, j, k);
    b := a[j := a[k]][k := a[j]];
  }

  lemma ShowsAt<T(!new), U(!new)>(less: (T, T) -> bool, a: seq<T>, s: set<T>, out: T -> U, lo: nat, hi: nat, k: nat)
    requires Lists(a, s) && Sorted(less, a) && lo <= k < hi <= |s|
    ensures |a| == |s| && |Shows(less, a, s, out, lo, hi)| == hi - lo && Shows(less, a, s, out, lo, hi)[k - lo] == out(a[k])
  {
    ListsCount(a, s);
    SortSteady(less, a);
  }

  lemma UnlikeShows<T(!new), U(!new)>(less: (T, T) -> bool, p: seq<T>, s: set<T>, out: T -> U, lo: nat, hi: nat, x: T, y: T)
    requires WeakOn(less, p) && Lists(p, s) && lo <= hi <= |s|
    requires x in s && y in s && Tie(less, x, y) && out(x) != out(y) && InWindow(less, s, x, lo, hi)
    ensures !LooksOneWay(less, p, s, out, lo, hi)
  {
    var a := SortBy(p, less);
    Arranged(less, s, p, p);
    var b, k := OtherArrangement(less, p, s, out, lo, hi, x, y, a);
    ShowsAt(less, a, s, out, lo, hi, k);
    ShowsAt(less, b, s, out, lo, hi, k);
    assert Shows(less, a, s, out, lo, hi) != Shows(less, b, s, out, lo, hi);
  }

  lemma UnderOver<T(!new)>(less: (T, T) -> bool, s: set<T>, dom: seq<T>, x: T)
    requires WeakOn(less, dom) && Lists(dom, s) && x in s
    ensures |Under(less, s, x)| + |Over(less, s, x)| < |s|
  {
    var under, over := Under(less, s, x), Over(less, s, x);
    assert under !! over && x !in under && x !in over && under + over + {x} <= s;
    SubsetCount(under + over + {x}, s);
  }

  lemma SortSteady<T(!new)>(less: (T, T) -> bool, a: seq<T>)
    requires Sorted(less, a)
    ensures SortBy(a, less) == a
  {
    SortLeavesSteps(a, less);
  }

  /** A stable sort makes a window look the same for every listing if and only if elements
      the comparator leaves tied look the same, those the window shows. */
  lemma LooksOneWayIff<T(!new), U(!new)>(less: (T, T) -> bool, p: seq<T>, s: set<T>, out: T -> U, lo: nat, hi: nat)
    requires WeakOn(less, p) && Lists(p, s) && lo <= hi <= |s|
    ensures LooksOneWay(less, p, s, out, lo, hi) <==> TiesAlike(less, s, out, lo, hi)
  {
    if TiesAlike(less, s, out, lo, hi) {
      AlikeLooksOneWay(less, p, s, out, lo, hi);
    } else {
      var x, y :| x in s && y in s && Tie(less, x, y) && InWindow(less, s, x, lo, hi) && out(x) != out(y);
      UnlikeShows(less, p, s, out, lo, hi, x, y);
    }
  }
}
