/** Sorting by a comparator that decides every pair but need not be transitive. */
module Contests {
  import opened Ordering

  /** Of any two elements of s exactly one goes first. */
  ghost predicate Contest<T(!new)>(less: (T, T) -> bool, s: set<T>) {
    && (forall x, y {:trigger less(x, y)} | x in s && y in s && less(x, y) :: !less(y, x))
    && (forall x, y {:trigger less(x, y)} | x in s && y in s && x != y :: less(x, y) || less(y, x))
  }

  /** p has every element of s once. */
  ghost predicate Lists<T(!new)>(p: seq<T>, s: set<T>) {
    Distinct(p) && forall x :: x in p <==> x in s
  }

  /** No element goes before the one just ahead of it: all that an insertion sort
      looks at. */
  ghost predicate Stepwise<T(!new)>(less: (T, T) -> bool, p: seq<T>) {
    forall i | 0 < i < |p| :: !less(p[i], p[i - 1])
  }

  /** x goes before every other element. */
  ghost predicate Leads<T(!new)>(less: (T, T) -> bool, x: T, s: set<T>) {
    x in s && forall y | y in s && y != x :: less(x, y)
  }

  /** n times over, some element goes before all that are left. */
  ghost predicate Decided<T(!new)>(less: (T, T) -> bool, s: set<T>, n: nat)
    decreases n
  {
    n == 0 || exists x :: Leads(less, x, s) && Decided(less, s - {x}, n - 1)
  }

  // ---- Listings ------------------------------------------------------------------

  lemma TailLists<T(!new)>(p: seq<T>, s: set<T>)
    requires Lists(p, s) && p != []
    ensures p[0] in s && Lists(p[1..], s - {p[0]})
  {
    assert p == [p[0]] + p[1..];
    assert forall i | 0 <= i < |p[1..]| :: p[1..][i] == p[i + 1];
  }

  lemma ConsLists<T(!new)>(x: T, p: seq<T>, s: set<T>)
    requires x in s && Lists(p, s - {x})
    ensures Lists([x] + p, s)
  {
    var q := [x] + p;
    forall i, j | 0 <= i < j < |q|
      ensures q[i] != q[j]
    {
      assert q[j] == p[j - 1] && q[j] in p;
    }
  }

  lemma {:induction false} ListsCount<T(!new)>(p: seq<T>, s: set<T>)
    requires Lists(p, s)
    ensures |p| == |s|
  {
    if p == [] {
      assert s == {};
    } else {
      TailLists(p, s);
      ListsCount(p[1..], s - {p[0]});
    }
  }

  lemma {:induction false} SomeListing<T(!new)>(s: set<T>) returns (p: seq<T>)
    ensures Lists(p, s)
    decreases |s|
  {
    if s == {} {
      p := [];
    } else {
      var x :| x in s;
      var rest := SomeListing(s - {x});
      ConsLists(x, rest, s);
      p := [x] + rest;
    }
  }

  lemma SameLists<T(!new)>(p: seq<T>, q: seq<T>, s: set<T>)
    requires Lists(p, s) && multiset(p) == multiset(q)
    ensures Lists(q, s)
  {
    PermutedDistinct(p, q);
    SamePopulation(p, q);
  }

  /** Listings of one set are permutations of each other. */
  lemma ListsPermute<T(!new)>(p: seq<T>, q: seq<T>, s: set<T>)
    requires Lists(p, s) && Lists(q, s)
    ensures multiset(p) == multiset(q)
  {
    forall x
      ensures multiset(p)[x] == multiset(q)[x]
    {
      MultisetOfDistinct(p, x);
      MultisetOfDistinct(q, x);
      assert x in multiset(p) <==> x in p;
      assert x in multiset(q) <==> x in q;
    }
  }

  // ---- Sorting --------------------------------------------------------------------

  lemma {:induction false} InsertSteps<T(!new)>(x: T, p: seq<T>, less: (T, T) -> bool, dom: set<T>)
    requires Contest(less, dom) && x in dom && (forall y | y in p :: y in dom) && Stepwise(less, p)
    ensures Stepwise(less, Insert(x, p, less))
    ensures Insert(x, p, less)[0] == x || (p != [] && Insert(x, p, less)[0] == p[0] && less(p[0], x))
  {
    if p != [] && less(p[0], x) {
      TailSteps(less, p);
      assert forall y | y in p[1..] :: y in p;
      InsertSteps(x, p[1..], less, dom);
      var rest := Insert(x, p[1..], less);
      assert p[0] in p && !less(x, p[0]);
      assert rest[0] == x || (|p| > 1 && rest[0] == p[1]);
      ConsSteps(less, p[0], rest);
    }
  }

  lemma TailSteps<T(!new)>(less: (T, T) -> bool, p: seq<T>)
    requires Stepwise(less, p) && p != []
    ensures Stepwise(less, p[1..])
  {
    assert forall i | 0 < i < |p[1..]| :: p[1..][i] == p[i + 1] && p[1..][i - 1] == p[i];
  }

  lemma ConsSteps<T(!new)>(less: (T, T) -> bool, x: T, rest: seq<T>)
    requires Stepwise(less, rest) && (rest != [] ==> !less(rest[0], x))
    ensures Stepwise(less, [x] + rest)
  {
    var r := [x] + rest;
    forall i | 0 < i < |r|
      ensures !less(r[i], r[i - 1])
    {
      assert r[i] == rest[i - 1];
      if i > 1 { assert r[i - 1] == rest[i - 2]; }
    }
  }

  /** Sorting leaves no element before the one just ahead of it. */
  lemma {:induction false} SortSteps<T(!new)>(p: seq<T>, less: (T, T) -> bool, dom: set<T>)
    requires Contest(less, dom) && forall y | y in p :: y in dom
    ensures Stepwise(less, SortBy(p, less))
  {
    if p != [] {
      assert forall y | y in p[1..] :: y in p;
      SortSteps(p[1..], less, dom);
      SortIsPermutation(p[1..], less);
      assert p[0] in p;
      InsertSteps(p[0], SortBy(p[1..], less), less, dom);
    }
  }

  lemma SortLists<T(!new)>(p: seq<T>, s: set<T>, less: (T, T) -> bool)
    requires Contest(less, s) && Lists(p, s)
    ensures Lists(SortBy(p, less), s) && Stepwise(less, SortBy(p, less))
  {
    SortIsPermutation(p, less);
    SameLists(p, SortBy(p, less), s);
    SortSteps(p, less, s);
  }

  /** What is so arranged is left alone. */
  lemma {:induction false} SortLeavesSteps<T(!new)>(p: seq<T>, less: (T, T) -> bool)
    requires Stepwise(less, p)
    ensures SortBy(p, less) == p
  {
    if p != [] {
      TailSteps(less, p);
      SortLeavesSteps(p[1..], less);
      assert p == [p[0]] + p[1..];
    }
  }

  // ---- The first places -----------------------------------------------------------

  function FirstOf<T>(p: seq<T>, n: nat): seq<T> {
    if n < |p| then p[..n] else p
  }

  lemma LeaderIsFirst<T(!new)>(less: (T, T) -> bool, s: set<T>, x: T, p: seq<T>)
    requires Contest(less, s) && Leads(less, x, s) && Lists(p, s) && Stepwise(less, p)
    ensures p != [] && p[0] == x
  {
    forall k | 0 < k < |p|
      ensures p[k] != x
    {
      assert p[k - 1] in p && !less(p[k], p[k - 1]) && p[k] != p[k - 1];
    }
  }

  /** Where n places are decided, any two arrangements agree on them. */
  lemma {:induction false} DecidedAgree<T(!new)>(less: (T, T) -> bool, s: set<T>, n: nat, p: seq<T>, q: seq<T>)
    requires Contest(less, s) && n <= |s| && Decided(less, s, n)
    requires Lists(p, s) && Lists(q, s) && Stepwise(less, p) && Stepwise(less, q)
    ensures |p| == |q| == |s| && p[..n] == q[..n]
    decreases n
  {
    ListsCount(p, s);
    ListsCount(q, s);
    if n > 0 {
      var x :| Leads(less, x, s) && Decided(less, s - {x}, n - 1);
      LeaderIsFirst(less, s, x, p);
      LeaderIsFirst(less, s, x, q);
      TailLists(p, s);
      TailLists(q, s);
      TailSteps(less, p);
      TailSteps(less, q);
      DecidedAgree(less, s - {x}, n - 1, p[1..], q[1..]);
      assert p[..n] == [x] + p[1..][..n - 1] && q[..n] == [x] + q[1..][..n - 1];
    }
  }

  /** Where they are not, two arrangements differ on them. */
  lemma {:induction false} UndecidedDiffer<T(!new)>(less: (T, T) -> bool, s: set<T>, n: nat) returns (p: seq<T>, q: seq<T>)
    requires Contest(less, s) && n <= |s| && !Decided(less, s, n)
    ensures Lists(p, s) && Lists(q, s) && Stepwise(less, p) && Stepwise(less, q)
    ensures |p| == |q| == |s| && p[..n] != q[..n]
    decreases n
  {
    if x :| Leads(less, x, s) {
      var p', q' := UndecidedDiffer(less, s - {x}, n - 1);
      LeaderAhead(less, s, x, p');
      LeaderAhead(less, s, x, q');
      p, q := [x] + p', [x] + q';
      assert p[..n][1..] == p'[..n - 1] && q[..n][1..] == q'[..n - 1];
    } else {
      p, q := NoLeaderDiffer(less, s);
      ListsCount(p, s);
      ListsCount(q, s);
      assert p[..n][0] == p[0] && q[..n][0] == q[0];
    }
  }

  lemma LeaderAhead<T(!new)>(less: (T, T) -> bool, s: set<T>, x: T, rest: seq<T>)
    requires Contest(less, s) && Leads(less, x, s) && Lists(rest, s - {x}) && Stepwise(less, rest)
    ensures Lists([x] + rest, s) && Stepwise(less, [x] + rest)
  {
    ConsLists(x, rest, s);
    if rest != [] {
      assert rest[0] in rest;
    }
    ConsSteps(less, x, rest);
  }

  lemma NoLeaderDiffer<T(!new)>(less: (T, T) -> bool, s: set<T>) returns (p: seq<T>, q: seq<T>)
    requires Contest(less, s) && s != {} && forall x :: !Leads(less, x, s)
    ensures Lists(p, s) && Lists(q, s) && Stepwise(less, p) && Stepwise(less, q)
    ensures p != [] && q != [] && p[0] != q[0]
  {
    var some := SomeListing(s);
    SortLists(some, s, less);
    p := SortBy(some, less);
    ListsCount(p, s);
    var y := WhoBeats(less, s, p[0]);
    var others := SomeListing(s - {y});
    SortLists(others, s - {y}, less);
    var rest := SortBy(others, less);
    q := Insert(y, rest, less);
    InsertSteps(y, rest, less, s);
    ConsLists(y, rest, s);
    InsertIsPermutation(y, rest, less);
    SameLists([y] + rest, q, s);
    ListsCount(q, s);
  }

  lemma WhoBeats<T(!new)>(less: (T, T) -> bool, s: set<T>, x: T) returns (y: T)
    requires Contest(less, s) && x in s && !Leads(less, x, s)
    ensures y in s && y != x && less(y, x)
  {
    y :| y in s && y != x && !less(x, y);
  }

  /** Whatever order s is listed in, sorting gives the first n places to the same. */
  ghost predicate OrderFree<T(!new)>(less: (T, T) -> bool, p: seq<T>, s: set<T>, n: nat) {
    forall q | Lists(q, s) :: FirstOf(SortBy(q, less), n) == FirstOf(SortBy(p, less), n)
  }

  lemma DecidedIsOrderFree<T(!new)>(less: (T, T) -> bool, p: seq<T>, s: set<T>, n: nat)
    requires Contest(less, s) && Lists(p, s) && n <= |s| && Decided(less, s, n)
    ensures OrderFree(less, p, s, n)
  {
    forall q | Lists(q, s)
      ensures FirstOf(SortBy(q, less), n) == FirstOf(SortBy(p, less), n)
    {
      SameFirst(less, p, q, s, n);
    }
  }

  lemma SameFirst<T(!new)>(less: (T, T) -> bool, p: seq<T>, q: seq<T>, s: set<T>, n: nat)
    requires Contest(less, s) && Lists(p, s) && Lists(q, s) && n <= |s| && Decided(less, s, n)
    ensures FirstOf(SortBy(q, less), n) == FirstOf(SortBy(p, less), n)
  {
    SortLists(p, s, less);
    SortLists(q, s, less);
    AgreeFirst(less, s, n, SortBy(q, less), SortBy(p, less));
  }

  lemma AgreeFirst<T(!new)>(less: (T, T) -> bool, s: set<T>, n: nat, p: seq<T>, q: seq<T>)
    requires Contest(less, s) && n <= |s| && Decided(less, s, n)
    requires Lists(p, s) && Lists(q, s) && Stepwise(less, p) && Stepwise(less, q)
    ensures FirstOf(p, n) == FirstOf(q, n)
  {
    DecidedAgree(less, s, n, p, q);
  }

  lemma UndecidedIsNot<T(!new)>(less: (T, T) -> bool, p: seq<T>, s: set<T>, n: nat)
    requires Contest(less, s) && Lists(p, s) && n <= |s| && !Decided(less, s, n)
    ensures !OrderFree(less, p, s, n)
  {
    var a, b := UndecidedDiffer(less, s, n);
    SortLeavesSteps(a, less);
    SortLeavesSteps(b, less);
    assert FirstOf(a, n) != FirstOf(b, n);
    var q := if FirstOf(a, n) != FirstOf(SortBy(p, less), n) then a else b;
    assert Lists(q, s) && FirstOf(SortBy(q, less), n) != FirstOf(SortBy(p, less), n);
  }

  /** Every input order gives the same first n elements if and only if, n times over,
      some element goes before all that are left. */
  lemma PrefixForgetsOrderIff<T(!new)>(less: (T, T) -> bool, p: seq<T>, s: set<T>, n: nat)
    requires Contest(less, s) && Lists(p, s) && n <= |s|
    ensures OrderFree(less, p, s, n) <==> Decided(less, s, n)
  {
    if Decided(less, s, n) {
      DecidedIsOrderFree(less, p, s, n);
    } else {
      UndecidedIsNot(less, p, s, n);
    }
  }

  // ---- All places -------------------------------------------------------------------

  /** Three elements that go before one another in a circle. */
  ghost predicate Circle<T(!new)>(less: (T, T) -> bool, x: T, y: T, z: T) {
    less(x, y) && less(y, z) && less(z, x)
  }

  ghost predicate NoCircle<T(!new)>(less: (T, T) -> bool, s: set<T>) {
    forall x, y, z {:trigger Circle(less, x, y, z)} | x in s && y in s && z in s :: !Circle(less, x, y, z)
  }

  /** All places are decided if and only if no three elements go in a circle. */
  lemma {:induction false} DecidedIffNoCircle<T(!new)>(less: (T, T) -> bool, s: set<T>)
    requires Contest(less, s)
    ensures Decided(less, s, |s|) <==> NoCircle(less, s)
    decreases |s|
  {
    if s != {} {
      if x :| Leads(less, x, s) {
        DecidedIffNoCircle(less, s - {x});
        LeaderInNoCircle(less, s, x);
        assert forall y | Leads(less, y, s) :: y == x;
      } else {
        var some := SomeListing(s);
        SortLists(some, s, less);
        var p := SortBy(some, less);
        ListsCount(p, s);
        var y := WhoBeats(less, s, p[0]);
        CircleBefore(less, s, p, y);
      }
    }
  }

  lemma LeaderInNoCircle<T(!new)>(less: (T, T) -> bool, s: set<T>, x: T)
    requires Contest(less, s) && Leads(less, x, s)
    ensures NoCircle(less, s) <==> NoCircle(less, s - {x})
  {
    forall a, b, c | a in s && b in s && c in s && Circle(less, a, b, c)
      ensures a != x && b != x && c != x
    {
    }
  }

  /** When someone goes before the first of an arrangement, there is a circle. */
  lemma CircleBefore<T(!new)>(less: (T, T) -> bool, s: set<T>, p: seq<T>, y: T)
    requires Contest(less, s) && Lists(p, s) && Stepwise(less, p) && p != []
    requires y in s && y != p[0] && less(y, p[0])
    ensures !NoCircle(less, s)
  {
    var k :| 0 <= k < |p| && p[k] == y;
    var j := 0;
    while j + 1 < k && less(y, p[j + 1])
      invariant 0 <= j < k && less(y, p[j])
    {
      j := j + 1;
    }
    assert p[j] in s && p[j + 1] in s && !less(p[j + 1], p[j]);
    assert j + 1 < k;
    assert Circle(less, p[j], p[j + 1], y);
  }
}
