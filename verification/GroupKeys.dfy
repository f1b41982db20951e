/** The textual key rows are grouped by, and the partition it makes. */
module GroupKeys {
  import opened Ordering
  import opened Values
  import opened Where
  import opened Resolving

  const NUL: char := '\0'

  // ---- The key ------------------------------------------------------------------------

  /** %T of a decoded value. */
  function TypeName(v: Value): string {
    match v
    case Nil => "<nil>"
    case Bool(_) => "bool"
    case Int(_) => "int"
    case Int64(_) => "int64"
    case Float(_) => "float64"
    case Str(_) => "string"
    case Arr(_) => "[]interface {}"
    case Obj(_) => "map[string]interface {}"
  }

  /** %T:%v */
  function Tag(fmt: Printer, v: Value): string {
    TypeName(v) + ":" + fmt(v)
  }

  function JoinParts(parts: seq<string>): string {
    if parts == [] then ""
    else if |parts| == 1 then parts[0]
    else parts[0] + [NUL] + JoinParts(parts[1..])
  }

  function Tags(fmt: Printer, vs: seq<Value>): seq<string> {
    seq(|vs|, i requires 0 <= i < |vs| => Tag(fmt, vs[i]))
  }

  function KeyOf(fmt: Printer, vs: seq<Value>): string {
    JoinParts(Tags(fmt, vs))
  }

  // ---- When the key tells values apart ---------------------------------------------------

  /** Which reals are float64 values: finitely many, so that text can tell them apart. */
  type Float64s = real -> bool

  predicate Scalar(f64: Float64s, v: Value) {
    !v.Arr? && !v.Obj? && (v.Float? ==> f64(v.x))
  }

  predicate Clean(s: string) {
    NUL !in s
  }

  /** What fmt promises of %v: a string prints as itself, and two scalars of one type
      that print alike are equal; only strings can bring a NUL along. */
  ghost predicate Faithful(fmt: Printer, f64: Float64s) {
    && (forall s {:trigger Str(s)} :: fmt(Str(s)) == s)
    && (forall v, w {:trigger fmt(v), fmt(w)} | Scalar(f64, v) && Scalar(f64, w) && TypeName(v) == TypeName(w) && fmt(v) == fmt(w) :: v == w)
    && (forall v | Scalar(f64, v) && !v.Str? :: Clean(fmt(v)))
  }

  predicate NulFree(v: Value) {
    v.Str? ==> Clean(v.s)
  }

  /** The type tag ends at its first colon. */
  lemma TagSplits(fmt: Printer, f64: Float64s, v: Value, w: Value)
    requires Scalar(f64, v) && Scalar(f64, w) && Tag(fmt, v) == Tag(fmt, w)
    ensures TypeName(v) == TypeName(w) && fmt(v) == fmt(w)
  {
    var s, t := TypeName(v), TypeName(w);
    assert ':' !in s && ':' !in t;
    FirstMark(':', s, fmt(v), t, fmt(w));
  }

  /** Text without a mark, up to the first mark, is determined. */
  lemma {:induction false} FirstMark(mark: char, s: string, a: string, t: string, b: string)
    requires mark !in s && mark !in t && s + [mark] + a == t + [mark] + b
    ensures s == t && a == b
  {
    var x, y := s + [mark] + a, t + [mark] + b;
    if s != [] && t != [] {
      assert x[1..] == s[1..] + [mark] + a && y[1..] == t[1..] + [mark] + b;
      FirstMark(mark, s[1..], a, t[1..], b);
      assert s == [x[0]] + s[1..] && t == [y[0]] + t[1..];
    } else {
      HeadIsMark(mark, s);
      HeadIsMark(mark, t);
      assert x[0] == Head(mark, s) && y[0] == Head(mark, t);
      assert a == x[1..] && b == y[1..];
    }
  }

  function Head(mark: char, s: string): char {
    if s == [] then mark else s[0]
  }

  lemma HeadIsMark(mark: char, s: string)
    requires mark !in s
    ensures Head(mark, s) == mark <==> s == []
  {
    if s != [] {
      assert s[0] in s;
    }
  }

  lemma TagInjective(fmt: Printer, f64: Float64s, v: Value, w: Value)
    requires Faithful(fmt, f64) && Scalar(f64, v) && Scalar(f64, w) && Tag(fmt, v) == Tag(fmt, w)
    ensures v == w
  {
    TagSplits(fmt, f64, v, w);
  }

  lemma TagClean(fmt: Printer, f64: Float64s, v: Value)
    requires Faithful(fmt, f64) && Scalar(f64, v) && NulFree(v)
    ensures Clean(Tag(fmt, v))
  {
    if v.Str? { assert fmt(Str(v.s)) == v.s; }
    assert Clean(TypeName(v)) && Clean(":") && Clean(fmt(v));
  }

  lemma {:induction false} JoinInjective(a: seq<string>, b: seq<string>)
    requires |a| == |b| && JoinParts(a) == JoinParts(b)
    requires forall i | 0 <= i < |a| :: Clean(a[i]) && Clean(b[i])
    ensures a == b
  {
    if |a| > 1 {
      FirstMark(NUL, a[0], JoinParts(a[1..]), b[0], JoinParts(b[1..]));
      JoinInjective(a[1..], b[1..]);
      assert a == [a[0]] + a[1..] && b == [b[0]] + b[1..];
    }
  }

  /** On scalars whose strings hold no NUL, two rows share a key exactly when their
      value tuples agree. */
  lemma KeyInjective(fmt: Printer, f64: Float64s, vs: seq<Value>, ws: seq<Value>)
    requires Faithful(fmt, f64) && |vs| == |ws|
    requires forall i | 0 <= i < |vs| :: Scalar(f64, vs[i]) && NulFree(vs[i]) && Scalar(f64, ws[i]) && NulFree(ws[i])
    ensures KeyOf(fmt, vs) == KeyOf(fmt, ws) <==> vs == ws
  {
    if KeyOf(fmt, vs) == KeyOf(fmt, ws) {
      var a, b := Tags(fmt, vs), Tags(fmt, ws);
      forall i | 0 <= i < |vs|
        ensures Clean(a[i]) && Clean(b[i])
      {
        TagClean(fmt, f64, vs[i]);
        TagClean(fmt, f64, ws[i]);
      }
      JoinInjective(a, b);
      forall i | 0 <= i < |vs|
        ensures vs[i] == ws[i]
      {
        assert a[i] == b[i];
        TagInjective(fmt, f64, vs[i], ws[i]);
      }
    }
  }

  /** Over all scalars the key is injective exactly for a single GROUP BY expression
      (or none): with two, a NUL inside a string can move the boundary. */
  lemma KeyInjectiveIff(fmt: Printer, f64: Float64s, n: nat)
    requires Faithful(fmt, f64)
    ensures (forall vs, ws {:trigger KeyOf(fmt, vs), KeyOf(fmt, ws)} |
               |vs| == |ws| == n && (forall i | 0 <= i < n :: Scalar(f64, vs[i]) && Scalar(f64, ws[i])) && KeyOf(fmt, vs) == KeyOf(fmt, ws) :: vs == ws)
            <==> n <= 1
  {
    if n <= 1 {
      forall vs, ws: seq<Value> | |vs| == |ws| == n && (forall i | 0 <= i < n :: Scalar(f64, vs[i]) && Scalar(f64, ws[i])) && KeyOf(fmt, vs) == KeyOf(fmt, ws)
        ensures vs == ws
      {
        if n == 1 {
          assert Tags(fmt, vs)[0] == Tags(fmt, ws)[0];
          TagInjective(fmt, f64, vs[0], ws[0]);
        }
      }
    } else {
      var vs, ws := TwoKeysCollide(fmt, f64, n);
      assert KeyOf(fmt, vs) == KeyOf(fmt, ws) && vs != ws;
    }
  }

  lemma TwoKeysCollide(fmt: Printer, f64: Float64s, n: nat) returns (vs: seq<Value>, ws: seq<Value>)
    requires Faithful(fmt, f64) && n >= 2
    ensures |vs| == |ws| == n && (forall i | 0 <= i < n :: Scalar(f64, vs[i]) && Scalar(f64, ws[i]))
    ensures KeyOf(fmt, vs) == KeyOf(fmt, ws) && vs != ws
  {
    var pad := seq(n - 2, i => Nil);
    vs := [Str("a" + [NUL] + "string:b"), Str("c")] + pad;
    ws := [Str("a"), Str("b" + [NUL] + "string:c")] + pad;
    NulMovesBoundary(fmt, f64, pad);
    assert |vs[0].s| != |ws[0].s|;
  }

  lemma NulMovesBoundary(fmt: Printer, f64: Float64s, pad: seq<Value>)
    requires Faithful(fmt, f64)
    ensures KeyOf(fmt, [Str("a" + [NUL] + "string:b"), Str("c")] + pad) == KeyOf(fmt, [Str("a"), Str("b" + [NUL] + "string:c")] + pad)
  {
    var p := Tags(fmt, pad);
    var ab, c := Str("a" + [NUL] + "string:b"), Str("c");
    var a, bc := Str("a"), Str("b" + [NUL] + "string:c");
    TagsConcat(fmt, [ab, c], pad);
    TagsConcat(fmt, [a, bc], pad);
    assert Tags(fmt, [ab, c]) == [Tag(fmt, ab), Tag(fmt, c)];
    assert Tags(fmt, [a, bc]) == [Tag(fmt, a), Tag(fmt, bc)];
    JoinTwo(Tag(fmt, ab), Tag(fmt, c), p);
    JoinTwo(Tag(fmt, a), Tag(fmt, bc), p);
    NulText(fmt, f64);
  }

  lemma TagsConcat(fmt: Printer, vs: seq<Value>, ws: seq<Value>)
    ensures Tags(fmt, vs + ws) == Tags(fmt, vs) + Tags(fmt, ws)
  {
  }

  lemma NulText(fmt: Printer, f64: Float64s)
    requires Faithful(fmt, f64)
    ensures Tag(fmt, Str("a" + [NUL] + "string:b")) + [NUL] + Tag(fmt, Str("c")) ==
            Tag(fmt, Str("a")) + [NUL] + Tag(fmt, Str("b" + [NUL] + "string:c"))
  {
    assert fmt(Str("c")) == "c" && fmt(Str("a")) == "a";
    assert fmt(Str("a" + [NUL] + "string:b")) == "a" + [NUL] + "string:b";
    assert fmt(Str("b" + [NUL] + "string:c")) == "b" + [NUL] + "string:c";
  }

  lemma JoinTwo(x: string, y: string, p: seq<string>)
    ensures JoinParts([x, y] + p) == x + [NUL] + y + if p == [] then "" else [NUL] + JoinParts(p)
  {
    assert ([x, y] + p)[1..] == [y] + p && ([y] + p)[1..] == p;
    if p == [] {
      assert JoinParts([y]) == y;
    }
  }

  // ---- The partition ------------------------------------------------------------------------

  /** The keys in first-seen order. */
  function FirstSeen<K(==)>(keys: seq<K>): seq<K> {
    if keys == [] then []
    else
      var n := |keys| - 1;
      var before := FirstSeen(keys[..n]);
      if keys[n] in before then before else before + [keys[n]]
  }

  /** The rows with this key, in row order. */
  function Members<K(==)>(keys: seq<K>, rows: seq<Sources>, k: K): seq<Sources>
    requires |keys| == |rows|
  {
    if keys == [] then []
    else
      var n := |keys| - 1;
      Members(keys[..n], rows[..n], k) + if keys[n] == k then [rows[n]] else []
  }

  /** The groups: one a key, in first-seen order. */
  function Groups<K(==)>(keys: seq<K>, rows: seq<Sources>): seq<seq<Sources>>
    requires |keys| == |rows|
  {
    var order := FirstSeen(keys);
    seq(|order|, i requires 0 <= i < |order| => Members(keys, rows, order[i]))
  }

  /** One more row. */
  lemma MembersSnoc<K(!new)>(keys: seq<K>, rows: seq<Sources>, i: nat, k: K)
    requires |keys| == |rows| && i < |rows|
    ensures Members(keys[..i + 1], rows[..i + 1], k) ==
              Members(keys[..i], rows[..i], k) + if keys[i] == k then [rows[i]] else []
  {
    assert keys[..i + 1][..i] == keys[..i] && rows[..i + 1][..i] == rows[..i];
  }

  lemma FirstSeenSnoc<K(!new)>(keys: seq<K>, i: nat)
    requires i < |keys|
    ensures var before := FirstSeen(keys[..i]);
            FirstSeen(keys[..i + 1]) == if keys[i] in before then before else before + [keys[i]]
  {
    assert keys[..i + 1][..i] == keys[..i];
  }

  lemma NewKeyHasNone<K(!new)>(keys: seq<K>, rows: seq<Sources>, k: K)
    requires |keys| == |rows| && k !in FirstSeen(keys)
    ensures Members(keys, rows, k) == []
  {
    FirstSeenLists(keys);
    MembersOf(keys, rows, k);
  }

  /** The map and the order after the rows seen so far. */
  ghost predicate Filed(byKey: map<string, seq<Sources>>, order: seq<string>, keys: seq<string>, rows: seq<Sources>)
    requires |keys| == |rows|
  {
    && order == FirstSeen(keys)
    && (forall k :: k in byKey <==> k in order)
    && (forall k | k in byKey :: byKey[k] == Members(keys, rows, k))
  }

  /** The map and the order with one more row. */
  lemma FileOne(byKey: map<string, seq<Sources>>, order: seq<string>, keys: seq<string>, rows: seq<Sources>, i: nat,
                grown: map<string, seq<Sources>>, order': seq<string>)
    requires |keys| == |rows| && i < |rows| && Filed(byKey, order, keys[..i], rows[..i])
    requires keys[i] in byKey ==> grown == byKey[keys[i] := byKey[keys[i]] + [rows[i]]] && order' == order
    requires keys[i] !in byKey ==> grown == byKey[keys[i] := [rows[i]]] && order' == order + [keys[i]]
    ensures Filed(grown, order', keys[..i + 1], rows[..i + 1])
  {
    FirstSeenSnoc(keys, i);
    forall k | k in grown
      ensures grown[k] == Members(keys[..i + 1], rows[..i + 1], k)
    {
      MembersSnoc(keys, rows, i, k);
      if k !in byKey {
        NewKeyHasNone(keys[..i], rows[..i], k);
      }
    }
  }

  lemma FiledWhole(byKey: map<string, seq<Sources>>, order: seq<string>, keys: seq<string>, rows: seq<Sources>)
    requires |keys| == |rows| && Filed(byKey, order, keys[..|rows|], rows[..|rows|])
    ensures Filed(byKey, order, keys, rows)
  {
    assert keys[..|rows|] == keys && rows[..|rows|] == rows;
  }

  method FileRow(byKey: map<string, seq<Sources>>, order: seq<string>, key: string, row: Sources)
      returns (byKey': map<string, seq<Sources>>, order': seq<string>)
    ensures key in byKey ==> byKey' == byKey[key := byKey[key] + [row]] && order' == order
    ensures key !in byKey ==> byKey' == byKey[key := [row]] && order' == order + [key]
  {
    byKey', order' := byKey, order;
    if key !in byKey' {
      byKey' := byKey'[key := []];
      order' := order' + [key];
    }
    byKey' := byKey'[key := byKey'[key] + [row]];
    assert [] + [row] == [row];
    assert key !in byKey ==> byKey' == byKey[key := [row]];
  }

  /** The groups in the order their keys first appeared. */
  method InOrder(byKey: map<string, seq<Sources>>, order: seq<string>) returns (groups: seq<seq<Sources>>)
    requires forall k | k in order :: k in byKey
    ensures |groups| == |order| && forall i | 0 <= i < |order| :: groups[i] == byKey[order[i]]
  {
    groups := [];
    for i := 0 to |order|
      invariant |groups| == i && forall j | 0 <= j < i :: groups[j] == byKey[order[j]]
    {
      groups := groups + [byKey[order[i]]];
    }
  }

  /** Partitioning with a map from key to group and the order keys first appeared. */
  method Partition(keys: seq<string>, rows: seq<Sources>) returns (groups: seq<seq<Sources>>)
    requires |keys| == |rows|
    ensures groups == Groups(keys, rows)
  {
    var order: seq<string> := [];
    var byKey: map<string, seq<Sources>> := map[];
    for i := 0 to |rows|
      invariant Filed(byKey, order, keys[..i], rows[..i])
    {
      var grown, order' := FileRow(byKey, order, keys[i], rows[i]);
      FileOne(byKey, order, keys, rows, i, grown, order');
      byKey, order := grown, order';
    }
    FiledWhole(byKey, order, keys, rows);
    groups := InOrder(byKey, order);
  }

  /** Keys appear once each, in the order of their first rows. */
  lemma {:induction false} FirstSeenLists<K(!new)>(keys: seq<K>)
    ensures Distinct(FirstSeen(keys))
    ensures forall k :: k in FirstSeen(keys) <==> k in keys
  {
    if keys != [] {
      var n := |keys| - 1;
      FirstSeenLists(keys[..n]);
      assert forall k :: k in keys <==> k in keys[..n] || k == keys[n];
    }
  }

  /** Where a key first appears. */
  function FirstIndex(keys: seq<string>, k: string): nat
    requires k in keys
  {
    if keys[0] == k then 0 else 1 + FirstIndex(keys[1..], k)
  }

  lemma {:induction false} FirstIndexIs(keys: seq<string>, k: string)
    requires k in keys
    ensures FirstIndex(keys, k) < |keys| && keys[FirstIndex(keys, k)] == k
    ensures forall i | 0 <= i < FirstIndex(keys, k) :: keys[i] != k
  {
    if keys[0] != k {
      FirstIndexIs(keys[1..], k);
    }
  }

  lemma {:induction false} FirstSeenOrder(keys: seq<string>, i: nat, j: nat)
    requires i < j < |FirstSeen(keys)|
    ensures FirstSeen(keys)[i] in keys && FirstSeen(keys)[j] in keys
    ensures FirstIndex(keys, FirstSeen(keys)[i]) < FirstIndex(keys, FirstSeen(keys)[j])
  {
    var n := |keys| - 1;
    var before, all := FirstSeen(keys[..n]), FirstSeen(keys);
    FirstSeenLists(keys[..n]);
    FirstSeenLists(keys);
    assert all[i] in all && all[j] in all;
    FirstIndexIs(keys, all[i]);
    FirstIndexIs(keys, all[j]);
    assert before[i] in keys[..n];
    FirstIndexIs(keys[..n], before[i]);
    if j < |before| {
      FirstSeenOrder(keys[..n], i, j);
      FirstIndexIs(keys[..n], before[j]);
    }
  }

  /** Row i belongs to the group of k. */
  predicate Belongs<K(==)>(keys: seq<K>, rows: seq<Sources>, i: int, r: Sources, k: K)
    requires |keys| == |rows|
  {
    0 <= i < |rows| && rows[i] == r && keys[i] == k
  }

  /** A group holds the rows with its key, all of them and no others; only keys
      that occur have one. */
  lemma {:induction false} MembersOf<K(!new)>(keys: seq<K>, rows: seq<Sources>, k: K)
    requires |keys| == |rows|
    ensures Members(keys, rows, k) != [] <==> k in keys
    ensures forall r :: r in Members(keys, rows, k) <==> exists i :: Belongs(keys, rows, i, r, k)
  {
    if keys != [] {
      var n := |keys| - 1;
      MembersOf(keys[..n], rows[..n], k);
      forall r
        ensures r in Members(keys, rows, k) <==> exists i :: Belongs(keys, rows, i, r, k)
      {
        if i :| Belongs(keys[..n], rows[..n], i, r, k) {
          assert Belongs(keys, rows, i, r, k);
        }
        if keys[n] == k && rows[n] == r {
          assert Belongs(keys, rows, n, r, k);
        }
        if i :| Belongs(keys, rows, i, r, k) && i < n {
          assert Belongs(keys[..n], rows[..n], i, r, k);
        }
      }
      assert k in keys <==> k in keys[..n] || keys[n] == k;
    }
  }

  // ---- Conservation -------------------------------------------------------------------------

  /** The sum of a weight over rows. */
  function Weight<T>(rows: seq<T>, w: T -> real): real {
    if rows == [] then 0.0 else Weight(rows[..|rows| - 1], w) + w(rows[|rows| - 1])
  }

  /** The sum over groups of their weights. */
  function TotalWeight(groups: seq<seq<Sources>>, w: Sources -> real): real {
    if groups == [] then 0.0 else TotalWeight(groups[..|groups| - 1], w) + Weight(groups[|groups| - 1], w)
  }

  lemma WeightSnoc<T>(rows: seq<T>, r: T, w: T -> real)
    ensures Weight(rows + [r], w) == Weight(rows, w) + w(r)
  {
    assert (rows + [r])[..|rows|] == rows;
  }

  /** Group g has one more row, at its end; the others are the same. */
  ghost predicate Grown<T(!new)>(before: seq<seq<T>>, after: seq<seq<T>>, g: int, r: T) {
    && 0 <= g < |before| == |after|
    && after[g] == before[g] + [r]
    && (forall i | 0 <= i < |before| && i != g :: after[i] == before[i])
  }

  lemma {:induction false} OneGroupGrows(before: seq<seq<Sources>>, after: seq<seq<Sources>>, g: nat, r: Sources, w: Sources -> real)
    requires Grown(before, after, g, r)
    ensures TotalWeight(after, w) == TotalWeight(before, w) + w(r)
    decreases |before|
  {
    var n := |before| - 1;
    if g == n {
      assert after[..n] == before[..n];
      WeightSnoc(before[n], r, w);
    } else {
      OneGroupGrows(before[..n], after[..n], g, r, w);
    }
  }

  /** How one more row changes the groups. */
  lemma GroupsSnoc<K(!new)>(keys: seq<K>, rows: seq<Sources>)
    requires |keys| == |rows| > 0
    ensures var n := |keys| - 1;
            var before, after := Groups(keys[..n], rows[..n]), Groups(keys, rows);
            if keys[n] in keys[..n] then
              exists g :: Grown(before, after, g, rows[n])
            else after == before + [[rows[n]]]
  {
    var n := |keys| - 1;
    var before, after := Groups(keys[..n], rows[..n]), Groups(keys, rows);
    FirstSeenLists(keys[..n]);
    var order := FirstSeen(keys[..n]);
    if keys[n] in keys[..n] {
      var g :| 0 <= g < |order| && order[g] == keys[n];
      assert Grown(before, after, g, rows[n]);
    } else {
      MembersOf(keys[..n], rows[..n], keys[n]);
      forall i | 0 <= i < |before|
        ensures after[i] == before[i]
      {
        assert order[i] in order && order[i] != keys[n];
      }
      assert FirstSeen(keys) == order + [keys[n]];
      assert after[|before|] == [rows[n]];
    }
  }

  /** Grouping conserves every sum over rows: the groups' sums add up to the whole. */
  lemma {:induction false} GroupsConserve<K(!new)>(keys: seq<K>, rows: seq<Sources>, w: Sources -> real)
    requires |keys| == |rows|
    ensures TotalWeight(Groups(keys, rows), w) == Weight(rows, w)
  {
    if keys != [] {
      var n := |keys| - 1;
      var before, after := Groups(keys[..n], rows[..n]), Groups(keys, rows);
      GroupsConserve(keys[..n], rows[..n], w);
      GroupsSnoc(keys, rows);
      if keys[n] in keys[..n] {
        var g :| Grown(before, after, g, rows[n]);
        OneGroupGrows(before, after, g, rows[n], w);
      } else {
        assert after[..|before|] == before;
        WeightSnoc([], rows[n], w);
        assert [] + [rows[n]] == [rows[n]];
      }
    }
  }

  /** All groups' rows, one group after another. */
  function Flatten<T>(groups: seq<seq<T>>): seq<T> {
    if groups == [] then [] else Flatten(groups[..|groups| - 1]) + groups[|groups| - 1]
  }

  lemma FlattenSnoc<T(!new)>(groups: seq<seq<T>>)
    requires groups != []
    ensures multiset(Flatten(groups)) == multiset(Flatten(groups[..|groups| - 1])) + multiset(groups[|groups| - 1])
  {
  }

  lemma {:induction false} OneGroupGrowsFlat<T(!new)>(before: seq<seq<T>>, after: seq<seq<T>>, g: nat, r: T)
    requires Grown(before, after, g, r)
    ensures multiset(Flatten(after)) == multiset(Flatten(before)) + multiset{r}
    decreases |before|
  {
    var n := |before| - 1;
    FlattenSnoc(after);
    FlattenSnoc(before);
    var a, b := multiset(Flatten(before[..n])), multiset(before[n]);
    if g == n {
      assert after[..n] == before[..n];
      assert multiset(after[n]) == b + multiset{r};
      assert a + (b + multiset{r}) == a + b + multiset{r};
    } else {
      OneGroupGrowsFlat(before[..n], after[..n], g, r);
      assert a + multiset{r} + b == a + b + multiset{r};
    }
  }

  /** Every row is in exactly one group, as often as it occurs. */
  lemma {:induction false} GroupsPartition<K(!new)>(keys: seq<K>, rows: seq<Sources>)
    requires |keys| == |rows|
    ensures multiset(Flatten(Groups(keys, rows))) == multiset(rows)
  {
    if keys != [] {
      var n := |keys| - 1;
      var before, after := Groups(keys[..n], rows[..n]), Groups(keys, rows);
      GroupsPartition(keys[..n], rows[..n]);
      GroupsSnoc(keys, rows);
      assert rows == rows[..n] + [rows[n]];
      if keys[n] in keys[..n] {
        var g :| Grown(before, after, g, rows[n]);
        OneGroupGrowsFlat(before, after, g, rows[n]);
      } else {
        assert after[..|before|] == before;
      }
    }
  }
}
