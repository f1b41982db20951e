/** Go's dynamic values as far as the in-memory adapter sees them, their JSON
    normal form, and nested path updates of a decoded record. */
module Values {
  import opened Ordering

  /** A value held in an interface: the constructor is its dynamic Go type. */
  datatype Value =
    | Nil
    | Bool(b: bool)
    | Int(i: int)
    | Int64(i64: int)
    | Float(x: real)
    | Str(s: string)
    | Arr(elems: seq<Value>)
    | Obj(fields: map<string, Value>)

  type Fields = map<string, Value>

  /** The value after a JSON round trip into an interface: every number is a
      float64; containers are normalised inside. */
  function Norm(v: Value): Value {
    match v
    case Int(i) => Float(i as real)
    case Int64(i) => Float(i as real)
    case Arr(es) => Arr(seq(|es|, i requires 0 <= i < |es| => Norm(es[i])))
    case Obj(m) => Obj(map k | k in m :: Norm(m[k]))
    case _ => v
  }

  function NormFields(m: Fields): Fields {
    map k | k in m :: Norm(m[k])
  }

  /** A value that JSON can hold as it is: no number in it has an integer type. */
  predicate IsJson(v: Value) {
    match v
    case Int(_) => false
    case Int64(_) => false
    case Arr(es) => forall e | e in es :: IsJson(e)
    case Obj(m) => forall k | k in m :: IsJson(m[k])
    case _ => true
  }

  /** The trip makes every value one that JSON can hold, changes those that are not and no
      others, and keeps every number, every list's length and every object's keys. */
  lemma {:induction false} NormIs(v: Value)
    ensures IsJson(Norm(v)) && (Norm(v) == v <==> IsJson(v))
    ensures Number(Norm(v)) == Number(v)
    ensures v.Arr? ==> Norm(v).Arr? && |Norm(v).elems| == |v.elems| && forall i | 0 <= i < |v.elems| :: Norm(v).elems[i] == Norm(v.elems[i])
    ensures v.Obj? ==> Norm(v).Obj? && Norm(v).fields.Keys == v.fields.Keys && forall k | k in v.fields :: Norm(v).fields[k] == Norm(v.fields[k])
  {
    match v
    case Arr(es) => NormOfList(es);
    case Obj(m) =>
      forall k | k in m
        ensures IsJson(Norm(m[k])) && (Norm(m[k]) == m[k] <==> IsJson(m[k]))
      {
        NormIs(m[k]);
      }
      if Norm(v) == v {
        assert forall k | k in m :: Norm(v).fields[k] == m[k];
      }
    case _ =>
  }

  lemma {:induction false} NormOfList(es: seq<Value>)
    ensures IsJson(Norm(Arr(es))) && (Norm(Arr(es)) == Arr(es) <==> IsJson(Arr(es)))
  {
    forall i | 0 <= i < |es|
      ensures IsJson(Norm(es[i])) && (Norm(es[i]) == es[i] <==> IsJson(es[i]))
    {
      NormIs(es[i]);
    }
    if Norm(Arr(es)) == Arr(es) {
      assert forall i | 0 <= i < |es| :: Norm(Arr(es)).elems[i] == es[i];
    }
  }

  /** A second round trip changes nothing. */
  lemma {:induction false} NormIdempotent(v: Value)
    ensures Norm(Norm(v)) == Norm(v)
  {
    match v
    case Arr(es) =>
      forall i | 0 <= i < |es|
        ensures Norm(Norm(es[i])) == Norm(es[i])
      {
        NormIdempotent(es[i]);
      }
    case Obj(m) =>
      forall k | k in m
        ensures Norm(Norm(m[k])) == Norm(m[k])
      {
        NormIdempotent(m[k]);
      }
    case _ =>
  }

  lemma NormFieldsIdempotent(m: Fields)
    ensures NormFields(NormFields(m)) == NormFields(m)
  {
    forall k | k in m
      ensures Norm(Norm(m[k])) == Norm(m[k])
    {
      NormIdempotent(m[k]);
    }
  }

  function Number(v: Value): Option<real> {
    match v
    case Int(i) => Some(i as real)
    case Int64(i) => Some(i as real)
    case Float(x) => Some(x)
    case _ => None
  }

  /** m[k] of a Go map: the zero value when the key is missing. */
  function At(m: Fields, k: string): Value {
    if k in m then m[k] else Nil
  }
}

/** applyPathUpdate and applyUpdatesToMap on a decoded record. */
module PathUpdate {
  import opened Ordering
  import opened Values

  /** None stands for the DeleteField sentinel. */
  type Leaf = Option<Value>

  datatype Update = Update(fieldName: string, fieldPath: seq<string>, value: Leaf)

  /** The error names the segment that is not a map. */
  type Outcome = Result<Fields, string>

  /** The map a walk continues in, or None when the segment holds a non-map. */
  function Descend(doc: Fields, key: string): Option<Fields> {
    match At(doc, key)
    case Obj(m) => Some(m)
    case Nil => Some(map[])
    case _ => None
  }

  /** Set or delete the leaf at path, creating missing intermediate maps. */
  function Put(doc: Fields, path: seq<string>, leaf: Leaf): Outcome
    requires path != []
    decreases |path|
  {
    if |path| == 1 then
      Ok(if leaf.Some? then doc[path[0] := leaf.value] else doc - {path[0]})
    else
      match Descend(doc, path[0])
      case None => Err(path[0])
      case Some(sub) =>
        match Put(sub, path[1..], leaf)
        case Err(e) => Err(e)
        case Ok(sub') => Ok(doc[path[0] := Obj(sub')])
  }

  /** Read a nested path. */
  function Get(doc: Fields, path: seq<string>): Option<Value>
    requires path != []
    decreases |path|
  {
    if path[0] !in doc then None
    else if |path| == 1 then Some(doc[path[0]])
    else if doc[path[0]].Obj? then Get(doc[path[0]].fields, path[1..])
    else None
  }

  function PathOf(u: Update): seq<string> {
    if u.fieldPath != [] then u.fieldPath
    else if u.fieldName != "" then [u.fieldName]
    else []
  }

  /** Updates run in order; the first failure is the outcome. */
  function ApplyAll(doc: Fields, updates: seq<Update>): Outcome
    decreases |updates|
  {
    if updates == [] then Ok(doc)
    else if PathOf(updates[0]) == [] then ApplyAll(doc, updates[1..])
    else
      match Put(doc, PathOf(updates[0]), updates[0].value)
      case Err(e) => Err(e)
      case Ok(next) => ApplyAll(next, updates[1..])
  }

  // ---- Lens laws ----------------------------------------------------------

  predicate Prefix(p: seq<string>, q: seq<string>) {
    |p| <= |q| && forall i | 0 <= i < |p| :: p[i] == q[i]
  }

  predicate Diverge(p: seq<string>, q: seq<string>) {
    !Prefix(p, q) && !Prefix(q, p)
  }

  /** What was written is read back; what was deleted is absent. */
  lemma {:induction false} PutGet(doc: Fields, path: seq<string>, leaf: Leaf)
    requires path != [] && Put(doc, path, leaf).Ok?
    ensures Get(Put(doc, path, leaf).value, path) == leaf
    decreases |path|
  {
    if |path| > 1 {
      PutGet(Descend(doc, path[0]).value, path[1..], leaf);
    }
  }

  /** Writing back what is there changes nothing. */
  lemma {:induction false} GetPut(doc: Fields, path: seq<string>)
    requires path != [] && Get(doc, path).Some?
    ensures Put(doc, path, Get(doc, path)) == Ok(doc)
    decreases |path|
  {
    if |path| > 1 {
      GetPut(doc[path[0]].fields, path[1..]);
    }
    assert doc[path[0] := doc[path[0]]] == doc;
  }

  /** The last write to a path wins. */
  lemma {:induction false} PutPut(doc: Fields, path: seq<string>, first: Leaf, second: Leaf)
    requires path != [] && Put(doc, path, first).Ok?
    ensures Put(Put(doc, path, first).value, path, second) == Put(doc, path, second)
    decreases |path|
  {
    var k := path[0];
    if |path| == 1 {
      assert doc[k := Nil] - {k} == doc - {k} == doc - {k} - {k};
      if second.Some? { assert (doc - {k})[k := second.value] == doc[k := second.value]; }
      if first.Some? { Overwrite(doc, k, first.value, second); }
    } else {
      var sub := Descend(doc, k).value;
      PutPut(sub, path[1..], first, second);
      var sub1 := Put(sub, path[1..], first).value;
      if Put(sub1, path[1..], second).Ok? {
        Overwrite(doc, k, Obj(sub1), Some(Obj(Put(sub1, path[1..], second).value)));
      }
    }
  }

  lemma Overwrite(doc: Fields, k: string, v: Value, w: Leaf)
    ensures doc[k := v] - {k} == doc - {k}
    ensures w.Some? ==> doc[k := v][k := w.value] == doc[k := w.value]
  {
  }

  /** A write is invisible on every path that is neither above nor below it. */
  lemma {:induction false} PutElsewhere(doc: Fields, path: seq<string>, leaf: Leaf, other: seq<string>)
    requires path != [] && other != [] && Diverge(path, other)
    requires Put(doc, path, leaf).Ok?
    ensures Get(Put(doc, path, leaf).value, other) == Get(doc, other)
    decreases |path|
  {
    if path[0] == other[0] {
      DivergeTail(path, other);
      var sub := Descend(doc, path[0]).value;
      PutElsewhere(sub, path[1..], leaf, other[1..]);
    }
  }

  lemma DivergeTail(p: seq<string>, q: seq<string>)
    requires p != [] && q != [] && p[0] == q[0] && Diverge(p, q)
    ensures |p| > 1 && |q| > 1 && Diverge(p[1..], q[1..])
  {
    assert Prefix(p[1..], q[1..]) ==> Prefix(p, q);
    assert Prefix(q[1..], p[1..]) ==> Prefix(q, p);
  }

  /** Writes on diverging paths commute. */
  lemma {:induction false} PutsCommute(doc: Fields, p: seq<string>, a: Leaf, q: seq<string>, b: Leaf)
    requires p != [] && q != [] && Diverge(p, q)
    requires Put(doc, p, a).Ok? && Put(doc, q, b).Ok?
    ensures Put(Put(doc, p, a).value, q, b).Ok?
    ensures Put(Put(doc, p, a).value, q, b) == Put(Put(doc, q, b).value, p, a)
    decreases |p|
  {
    if p[0] == q[0] {
      DivergeTail(p, q);
      var sub := Descend(doc, p[0]).value;
      PutsCommute(sub, p[1..], a, q[1..], b);
      var sp, sq := Put(sub, p[1..], a).value, Put(sub, q[1..], b).value;
      var both := Some(Obj(Put(sp, q[1..], b).value));
      Overwrite(doc, p[0], Obj(sp), both);
      Overwrite(doc, p[0], Obj(sq), both);
    } else {
      var v, w := Cell(doc, p, a), Cell(doc, q, b);
      PutIsLocal(doc, Assign(doc, q[0], w), p, a);
      PutIsLocal(doc, Assign(doc, p[0], v), q, b);
      PutIsLocal(doc, doc, p, a);
      PutIsLocal(doc, doc, q, b);
      AssignsCommute(doc, p[0], v, q[0], w);
    }
  }

  function Assign(doc: Fields, key: string, leaf: Leaf): Fields {
    if leaf.Some? then doc[key := leaf.value] else doc - {key}
  }

  lemma AssignsCommute(doc: Fields, j: string, v: Leaf, k: string, w: Leaf)
    requires j != k
    ensures Assign(Assign(doc, j, v), k, w) == Assign(Assign(doc, k, w), j, v)
  {
  }

  /** What a successful write leaves under the top-level key of its path. */
  function Cell(doc: Fields, path: seq<string>, leaf: Leaf): Leaf
    requires path != [] && Put(doc, path, leaf).Ok?
  {
    if |path| == 1 then leaf else Some(Put(doc, path, leaf).value[path[0]])
  }

  /** A write only looks at, and only changes, the top-level key it goes through. */
  lemma PutIsLocal(doc: Fields, doc': Fields, path: seq<string>, leaf: Leaf)
    requires path != [] && At(doc, path[0]) == At(doc', path[0])
    requires Put(doc, path, leaf).Ok?
    ensures Put(doc', path, leaf) == Ok(Assign(doc', path[0], Cell(doc, path, leaf)))
  {
  }

  /** A write fails exactly when a proper prefix of its path reads as something
      other than a map or nil. */
  lemma {:induction false} PutFailsIff(doc: Fields, path: seq<string>, leaf: Leaf)
    requires path != []
    ensures Put(doc, path, leaf).Err? <==> exists n :: 0 < n < |path| && Blocks(doc, path[..n])
    decreases |path|
  {
    if |path| > 1 {
      if Blocks(doc, path[..1]) {
      } else {
        var sub := Descend(doc, path[0]).value;
        PutFailsIff(sub, path[1..], leaf);
        forall n | 0 < n < |path[1..]|
          ensures Blocks(sub, path[1..][..n]) == Blocks(doc, path[..n + 1])
        {
          assert path[..n + 1][1..] == path[1..][..n];
        }
        if n :| 0 < n < |path[1..]| && Blocks(sub, path[1..][..n]) {
          assert Blocks(doc, path[..n + 1]);
        }
        if n :| 0 < n < |path| && Blocks(doc, path[..n]) {
          assert n > 1;
          assert Blocks(sub, path[1..][..n - 1]);
        }
      }
    }
  }

  predicate Blocks(doc: Fields, at: seq<string>)
    requires at != []
  {
    Get(doc, at).Some? && !Get(doc, at).value.Obj? && !Get(doc, at).value.Nil?
  }

  // ---- What a list of updates leaves to be read --------------------------------

  /** What is read below a written leaf: the leaf itself, or what it holds there. */
  function Below(leaf: Leaf, rest: seq<string>): Option<Value> {
    if rest == [] then leaf
    else if leaf.Some? && leaf.value.Obj? then Get(leaf.value.fields, rest)
    else None
  }

  lemma {:induction false} PutBelow(doc: Fields, path: seq<string>, leaf: Leaf, q: seq<string>)
    requires path != [] && Prefix(path, q) && Put(doc, path, leaf).Ok?
    ensures Get(Put(doc, path, leaf).value, q) == Below(leaf, q[|path|..])
    decreases |path|
  {
    assert q[0] == path[0];
    if |path| > 1 {
      assert Prefix(path[1..], q[1..]) && q[1..][|path| - 1..] == q[|path|..];
      PutBelow(Descend(doc, path[0]).value, path[1..], leaf, q[1..]);
    }
  }

  lemma {:induction false} PutAbove(doc: Fields, path: seq<string>, leaf: Leaf, q: seq<string>)
    requires q != [] && Prefix(q, path) && |q| < |path| && Put(doc, path, leaf).Ok?
    ensures var r := Get(Put(doc, path, leaf).value, q); r.Some? && r.value.Obj?
    decreases |path|
  {
    assert q[0] == path[0];
    if |q| > 1 {
      assert Prefix(q[1..], path[1..]);
      PutAbove(Descend(doc, path[0]).value, path[1..], leaf, q[1..]);
    }
  }

  /** The update writes at, above or below q. */
  predicate Touches(u: Update, q: seq<string>) {
    PathOf(u) != [] && !Diverge(PathOf(u), q)
  }

  predicate LastTouch(updates: seq<Update>, n: nat, q: seq<string>) {
    n < |updates| && Touches(updates[n], q) && forall i | n < i < |updates| :: !Touches(updates[i], q)
  }

  lemma {:induction false} UntouchedReads(doc: Fields, updates: seq<Update>, q: seq<string>)
    requires q != [] && ApplyAll(doc, updates).Ok?
    requires forall i | 0 <= i < |updates| :: !Touches(updates[i], q)
    ensures Get(ApplyAll(doc, updates).value, q) == Get(doc, q)
    decreases |updates|
  {
    if updates != [] {
      var u, rest := updates[0], updates[1..];
      assert forall i | 0 <= i < |rest| :: rest[i] == updates[i + 1];
      if PathOf(u) == [] {
        UntouchedReads(doc, rest, q);
      } else {
        PutElsewhere(doc, PathOf(u), u.value, q);
        UntouchedReads(Put(doc, PathOf(u), u.value).value, rest, q);
      }
    }
  }

  /** r is what a path q reads as, once u is the last update that touched it: u wrote it
      or above it, and r is what u wrote there; or u wrote below it, and r is a map. */
  predicate WrittenBy(u: Update, q: seq<string>, r: Option<Value>) {
    if Prefix(PathOf(u), q) then r == Below(u.value, q[|PathOf(u)|..]) else r.Some? && r.value.Obj?
  }

  lemma {:induction false} TouchedReads(doc: Fields, updates: seq<Update>, n: nat, q: seq<string>)
    requires q != [] && ApplyAll(doc, updates).Ok? && LastTouch(updates, n, q)
    ensures WrittenBy(updates[n], q, Get(ApplyAll(doc, updates).value, q))
    decreases |updates|
  {
    var u, rest := updates[0], updates[1..];
    var next := if PathOf(u) == [] then doc else Put(doc, PathOf(u), u.value).value;
    assert forall i | 0 <= i < |rest| :: rest[i] == updates[i + 1];
    if n > 0 {
      TouchedReads(next, rest, n - 1, q);
    } else {
      UntouchedReads(next, rest, q);
      if Prefix(PathOf(u), q) {
        PutBelow(doc, PathOf(u), u.value, q);
      } else {
        PutAbove(doc, PathOf(u), u.value, q);
      }
    }
  }

  /** Every path of the result: if no update touches it, it reads as before, and otherwise
      as the last update that does wrote it. */
  lemma ApplyReads(doc: Fields, updates: seq<Update>, q: seq<string>)
    requires q != [] && ApplyAll(doc, updates).Ok?
    ensures (forall i | 0 <= i < |updates| :: !Touches(updates[i], q)) ==> Get(ApplyAll(doc, updates).value, q) == Get(doc, q)
    ensures forall n: nat | LastTouch(updates, n, q) :: WrittenBy(updates[n], q, Get(ApplyAll(doc, updates).value, q))
  {
    if forall i | 0 <= i < |updates| :: !Touches(updates[i], q) {
      UntouchedReads(doc, updates, q);
    }
    forall n: nat | LastTouch(updates, n, q)
      ensures WrittenBy(updates[n], q, Get(ApplyAll(doc, updates).value, q))
    {
      TouchedReads(doc, updates, n, q);
    }
  }

  /** Reading a path and normalising commute. */
  lemma {:induction false} NormGet(m: Fields, q: seq<string>)
    requires q != []
    ensures Get(NormFields(m), q) == match Get(m, q) case None => None case Some(v) => Some(Norm(v))
    decreases |q|
  {
    if |q| > 1 && q[0] in m && m[q[0]].Obj? {
      assert Norm(m[q[0]]) == Obj(NormFields(m[q[0]].fields));
      NormGet(m[q[0]].fields, q[1..]);
    }
  }

  // ---- What a failing update leaves behind ----------------------------------

  /** The walk as it runs on the live map: a missing or nil segment gets a new map
      before the next segment is looked at, so a failure may come after insertions. */
  function Walk(doc: Fields, path: seq<string>, leaf: Leaf): (Fields, Option<string>)
    requires path != []
    decreases |path|
  {
    if |path| == 1 then
      (if leaf.Some? then doc[path[0] := leaf.value] else doc - {path[0]}, None)
    else
      match At(doc, path[0])
      case Obj(sub) =>
        var (sub', err) := Walk(sub, path[1..], leaf);
        (doc[path[0] := Obj(sub')], err)
      case Nil =>
        var (sub', err) := Walk(map[], path[1..], leaf);
        (doc[path[0] := Obj(sub')], err)
      case _ => (doc, Some(path[0]))
  }

  /** Below a map that was just inserted nothing can fail: it is empty. */
  lemma {:induction false} WalkInNewMap(path: seq<string>, leaf: Leaf)
    requires path != []
    ensures Walk(map[], path, leaf).1 == None && Put(map[], path, leaf) == Ok(Walk(map[], path, leaf).0)
    decreases |path|
  {
    if |path| > 1 {
      WalkInNewMap(path[1..], leaf);
    }
  }

  /** So a path that fails leaves the document as it was, although the walk writes as
      it goes. */
  lemma {:induction false} FailedWalkLeavesNothing(doc: Fields, path: seq<string>, leaf: Leaf)
    requires path != []
    ensures match Put(doc, path, leaf)
            case Ok(next) => Walk(doc, path, leaf) == (next, None)
            case Err(segment) => Walk(doc, path, leaf) == (doc, Some(segment))
    decreases |path|
  {
    if |path| > 1 {
      match At(doc, path[0]) {
        case Obj(sub) =>
          FailedWalkLeavesNothing(sub, path[1..], leaf);
          assert doc[path[0] := doc[path[0]]] == doc;
        case Nil =>
          WalkInNewMap(path[1..], leaf);
        case _ =>
      }
    }
  }

  /** applyUpdatesToMap on the live map: it stops at the first failure. */
  method ApplyUpdates(doc: Fields, updates: seq<Update>) returns (live: Fields, err: Option<string>)
    ensures (live, err) == WalkAll(doc, updates)
  {
    live := doc;
    for i := 0 to |updates|
      invariant WalkAll(doc, updates) == WalkAll(live, updates[i..])
    {
      assert updates[i..][1..] == updates[i + 1..];
      var path := PathOf(updates[i]);
      if path != [] {
        var walked := Walk(live, path, updates[i].value);
        live, err := walked.0, walked.1;
        if err.Some? {
          return;
        }
      }
    }
    err := None;
  }

  function WalkAll(doc: Fields, updates: seq<Update>): (Fields, Option<string>)
    decreases |updates|
  {
    if updates == [] then (doc, None)
    else if PathOf(updates[0]) == [] then WalkAll(doc, updates[1..])
    else
      var (next, err) := Walk(doc, PathOf(updates[0]), updates[0].value);
      if err.Some? then (next, err) else WalkAll(next, updates[1..])
  }

  /** The updates that ran before the first failure. */
  function Done(doc: Fields, updates: seq<Update>): (k: nat)
    ensures k <= |updates|
    decreases |updates|
  {
    if updates == [] then 0
    else if PathOf(updates[0]) == [] then 1 + Done(doc, updates[1..])
    else
      match Put(doc, PathOf(updates[0]), updates[0].value)
      case Err(_) => 0
      case Ok(next) => 1 + Done(next, updates[1..])
  }

  lemma {:induction false} ApplyCons(doc: Fields, u: Update, rest: seq<Update>)
    ensures ApplyAll(doc, [u] + rest) ==
            if PathOf(u) == [] then ApplyAll(doc, rest)
            else match Put(doc, PathOf(u), u.value) case Err(e) => Err(e) case Ok(next) => ApplyAll(next, rest)
  {
    assert ([u] + rest)[1..] == rest;
  }

  lemma {:induction false} WalkedIsPrefix(doc: Fields, updates: seq<Update>)
    ensures var k := Done(doc, updates);
            && ApplyAll(doc, updates[..k]) == Ok(WalkAll(doc, updates).0)
            && (WalkAll(doc, updates).1 == None <==> k == |updates|)
            && (WalkAll(doc, updates).1 == None <==> ApplyAll(doc, updates).Ok?)
            && (k < |updates| ==>
                  && PathOf(updates[k]) != []
                  && ApplyAll(doc, updates) == Err(WalkAll(doc, updates).1.value)
                  && Put(WalkAll(doc, updates).0, PathOf(updates[k]), updates[k].value) == Err(WalkAll(doc, updates).1.value))
    decreases |updates|
  {
    if updates != [] {
      var k := Done(doc, updates);
      var path := PathOf(updates[0]);
      if path == [] {
        WalkedIsPrefix(doc, updates[1..]);
        assert updates[..k] == [updates[0]] + updates[1..][..k - 1];
        ApplyCons(doc, updates[0], updates[1..][..k - 1]);
      } else {
        FailedWalkLeavesNothing(doc, path, updates[0].value);
        var put := Put(doc, path, updates[0].value);
        if put.Ok? {
          WalkedIsPrefix(put.value, updates[1..]);
          assert updates[..k] == [updates[0]] + updates[1..][..k - 1];
          ApplyCons(doc, updates[0], updates[1..][..k - 1]);
        }
      }
    }
  }

  /** A list that fails leaves on the decoded copy exactly what the updates before the
      failing one did: the copy is as it was if and only if they cancel out. The copy
      is dropped, so nothing of this is stored. */
  lemma FailedListLeavesPrefix(doc: Fields, updates: seq<Update>)
    ensures var k := Done(doc, updates);
            && ApplyAll(doc, updates[..k]).Ok?
            && WalkAll(doc, updates).0 == ApplyAll(doc, updates[..k]).value
            && (WalkAll(doc, updates).1 == None <==> k == |updates|)
            && (WalkAll(doc, updates).1 == None <==> ApplyAll(doc, updates).Ok?)
            && (k < |updates| ==>
                  && PathOf(updates[k]) != []
                  && ApplyAll(doc, updates) == Err(WalkAll(doc, updates).1.value)
                  && Put(ApplyAll(doc, updates[..k]).value, PathOf(updates[k]), updates[k].value) == Err(WalkAll(doc, updates).1.value))
            && (WalkAll(doc, updates).0 == doc <==> ApplyAll(doc, updates[..k]) == Ok(doc))
  {
    WalkedIsPrefix(doc, updates);
  }

  /** A second update that fails leaves the first one's change on the copy. */
  lemma PartialChangeHappens()
    ensures var doc: Fields := map["b" := Str("x")];
            var updates := [Update("a", [], Some(Bool(true))), Update("", ["b", "c"], Some(Bool(true)))];
            WalkAll(doc, updates) == (doc["a" := Bool(true)], Some("b"))
  {
    var doc: Fields := map["b" := Str("x")];
    var second := Update("", ["b", "c"], Some(Bool(true)));
    assert WalkAll(doc["a" := Bool(true)], [second]) == (doc["a" := Bool(true)], Some("b"));
    var updates := [Update("a", [], Some(Bool(true))), second];
    assert updates[1..] == [second];
  }
}
