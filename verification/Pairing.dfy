/** Which rows a join pairs, on values: those whose two sides of every ON condition are
    there and are equal numbers or equal values. */
module Pairing {
  import opened Ordering
  import opened Values
  import opened Where
  import opened T = Table
  import opened Resolving
  import opened Join

  /** A side of a condition has this value: a constant, or a field that the row of its
      source has. */
  predicate Has(e: Expr, sources: Sources, known: set<string>, v: Value) {
    || e == Constant(v)
    || (e.FieldRef? && e.source in known && e.source in sources && e.name in sources[e.source] && sources[e.source][e.name] == v)
  }

  /** Equal numbers, whatever their types, or equal values. */
  predicate Same(v: Value, w: Value) {
    v == w || (Number(v).Some? && Number(v) == Number(w))
  }

  /** An equality both of whose sides are there and are the same. */
  ghost predicate Met(c: Cond, sources: Sources, known: set<string>) {
    && c.Comparison? && c.op == Equal
    && exists v, w :: Has(c.left, sources, known, v) && Has(c.right, sources, known, w) && Same(v, w)
  }

  lemma ResolvesTo(e: Expr, sources: Sources, known: set<string>, v: Value)
    ensures Has(e, sources, known, v) <==> Resolve(e, sources, known) == Ok(Resolved(v, true))
  {
  }

  /** A condition is found to hold exactly when it is met. */
  lemma MatchesIffMet(c: Cond, sources: Sources, known: set<string>)
    ensures MatchesJoin(Some(c), sources, known) == Ok(true) <==> Met(c, sources, known)
  {
    if c.Comparison? && c.op == Equal {
      forall v
        ensures Has(c.left, sources, known, v) <==> Resolve(c.left, sources, known) == Ok(Resolved(v, true))
        ensures Has(c.right, sources, known, v) <==> Resolve(c.right, sources, known) == Ok(Resolved(v, true))
      {
        ResolvesTo(c.left, sources, known, v);
        ResolvesTo(c.right, sources, known, v);
      }
      var l, r := Resolve(c.left, sources, known), Resolve(c.right, sources, known);
      if l.Ok? && r.Ok? && l.value.present && r.value.present {
        assert Has(c.left, sources, known, l.value.value) && Has(c.right, sources, known, r.value.value);
      }
    }
  }

  ghost predicate AllMet(on: seq<Cond>, sources: Sources, known: set<string>) {
    forall c | c in on :: Met(c, sources, known)
  }

  lemma {:induction false} AllMatchIff(on: seq<Cond>, sources: Sources, known: set<string>)
    ensures AllMatch(on, sources, known) == Ok(true) <==> AllMet(on, sources, known)
  {
    if on != [] {
      MatchesIffMet(on[0], sources, known);
      AllMatchIff(on[1..], sources, known);
      assert forall c :: c in on <==> c == on[0] || c in on[1..];
    }
  }

  /** The two rows belong together. */
  ghost predicate Pairs(n: Names, on: seq<Cond>, br: Row, jr: Row) {
    AllMet(on, SourcesFor(n, br.data, jr.data), Known(n))
  }

  lemma {:induction false} PartnersAre(n: Names, on: seq<Cond>, br: Row, joinRows: seq<Row>, p: JoinedRow)
    requires Partners(n, on, br, joinRows).Ok?
    ensures p in Partners(n, on, br, joinRows).value <==> exists jr :: jr in joinRows && Pairs(n, on, br, jr) && p == Pair(n, br, jr)
  {
    if joinRows != [] {
      var m := |joinRows| - 1;
      PartnersAre(n, on, br, joinRows[..m], p);
      AllMatchIff(on, SourcesFor(n, br.data, joinRows[m].data), Known(n));
      assert forall jr :: jr in joinRows <==> jr in joinRows[..m] || jr == joinRows[m];
    }
  }

  /** What one base row gives: a pair with every row it belongs together with, and under LEFT, if
      there is none, itself alone. */
  ghost predicate Gives(n: Names, left: bool, on: seq<Cond>, br: Row, joinRows: seq<Row>, p: JoinedRow) {
    || (exists jr :: jr in joinRows && Pairs(n, on, br, jr) && p == Pair(n, br, jr))
    || (left && p == Pad(n, br) && forall jr | jr in joinRows :: !Pairs(n, on, br, jr))
  }

  lemma JoinedAre(n: Names, left: bool, on: seq<Cond>, br: Row, joinRows: seq<Row>, p: JoinedRow)
    requires Joined(n, left, on, br, joinRows).Ok?
    ensures p in Joined(n, left, on, br, joinRows).value <==> Gives(n, left, on, br, joinRows, p)
  {
    var rows := Partners(n, on, br, joinRows).value;
    PartnersAre(n, on, br, joinRows, p);
    if rows == [] {
      forall jr | jr in joinRows
        ensures !Pairs(n, on, br, jr)
      {
        PartnersAre(n, on, br, joinRows, Pair(n, br, jr));
      }
    } else {
      PartnersAre(n, on, br, joinRows, rows[0]);
      assert rows[0] in rows;
    }
  }

  /** A join has exactly the rows its base rows give. */
  lemma {:induction false} JoinHas(n: Names, left: bool, on: seq<Cond>, baseRows: seq<Row>, joinRows: seq<Row>, p: JoinedRow)
    requires Combined(n, left, on, baseRows, joinRows).Ok?
    ensures p in Combined(n, left, on, baseRows, joinRows).value <==> exists br :: br in baseRows && Gives(n, left, on, br, joinRows, p)
  {
    if baseRows != [] {
      var m := |baseRows| - 1;
      JoinHas(n, left, on, baseRows[..m], joinRows, p);
      JoinedAre(n, left, on, baseRows[m], joinRows, p);
      assert forall br :: br in baseRows <==> br in baseRows[..m] || br == baseRows[m];
    }
  }

  lemma {:induction false} KeptHas(where: Option<Cond>, known: set<string>, rows: seq<JoinedRow>, p: JoinedRow)
    requires Kept(where, known, rows).Ok?
    ensures p in Kept(where, known, rows).value <==> p in rows && (where.Some? ==> Met(where.value, p.sources, known))
  {
    if rows != [] {
      var m := |rows| - 1;
      KeptHas(where, known, rows[..m], p);
      if where.Some? { MatchesIffMet(where.value, rows[m].sources, known); }
      assert p in rows <==> p in rows[..m] || p == rows[m];
    }
  }

  /** The rows of a join query: what the base rows give, of those WHERE's equality is met for. */
  lemma JoinRowsAre(n: Names, left: bool, on: seq<Cond>, where: Option<Cond>, baseRows: seq<Row>, joinRows: seq<Row>, p: JoinedRow)
    requires JoinRows(n, left, on, where, baseRows, joinRows).Ok?
    ensures p in JoinRows(n, left, on, where, baseRows, joinRows).value <==>
            && (exists br :: br in baseRows && Gives(n, left, on, br, joinRows, p))
            && (where.Some? ==> Met(where.value, p.sources, Known(n)))
  {
    var bs, js := SortBy(baseRows, ById), SortBy(joinRows, ById);
    SortIsPermutation(baseRows, ById);
    SortIsPermutation(joinRows, ById);
    JoinHas(n, left, on, bs, js, p);
    KeptHas(where, Known(n), Combined(n, left, on, bs, js).value, p);
    forall br
      ensures Gives(n, left, on, br, js, p) <==> Gives(n, left, on, br, joinRows, p)
    {
    }
  }

  /** What a pair looks like: the fields of both rows, the joined row's where both have one, and
      each source its own row. */
  lemma PairShows(n: Names, br: Row, jr: Row, k: string)
    requires n.base != n.join && n.base != "" && n.join != ""
    ensures var p := Pair(n, br, jr);
            && p.baseId == br.id
            && p.sources[""] == br.data && p.sources[n.base] == br.data && p.sources[n.join] == jr.data
            && (k in p.merged <==> k in br.data || k in jr.data)
            && (k in p.merged ==> p.merged[k] == if k in jr.data then jr.data[k] else br.data[k])
    ensures Pad(n, br).merged == br.data && forall s | s in Pad(n, br).sources :: Pad(n, br).sources[s] == if s == n.join then map[] else br.data
  {
  }

  /** A join query is refused exactly when it does not join one source by INNER or LEFT, or an ORDER BY
      key or a column is qualified with a name it does not have, or a column is not a field. */
  lemma RejectedIff(q: JoinQuery)
    ensures Rejected(q).None? <==>
            && |q.joins| == 1 && q.joins[0].kind in {Inner, Left}
            && (forall i | 0 <= i < |q.orderBy| && q.orderBy[i].expr.FieldRef? :: q.orderBy[i].expr.source in Known(NamesOf(q)))
            && (forall i | 0 <= i < |q.columns| :: q.columns[i].expr.FieldRef? && q.columns[i].expr.source in Known(NamesOf(q)))
  {
  }
}
