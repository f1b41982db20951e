/** A policy that went through a document decides every request as before. */
module PolicyRoundTrip {
  import opened Ordering
  import opened Text
  import opened AccessPaths
  import opened AccessRules
  import opened PercentEncoding
  import opened AccessDocument
  import opened PolicyDocument

  // ---- Reordering keeps the compiled rules --------------------------------------------------

  /** Both compile, to the same rules in some order. */
  ghost predicate SameRules(a: Result<seq<Compiled>, Error>, b: Result<seq<Compiled>, Error>) {
    a.Ok? && b.Ok? && multiset(a.value) == multiset(b.value)
  }

  lemma {:induction false} ReorderedCompiles(rule: Rule, at: Place, allowed: set<Effect>, namer: Namer)
    requires CompileRule(rule, at, allowed, namer).Ok?
    ensures SameRules(CompileRule(rule, at, allowed, namer), CompileRule(Reordered(rule), at, allowed, namer))
    decreases rule
  {
    if !rule.Directive? {
      ReorderedChildren(rule.children, Inside(rule, at).value, allowed, namer);
    }
  }

  lemma {:induction false} ReorderedChildren(children: seq<Rule>, at: Place, allowed: set<Effect>, namer: Namer)
    requires CompileAll(children, at, allowed, namer).Ok?
    ensures SameRules(CompileAll(children, at, allowed, namer), CompileAll(Directives(children) + Scopes(children), at, allowed, namer))
    decreases children
  {
    if children == [] {
      assert Directives(children) + Scopes(children) == [];
    } else {
      var n := |children| - 1;
      var before, child := children[..n], children[n];
      assert children == before + [child];
      CompileSnoc(before, child, at, allowed, namer);
      ReorderedChildren(before, at, allowed, namer);
      ReorderSnoc(before, child);
      if child.Directive? {
        DirectiveJoins(before, Directives(before), child, Scopes(before), at, allowed, namer);
      } else {
        ReorderedCompiles(child, at, allowed, namer);
        ScopeJoins(before, Directives(before) + Scopes(before), child, Reordered(child), at, allowed, namer);
      }
    }
  }

  lemma ReorderSnoc(before: seq<Rule>, child: Rule)
    ensures Directives(before + [child]) + Scopes(before + [child]) ==
            if child.Directive? then Directives(before) + [child] + Scopes(before)
            else Directives(before) + Scopes(before) + [Reordered(child)]
  {
    assert (before + [child])[..|before|] == before;
  }

  lemma DirectiveJoins(before: seq<Rule>, ds: seq<Rule>, child: Rule, ss: seq<Rule>, at: Place, allowed: set<Effect>, namer: Namer)
    requires SameRules(CompileAll(before, at, allowed, namer), CompileAll(ds + ss, at, allowed, namer))
    requires CompileRule(child, at, allowed, namer).Ok?
    ensures SameRules(CompileAll(before + [child], at, allowed, namer), CompileAll(ds + [child] + ss, at, allowed, namer))
  {
    CompileSnoc(before, child, at, allowed, namer);
    MoveToFront(ds, child, ss, at, allowed, namer);
  }

  lemma ScopeJoins(before: seq<Rule>, after: seq<Rule>, child: Rule, child': Rule, at: Place, allowed: set<Effect>, namer: Namer)
    requires SameRules(CompileAll(before, at, allowed, namer), CompileAll(after, at, allowed, namer))
    requires SameRules(CompileRule(child, at, allowed, namer), CompileRule(child', at, allowed, namer))
    ensures SameRules(CompileAll(before + [child], at, allowed, namer), CompileAll(after + [child'], at, allowed, namer))
  {
    CompileSnoc(before, child, at, allowed, namer);
    CompileSnoc(after, child', at, allowed, namer);
  }

  lemma CompileSnoc(before: seq<Rule>, child: Rule, at: Place, allowed: set<Effect>, namer: Namer)
    ensures CompileAll(before + [child], at, allowed, namer).Ok? <==>
            CompileAll(before, at, allowed, namer).Ok? && CompileRule(child, at, allowed, namer).Ok?
    ensures CompileAll(before + [child], at, allowed, namer).Ok? ==>
            CompileAll(before + [child], at, allowed, namer).value ==
            CompileAll(before, at, allowed, namer).value + CompileRule(child, at, allowed, namer).value
  {
    CompileAllConcat(before, [child], at, allowed, namer);
    assert [child][1..] == [];
    if CompileRule(child, at, allowed, namer).Ok? {
      var cs := CompileRule(child, at, allowed, namer).value;
      assert cs + [] == cs;
    }
  }

  /** A bare top-level directive compiles inside its root scope as it did alone. */
  lemma WrappedCompiles(rule: Rule, allowed: set<Effect>, namer: Namer)
    requires CompileRule(rule, TOP, allowed, namer).Ok?
    ensures SameRules(CompileRule(rule, TOP, allowed, namer), CompileRule(Wrapped(rule), TOP, allowed, namer))
  {
    if rule.Directive? {
      assert TOP.prefix + [] == TOP.prefix;
      assert Inside(Scope([], [rule]), TOP) == Ok(TOP);
      CompileSnoc([], rule, TOP, allowed, namer);
      assert [] + [rule] == [rule];
    } else {
      ReorderedCompiles(rule, TOP, allowed, namer);
    }
  }

  // ---- Whole policies -----------------------------------------------------------------------------

  datatype Document = Document(apiVersion: string, kind: string, name: string, fallback: string, scopes: seq<DocScope>)

  /** What one kind of policy fixes: the document kind, its default and its effects. */
  datatype PolicyKind = PolicyKind(kind: string, fallback: string, allowed: set<Effect>)

  const ACCESS: PolicyKind := PolicyKind("AccessPolicy", "deny", {Allow, Deny})
  const AUDIT: PolicyKind := PolicyKind("AuditPolicy", "ignore-audit", {Audit, IgnoreAudit})
  const API_VERSION: string := "dalgo.io/access/v1"

  datatype PolicyError = BadDocument | BadScope(error: DocError) | NoName | BadRules(why: Error)

  datatype PolicyRules = PolicyRules(name: string, compiled: seq<Compiled>)

  /** NewPolicy: a name, and rules that compile under distinct names. */
  ghost predicate Makes(k: PolicyKind, name: string, rules: seq<Rule>, namer: Namer, p: PolicyRules) {
    var cs := CompileAll(rules, TOP, k.allowed, namer);
    name != "" && cs.Ok? && NamesDistinct(cs.value) && p == PolicyRules(name, cs.value)
  }

  method NewPolicy(k: PolicyKind, name: string, rules: seq<Rule>, namer: Namer) returns (r: Result<PolicyRules, PolicyError>)
    ensures r.Ok? ==> Makes(k, name, rules, namer, r.value)
    ensures r.Err? ==> forall p :: !Makes(k, name, rules, namer, p)
    ensures r.Err? ==> if name == "" then r == Err(NoName) else r.error.BadRules?
  {
    if name == "" {
      return Err(NoName);
    }
    var compiled := CompileRules(rules, k.allowed, namer);
    match compiled {
      case Err(e) => r := Err(BadRules(e));
      case Ok(cs) => r := Ok(PolicyRules(name, cs));
    }
  }

  function EncodedRules(rules: seq<Rule>): Result<seq<DocScope>, DocError>
    requires forall r | r in rules :: Built(r)
  {
    if rules == [] then Ok([])
    else
      var n := |rules| - 1;
      match EncodedRules(rules[..n])
      case Err(e) => Err(e)
      case Ok(docs) =>
        match EncodedRule(rules[n])
        case Err(e) => Err(e)
        case Ok(doc) => Ok(docs + [doc])
  }

  lemma {:induction false} EncodedRulesStop(rules: seq<Rule>, i: nat)
    requires i <= |rules| && (forall r | r in rules :: Built(r)) && EncodedRules(rules[..i]).Err?
    ensures EncodedRules(rules) == EncodedRules(rules[..i])
    decreases |rules|
  {
    if i == |rules| {
      assert rules[..i] == rules;
    } else {
      assert rules[..|rules| - 1][..i] == rules[..i];
      EncodedRulesStop(rules[..|rules| - 1], i);
    }
  }

  /** documentFromRules */
  method DocumentFromRules(k: PolicyKind, name: string, rules: seq<Rule>) returns (r: Result<Document, DocError>)
    requires forall rule | rule in rules :: Built(rule)
    ensures r == match EncodedRules(rules) case Err(e) => Err(e) case Ok(docs) => Ok(Document(API_VERSION, k.kind, name, k.fallback, docs))
  {
    var scopes: seq<DocScope> := [];
    for i := 0 to |rules|
      invariant EncodedRules(rules[..i]) == Ok(scopes)
    {
      assert rules[..i + 1][..i] == rules[..i];
      var scope := DocumentScopeFromRule(rules[i]);
      if scope.Err? {
        EncodedRulesStop(rules, i + 1);
        return Err(scope.error);
      }
      scopes := scopes + [scope.value];
    }
    assert rules[..|rules|] == rules;
    r := Ok(Document(API_VERSION, k.kind, name, k.fallback, scopes));
  }

  predicate GoodHeader(k: PolicyKind, doc: Document) {
    doc.apiVersion == API_VERSION && !Blank(doc.name) && doc.scopes != [] && doc.kind == k.kind && doc.fallback == k.fallback
  }

  method RulesFromDocument(docs: seq<DocScope>, allowed: set<Effect>) returns (r: Result<seq<Rule>, DocError>)
    ensures r == DecodedScopes(docs, allowed)
  {
    var rules: seq<Rule> := [];
    for i := 0 to |docs|
      invariant DecodedScopes(docs[..i], allowed) == Ok(rules)
    {
      assert docs[..i + 1][..i] == docs[..i];
      var rule := RuleFromDocumentScope(docs[i], allowed);
      if rule.Err? {
        DecodingScopesStops(docs, allowed, i + 1);
        return Err(rule.error);
      }
      rules := rules + [rule.value];
    }
    assert docs[..|docs|] == docs;
    r := Ok(rules);
  }

  method DecodePolicy(k: PolicyKind, doc: Document, namer: Namer) returns (r: Result<PolicyRules, PolicyError>)
    ensures r.Ok? ==>
              GoodHeader(k, doc) && DecodedScopes(doc.scopes, k.allowed).Ok? && Makes(k, doc.name, DecodedScopes(doc.scopes, k.allowed).value, namer, r.value)
    ensures r.Err? && GoodHeader(k, doc) && DecodedScopes(doc.scopes, k.allowed).Ok? ==>
              forall p :: !Makes(k, doc.name, DecodedScopes(doc.scopes, k.allowed).value, namer, p)
    ensures r == Err(BadDocument) <==>
              doc.apiVersion != "dalgo.io/access/v1" || doc.kind != k.kind || doc.fallback != k.fallback || Blank(doc.name) || doc.scopes == []
  {
    if doc.apiVersion != API_VERSION || Blank(doc.name) || |doc.scopes| == 0 {
      return Err(BadDocument);
    }
    if doc.kind != k.kind || doc.fallback != k.fallback {
      return Err(BadDocument);
    }
    var rules := RulesFromDocument(doc.scopes, k.allowed);
    match rules {
      case Err(e) => r := Err(BadScope(e));
      case Ok(rs) => r := NewPolicy(k, doc.name, rs, namer);
    }
  }

  function AllWrapped(rules: seq<Rule>): (r: seq<Rule>)
    ensures |r| == |rules|
  {
    seq(|rules|, i requires 0 <= i < |rules| => Wrapped(rules[i]))
  }

  lemma {:induction false} EncodeEach(rules: seq<Rule>, docs: seq<DocScope>)
    requires |rules| == |docs| && forall r | r in rules :: Built(r)
    requires forall i | 0 <= i < |rules| :: EncodedRule(rules[i]) == Ok(docs[i])
    ensures EncodedRules(rules) == Ok(docs)
  {
    if rules != [] {
      var n := |rules| - 1;
      EncodeEach(rules[..n], docs[..n]);
      assert docs == docs[..n] + [docs[n]];
    }
  }

  lemma {:induction false} DecodeEach(docs: seq<DocScope>, rules: seq<Rule>, allowed: set<Effect>)
    requires |rules| == |docs| && forall i | 0 <= i < |docs| :: DecodedScope(docs[i], allowed) == Ok(rules[i])
    ensures DecodedScopes(docs, allowed) == Ok(rules)
  {
    if docs != [] {
      var n := |docs| - 1;
      DecodeEach(docs[..n], rules[..n], allowed);
      assert DecodedScope(docs[n], allowed) == Ok(rules[n]);
      assert rules == rules[..n] + [rules[n]];
    }
  }

  lemma RulesRoundTrip(rules: seq<Rule>, allowed: set<Effect>)
    requires (forall r | r in rules :: Built(r)) && forall r | r in rules :: PortableRule(r, allowed)
    ensures EncodedRules(rules).Ok? && DecodedScopes(EncodedRules(rules).value, allowed) == Ok(AllWrapped(rules))
  {
    forall r | r in rules
      ensures EncodedRule(r).Ok? && DecodedScope(EncodedRule(r).value, allowed) == Ok(Wrapped(r))
    {
      RuleRoundTripsIff(r, allowed);
    }
    var docs := seq(|rules|, i requires 0 <= i < |rules| => assert rules[i] in rules; EncodedRule(rules[i]).value);
    EncodeEach(rules, docs);
    DecodeEach(docs, AllWrapped(rules), allowed);
  }

  lemma {:induction false} AllWrappedCompile(rules: seq<Rule>, allowed: set<Effect>, namer: Namer)
    requires CompileAll(rules, TOP, allowed, namer).Ok?
    ensures SameRules(CompileAll(rules, TOP, allowed, namer), CompileAll(AllWrapped(rules), TOP, allowed, namer))
  {
    if rules != [] {
      var n := |rules| - 1;
      assert rules == rules[..n] + [rules[n]];
      CompileSnoc(rules[..n], rules[n], TOP, allowed, namer);
      AllWrappedCompile(rules[..n], allowed, namer);
      WrappedCompiles(rules[n], allowed, namer);
      ScopeJoins(rules[..n], AllWrapped(rules[..n]), rules[n], Wrapped(rules[n]), TOP, allowed, namer);
      assert AllWrapped(rules) == AllWrapped(rules[..n]) + [Wrapped(rules[n])];
    }
  }

  lemma PermutedNames(cs: seq<Compiled>, ds: seq<Compiled>)
    requires multiset(cs) == multiset(ds) && NamesDistinct(cs)
    ensures NamesDistinct(ds)
  {
    assert Distinct(cs);
    PermutedDistinct(cs, ds);
    SamePopulation(cs, ds);
    forall i, j | 0 <= i < j < |ds|
      ensures ds[i].name != ds[j].name
    {
      assert ds[i] in cs && ds[j] in cs;
      if ds[i].name == ds[j].name { ByNameUnique(cs, ds[i], ds[j]); }
    }
  }

  lemma {:induction false} CompiledEffects(rules: seq<Rule>, at: Place, allowed: set<Effect>, namer: Namer)
    requires CompileAll(rules, at, allowed, namer).Ok?
    ensures forall c | c in CompileAll(rules, at, allowed, namer).value :: c.effect in allowed
    decreases rules
  {
    if rules != [] {
      CompiledEffects(rules[1..], at, allowed, namer);
      if !rules[0].Directive? {
        CompiledEffects(rules[0].children, Inside(rules[0], at).value, allowed, namer);
      }
    }
  }

  /** The round trip preserves meaning: an encoded policy of portable rules decodes to
      a policy of the same name that decides every request by the same rule. */
  lemma PolicyRoundTrips(k: PolicyKind, name: string, rules: seq<Rule>, namer: Namer, p: PolicyRules, operation: Operations, resource: Resource)
    requires k in {ACCESS, AUDIT} && Makes(k, name, rules, namer, p) && !Blank(name) && rules != []
    requires (forall r | r in rules :: Built(r)) && forall r | r in rules :: PortableRule(r, k.allowed)
    ensures EncodedRules(rules).Ok?
    ensures var doc := Document(API_VERSION, k.kind, name, k.fallback, EncodedRules(rules).value);
            && GoodHeader(k, doc)
            && DecodedScopes(doc.scopes, k.allowed) == Ok(AllWrapped(rules))
            && exists q :: Makes(k, name, AllWrapped(rules), namer, q)
                 && Winner(q.compiled, operation, resource) == Winner(p.compiled, operation, resource)
                 && (Allowed(q.compiled, operation, resource) <==> Allowed(p.compiled, operation, resource))
  {
    RulesRoundTrip(rules, k.allowed);
    AllWrappedCompile(rules, k.allowed, namer);
    var cs := CompileAll(AllWrapped(rules), TOP, k.allowed, namer).value;
    PermutedNames(p.compiled, cs);
    CompiledEffects(rules, TOP, k.allowed, namer);
    WinnerForgetsOrder(p.compiled, cs, k.allowed, operation, resource);
    assert Makes(k, name, AllWrapped(rules), namer, PolicyRules(name, cs));
    assert EncodedRules(rules).value != [] by { assert |AllWrapped(rules)| == |rules|; }
  }

  // ---- Where the round trip widens a policy ------------------------------------------------------

  /** A scope for the record whose id is a lone star. */
  function StarPath(): Path {
    [Coll("users"), Id(TextId("string", "*"))]
  }

  /** It is written escaped and read back as any id: the rule now covers every user. */
  lemma StarWidens(other: string)
    requires other != "*"
    ensures BytePath(StarPath()) && WellFormed(StarPath()) && !PortablePath(StarPath())
    ensures DocumentPath(StarPath()).Ok? && ParsedPath(DocumentPath(StarPath()).value) == Ok([Coll("users"), AnyId])
    ensures var user := [Coll("users"), Id(TextId("string", other))];
            !Matches(StarPath(), user) && Matches([Coll("users"), AnyId], user)
  {
    StarIsReadAsAny();
    StarMatches(Id(TextId("string", "*")), Id(TextId("string", other)));
    assert !Portable(StarPath()[1]);
  }

  lemma StarMatches(star: Segment, id: Segment)
    requires star.Id? && id.Id? && !EqualId(star.value, id.value)
    ensures !Matches([Coll("users"), star], [Coll("users"), id]) && Matches([Coll("users"), AnyId], [Coll("users"), id])
  {
    assert !SegmentMatches([Coll("users"), star][1], [Coll("users"), id][1]);
  }

  lemma StarIsReadAsAny()
    ensures BytePath(StarPath()) && WellFormed(StarPath())
    ensures DocumentPath(StarPath()).Ok? && ParsedPath(DocumentPath(StarPath()).value) == Ok([Coll("users"), AnyId])
  {
    StarIsWritten();
    WrittenPathSplits(StarPath());
    StarPartsRead();
  }

  lemma StarIsWritten()
    ensures BytePath(StarPath()) && WellFormed(StarPath()) && forall i | 0 <= i < 2 :: Textual(StarPath()[i])
  {
    assert !IsSpace("users"[0]);
  }

  lemma StarPartsRead()
    requires BytePath(StarPath()) && forall i | 0 <= i < 2 :: Textual(StarPath()[i])
    ensures ReadPath(EncodedParts(StarPath())) == Ok([Coll("users"), AnyId])
  {
    var p, q := StarPath(), [Coll("users"), AnyId];
    var parts := EncodedParts(p);
    StarReadsAsAny(p[1]);
    assert !IsSpace("users"[0]);
    SegmentRoundTrips(p[0], 0);
    PartsReadAs(parts, q, 2);
    assert parts[..2] == parts && q[..2] == q;
  }

  lemma StarReadsAsAny(s: Segment)
    requires s == Id(TextId("string", "*"))
    ensures Textual(s) && ByteSegment(s) && ReadsAs(Encoded(s), 1, AnyId)
  {
    EscapeRoundTrips("*");
  }

  /** A collection named by a lone star is written but never read back. */
  lemma StarCollectionFails()
    ensures DocumentPath([Coll("*")]).Ok? && ParsedPath(DocumentPath([Coll("*")]).value) != Ok([Coll("*")])
  {
    var p := [Coll("*")];
    assert !Portable(p[0]);
    assert WellFormed(p) by { assert !IsSpace("*"[0]); }
    PathRoundTripsIff(p);
  }
}
