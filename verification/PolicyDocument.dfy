/** Whole policies as documents and back: siblings are reordered, meaning is kept. */
module PolicyDocument {
  import opened Ordering
  import opened Text
  import opened AccessPaths
  import opened AccessRules
  import opened PercentEncoding
  import opened AccessDocument

  // ---- Directives ------------------------------------------------------------------------

  function EffectName(e: Effect): string {
    match e
    case Allow => "allow"
    case Deny => "deny"
    case Audit => "audit"
    case IgnoreAudit => "ignore-audit"
  }

  function EffectNamed(text: string): Option<Effect> {
    if text == "allow" then Some(Allow)
    else if text == "deny" then Some(Deny)
    else if text == "audit" then Some(Audit)
    else if text == "ignore-audit" then Some(IgnoreAudit)
    else None
  }

  /** parseEffect */
  function ParsedEffect(text: string): Option<Effect> {
    EffectNamed(Fold(text))
  }

  lemma EffectRoundTrips(e: Effect)
    ensures ParsedEffect(EffectName(e)) == Some(e)
  {
    match e {
      case Allow => PlainFolds("allow");
      case Deny => PlainFolds("deny");
      case Audit => PlainFolds("audit");
      case IgnoreAudit => PlainFolds("ignore-audit");
    }
  }

  /** documentRuleFromRule */
  function EncodedDirective(rule: Rule): Result<DocRule, DocError>
    requires rule.Directive?
  {
    if Blank(rule.name) then Err(NotSerializable)
    else
      match OperationNames(rule.operations)
      case Err(e) => Err(e)
      case Ok(names) => Ok(DocRule(rule.name, EffectName(rule.effect), names))
  }

  /** ruleFromDocumentRule; directive trims the name once more. */
  function DecodedDirective(doc: DocRule, allowed: set<Effect>): (r: Result<Rule, DocError>)
    ensures r.Ok? ==> r.value.Directive?
  {
    var id := Trim(doc.id);
    if id == "" then Err(RuleIdRequired)
    else
      match ParsedOperations(OperationWords, doc.operations)
      case Err(e) => Err(e)
      case Ok(ops) =>
        match ParsedEffect(doc.effect)
        case None => Err(UnknownEffect)
        case Some(e) => if e !in allowed then Err(EffectNotValid) else Ok(Directive(e, BitsOf(ops), Trim(id)))
  }

  lemma {:induction false} TrimLeftBlank(s: string)
    ensures TrimLeft(s) == "" <==> Blank(s)
  {
    if s != "" && IsSpace(s[0]) {
      TrimLeftBlank(s[1..]);
      assert forall i | 0 < i < |s| :: s[i] == s[1..][i - 1];
    }
  }

  lemma TrimmedBlank(s: string)
    requires Trim(s) == s
    ensures s == "" <==> Blank(s)
  {
    TrimLeftBlank(s);
  }

  /** A named directive with a valid set of operations and a valid effect travels. */
  lemma DirectiveRoundTripsIff(rule: Rule, allowed: set<Effect>)
    requires rule.Directive? && Trim(rule.name) == rule.name
    ensures (EncodedDirective(rule).Ok? && DecodedDirective(EncodedDirective(rule).value, allowed) == Ok(rule)) <==>
            !Blank(rule.name) && ValidSet(rule.operations) && rule.effect in allowed
  {
    TrimmedBlank(rule.name);
    OperationsRoundTrip(rule.operations);
    EffectRoundTrips(rule.effect);
  }

  // ---- Scopes ------------------------------------------------------------------------------

  /** What the rule constructors build: trimmed names and well-formed paths. */
  ghost predicate Built(rule: Rule) {
    match rule
    case Directive(_, _, name) => Trim(name) == name
    case Scope(pattern, children) => WellFormed(pattern) && BytePath(pattern) && forall c | c in children :: Built(c)
    case GroupScope(_, children) => forall c | c in children :: Built(c)
    case OpaqueScope(children) => forall c | c in children :: Built(c)
  }

  datatype DocChildren = DocChildren(rules: seq<DocRule>, scopes: seq<DocScope>)

  function ScopeWith(path: string, group: string, opaqueQuery: bool, c: DocChildren): DocScope {
    DocScope(path, group, opaqueQuery, c.rules, c.scopes)
  }

  /** documentScopeFromRule: a bare directive becomes a root scope of its own. */
  function EncodedRule(rule: Rule): Result<DocScope, DocError>
    requires Built(rule)
    decreases rule, 0
  {
    match rule
    case Directive(_, _, _) => (
      match EncodedDirective(rule)
      case Err(e) => Err(e)
      case Ok(d) => Ok(DocScope("/", "", false, [d], [])))
    case Scope(pattern, children) => (
      match DocumentPath(pattern)
      case Err(e) => Err(e)
      case Ok(path) =>
        match EncodedChildren(children)
        case Err(e) => Err(e)
        case Ok(c) => Ok(ScopeWith(path, "", false, c)))
    case GroupScope(resource, children) => (
      match EncodedChildren(children)
      case Err(e) => Err(e)
      case Ok(c) => Ok(ScopeWith("", resource, false, c)))
    case OpaqueScope(children) => (
      match EncodedChildren(children)
      case Err(e) => Err(e)
      case Ok(c) => Ok(ScopeWith("", "", true, c)))
  }

  /** Directives and scopes are listed apart, each in declaration order. */
  function EncodedChildren(children: seq<Rule>): Result<DocChildren, DocError>
    requires forall c | c in children :: Built(c)
    decreases children
  {
    if children == [] then Ok(DocChildren([], []))
    else
      var n := |children| - 1;
      match EncodedChildren(children[..n])
      case Err(e) => Err(e)
      case Ok(c) => WithChild(c, children[n])
  }

  function WithChild(c: DocChildren, child: Rule): Result<DocChildren, DocError>
    requires Built(child)
    decreases child, 1
  {
    if child.Directive? then
      match EncodedDirective(child)
      case Err(e) => Err(e)
      case Ok(d) => Ok(c.(rules := c.rules + [d]))
    else
      match EncodedRule(child)
      case Err(e) => Err(e)
      case Ok(s) => Ok(c.(scopes := c.scopes + [s]))
  }

  lemma {:induction false} EncodingStops(children: seq<Rule>, i: nat)
    requires i <= |children| && (forall c | c in children :: Built(c)) && EncodedChildren(children[..i]).Err?
    ensures EncodedChildren(children) == EncodedChildren(children[..i])
    decreases |children|
  {
    if i == |children| {
      assert children[..i] == children;
    } else {
      assert children[..|children| - 1][..i] == children[..i];
      EncodingStops(children[..|children| - 1], i);
    }
  }

  method DocumentScopeFromRule(rule: Rule) returns (r: Result<DocScope, DocError>)
    requires Built(rule)
    ensures r == EncodedRule(rule)
    decreases rule
  {
    var path, group, opaqueQuery := "", "", false;
    match rule {
      case Directive(_, _, _) =>
        var d := EncodedDirective(rule);
        match d {
          case Err(e) => return Err(e);
          case Ok(doc) => return Ok(DocScope("/", "", false, [doc], []));
        }
      case Scope(pattern, _) =>
        var written := WritePath(pattern);
        if written.Err? {
          return Err(written.error);
        }
        path := written.value;
      case GroupScope(resource, _) =>
        group := resource;
      case OpaqueScope(_) =>
        opaqueQuery := true;
    }
    var rules: seq<DocRule>, scopes: seq<DocScope> := [], [];
    for i := 0 to |rule.children|
      invariant EncodedChildren(rule.children[..i]) == Ok(DocChildren(rules, scopes))
    {
      var child := rule.children[i];
      assert rule.children[..i + 1][..i] == rule.children[..i];
      assert forall c | c in rule.children[..i + 1] :: c in rule.children;
      if child.Directive? {
        var d := EncodedDirective(child);
        if d.Err? {
          EncodingStops(rule.children, i + 1);
          return Err(d.error);
        }
        rules := rules + [d.value];
        continue;
      }
      var s := DocumentScopeFromRule(child);
      if s.Err? {
        EncodingStops(rule.children, i + 1);
        return Err(s.error);
      }
      scopes := scopes + [s.value];
    }
    assert rule.children[..|rule.children|] == rule.children;
    r := Ok(DocScope(path, group, opaqueQuery, rules, scopes));
  }

  predicate OneSelector(doc: DocScope) {
    (if doc.path != "" then 1 else 0) + (if doc.collectionGroup != "" then 1 else 0) + (if doc.opaqueQuery then 1 else 0) == 1
  }

  function DecodedRules(docs: seq<DocRule>, allowed: set<Effect>): (r: Result<seq<Rule>, DocError>)
    ensures r.Ok? ==> |r.value| == |docs|
  {
    if docs == [] then Ok([])
    else
      var n := |docs| - 1;
      match DecodedRules(docs[..n], allowed)
      case Err(e) => Err(e)
      case Ok(rules) =>
        match DecodedDirective(docs[n], allowed)
        case Err(e) => Err(e)
        case Ok(rule) => Ok(rules + [rule])
  }

  /** ruleFromDocumentScope: directives first, then scopes, then the path. */
  function DecodedScope(doc: DocScope, allowed: set<Effect>): Result<Rule, DocError>
    decreases doc, 0
  {
    if !OneSelector(doc) then Err(Selectors)
    else
      match DecodedRules(doc.rules, allowed)
      case Err(e) => Err(e)
      case Ok(rules) =>
        match DecodedScopes(doc.scopes, allowed)
        case Err(e) => Err(e)
        case Ok(scopes) => WithSelector(doc, rules + scopes)
  }

  function WithSelector(doc: DocScope, children: seq<Rule>): Result<Rule, DocError> {
    if children == [] then Err(EmptyScope)
    else if doc.path != "" then
      match ParsedPath(doc.path)
      case Err(e) => Err(e)
      case Ok(pattern) => Ok(Scope(pattern, children))
    else if doc.collectionGroup != "" then Ok(GroupScope(doc.collectionGroup, children))
    else Ok(OpaqueScope(children))
  }

  function DecodedScopes(docs: seq<DocScope>, allowed: set<Effect>): (r: Result<seq<Rule>, DocError>)
    ensures r.Ok? ==> |r.value| == |docs|
    decreases docs
  {
    if docs == [] then Ok([])
    else
      var n := |docs| - 1;
      match DecodedScopes(docs[..n], allowed)
      case Err(e) => Err(e)
      case Ok(rules) =>
        match DecodedScope(docs[n], allowed)
        case Err(e) => Err(e)
        case Ok(rule) => Ok(rules + [rule])
  }

  lemma {:induction false} DecodingRulesStops(docs: seq<DocRule>, allowed: set<Effect>, i: nat)
    requires i <= |docs| && DecodedRules(docs[..i], allowed).Err?
    ensures DecodedRules(docs, allowed) == DecodedRules(docs[..i], allowed)
    decreases |docs|
  {
    if i == |docs| {
      assert docs[..i] == docs;
    } else {
      assert docs[..|docs| - 1][..i] == docs[..i];
      DecodingRulesStops(docs[..|docs| - 1], allowed, i);
    }
  }

  lemma {:induction false} DecodingScopesStops(docs: seq<DocScope>, allowed: set<Effect>, i: nat)
    requires i <= |docs| && DecodedScopes(docs[..i], allowed).Err?
    ensures DecodedScopes(docs, allowed) == DecodedScopes(docs[..i], allowed)
    decreases |docs|
  {
    if i == |docs| {
      assert docs[..i] == docs;
    } else {
      assert docs[..|docs| - 1][..i] == docs[..i];
      DecodingScopesStops(docs[..|docs| - 1], allowed, i);
    }
  }

  method RulesFromDocuments(docs: seq<DocRule>, allowed: set<Effect>) returns (r: Result<seq<Rule>, DocError>)
    ensures r == DecodedRules(docs, allowed)
  {
    var rules: seq<Rule> := [];
    for i := 0 to |docs|
      invariant DecodedRules(docs[..i], allowed) == Ok(rules)
    {
      assert docs[..i + 1][..i] == docs[..i];
      var rule := DecodedDirective(docs[i], allowed);
      if rule.Err? {
        DecodingRulesStops(docs, allowed, i + 1);
        return Err(rule.error);
      }
      rules := rules + [rule.value];
    }
    assert docs[..|docs|] == docs;
    r := Ok(rules);
  }

  method RuleFromDocumentScope(doc: DocScope, allowed: set<Effect>) returns (r: Result<Rule, DocError>)
    ensures r == DecodedScope(doc, allowed)
    decreases doc
  {
    var selectors := 0;
    if doc.path != "" {
      selectors := selectors + 1;
    }
    if doc.collectionGroup != "" {
      selectors := selectors + 1;
    }
    if doc.opaqueQuery {
      selectors := selectors + 1;
    }
    if selectors != 1 {
      return Err(Selectors);
    }
    var decoded := RulesFromDocuments(doc.rules, allowed);
    if decoded.Err? {
      return Err(decoded.error);
    }
    var rules := decoded.value;
    var scopes: seq<Rule> := [];
    for i := 0 to |doc.scopes|
      invariant DecodedScopes(doc.scopes[..i], allowed) == Ok(scopes)
    {
      assert doc.scopes[..i + 1][..i] == doc.scopes[..i];
      var child := RuleFromDocumentScope(doc.scopes[i], allowed);
      if child.Err? {
        DecodingScopesStops(doc.scopes, allowed, i + 1);
        return Err(child.error);
      }
      scopes := scopes + [child.value];
    }
    assert doc.scopes[..|doc.scopes|] == doc.scopes;
    var children := rules + scopes;
    if |children| == 0 {
      return Err(EmptyScope);
    }
    if doc.path != "" {
      var pattern := ParseDocumentPath(doc.path);
      match pattern {
        case Err(e) => return Err(e);
        case Ok(p) => return Ok(Scope(p, children));
      }
    }
    r := if doc.collectionGroup != "" then Ok(GroupScope(doc.collectionGroup, children)) else Ok(OpaqueScope(children));
  }

  // ---- What a round trip gives back ------------------------------------------------------------

  function Directives(children: seq<Rule>): seq<Rule> {
    if children == [] then []
    else
      var n := |children| - 1;
      Directives(children[..n]) + if children[n].Directive? then [children[n]] else []
  }

  /** The scopes among the children, each reordered inside. */
  function Scopes(children: seq<Rule>): seq<Rule>
    decreases children
  {
    if children == [] then []
    else
      var n := |children| - 1;
      Scopes(children[..n]) + if children[n].Directive? then [] else [Reordered(children[n])]
  }

  /** Directives before scopes, at every level. */
  function Reordered(rule: Rule): Rule
    decreases rule, 0
  {
    match rule
    case Directive(_, _, _) => rule
    case Scope(pattern, children) => Scope(pattern, Directives(children) + Scopes(children))
    case GroupScope(resource, children) => GroupScope(resource, Directives(children) + Scopes(children))
    case OpaqueScope(children) => OpaqueScope(Directives(children) + Scopes(children))
  }

  /** At top level a bare directive comes back inside a root scope. */
  function Wrapped(rule: Rule): Rule {
    if rule.Directive? then Scope([], [rule]) else Reordered(rule)
  }

  /** Encoding and decoding one top-level rule. */
  function Trip(rule: Rule, allowed: set<Effect>): Result<Rule, DocError>
    requires Built(rule)
  {
    match EncodedRule(rule)
    case Err(e) => Err(e)
    case Ok(doc) => DecodedScope(doc, allowed)
  }

  /** What travels: named directives of the policy's effects, non-empty scopes, paths
      of any ids and non-empty text other than a lone star. */
  predicate PortableRule(rule: Rule, allowed: set<Effect>) {
    match rule
    case Directive(effect, operations, name) => !Blank(name) && ValidSet(operations) && effect in allowed
    case Scope(pattern, children) => PortablePath(pattern) && children != [] && forall c | c in children :: PortableRule(c, allowed)
    case GroupScope(resource, children) => resource != "" && children != [] && forall c | c in children :: PortableRule(c, allowed)
    case OpaqueScope(children) => children != [] && forall c | c in children :: PortableRule(c, allowed)
  }

  /** The children's documents decode to the children, directives first. */
  ghost predicate ChildrenTravel(children: seq<Rule>, allowed: set<Effect>)
    requires forall c | c in children :: Built(c)
  {
    var docs := EncodedChildren(children);
    && docs.Ok?
    && DecodedRules(docs.value.rules, allowed) == Ok(Directives(children))
    && DecodedScopes(docs.value.scopes, allowed) == Ok(Scopes(children))
  }

  lemma {:induction false} ChildCounts(children: seq<Rule>)
    requires (forall c | c in children :: Built(c)) && EncodedChildren(children).Ok?
    ensures |EncodedChildren(children).value.rules| == |Directives(children)|
    ensures |EncodedChildren(children).value.scopes| == |Scopes(children)|
    ensures |Directives(children)| + |Scopes(children)| == |children|
  {
    if children != [] {
      ChildCounts(children[..|children| - 1]);
    }
  }

  lemma RulesSnoc(docs: seq<DocRule>, doc: DocRule, rules: seq<Rule>, rule: Rule, allowed: set<Effect>)
    ensures DecodedRules(docs + [doc], allowed) == Ok(rules + [rule]) <==>
            DecodedRules(docs, allowed) == Ok(rules) && DecodedDirective(doc, allowed) == Ok(rule)
  {
    assert (docs + [doc])[..|docs|] == docs;
    if DecodedRules(docs, allowed).Ok? && DecodedDirective(doc, allowed).Ok? {
      SnocRules(DecodedRules(docs, allowed).value, DecodedDirective(doc, allowed).value, rules, rule);
    }
  }

  lemma ScopesSnoc(docs: seq<DocScope>, doc: DocScope, rules: seq<Rule>, rule: Rule, allowed: set<Effect>)
    ensures DecodedScopes(docs + [doc], allowed) == Ok(rules + [rule]) <==>
            DecodedScopes(docs, allowed) == Ok(rules) && DecodedScope(doc, allowed) == Ok(rule)
  {
    assert (docs + [doc])[..|docs|] == docs;
    if DecodedScopes(docs, allowed).Ok? && DecodedScope(doc, allowed).Ok? {
      SnocRules(DecodedScopes(docs, allowed).value, DecodedScope(doc, allowed).value, rules, rule);
    }
  }

  lemma SnocRules(a: seq<Rule>, x: Rule, b: seq<Rule>, y: Rule)
    ensures a + [x] == b + [y] <==> a == b && x == y
  {
    if a + [x] == b + [y] {
      assert (a + [x])[..|a|] == a && (b + [y])[..|b|] == b;
      assert (a + [x])[|a|] == x && (b + [y])[|b|] == y;
    }
  }

  lemma ChildrenSnoc(before: seq<Rule>, child: Rule)
    requires (forall c | c in before :: Built(c)) && Built(child)
    ensures forall c | c in before + [child] :: Built(c)
    ensures EncodedChildren(before).Err? ==> EncodedChildren(before + [child]) == EncodedChildren(before)
    ensures EncodedChildren(before).Ok? ==> EncodedChildren(before + [child]) == WithChild(EncodedChildren(before).value, child)
    ensures child.Directive? ==> Directives(before + [child]) == Directives(before) + [child] && Scopes(before + [child]) == Scopes(before)
    ensures !child.Directive? ==> Directives(before + [child]) == Directives(before) && Scopes(before + [child]) == Scopes(before) + [Reordered(child)]
  {
    assert (before + [child])[..|before|] == before;
    assert Scopes(before) + [] == Scopes(before) && Directives(before) + [] == Directives(before);
  }

  /** One more directive travels exactly when it does by itself. */
  lemma DirectiveTravels(before: seq<Rule>, child: Rule, allowed: set<Effect>)
    requires (forall c | c in before :: Built(c)) && Built(child) && child.Directive?
    ensures forall c | c in before + [child] :: Built(c)
    ensures ChildrenTravel(before + [child], allowed) <==>
            ChildrenTravel(before, allowed) && EncodedDirective(child).Ok? && DecodedDirective(EncodedDirective(child).value, allowed) == Ok(child)
  {
    ChildrenSnoc(before, child);
    if EncodedChildren(before).Ok? && EncodedDirective(child).Ok? {
      RulesSnoc(EncodedChildren(before).value.rules, EncodedDirective(child).value, Directives(before), child, allowed);
    }
  }

  /** One more scope travels exactly when it does by itself. */
  lemma ScopeTravels(before: seq<Rule>, child: Rule, allowed: set<Effect>)
    requires (forall c | c in before :: Built(c)) && Built(child) && !child.Directive?
    ensures forall c | c in before + [child] :: Built(c)
    ensures ChildrenTravel(before + [child], allowed) <==> ChildrenTravel(before, allowed) && Trip(child, allowed) == Ok(Reordered(child))
  {
    ChildrenSnoc(before, child);
    if EncodedChildren(before).Ok? && EncodedRule(child).Ok? {
      ScopesSnoc(EncodedChildren(before).value.scopes, EncodedRule(child).value, Scopes(before), Reordered(child), allowed);
    }
  }

  lemma {:induction false} ChildrenTravelIff(children: seq<Rule>, allowed: set<Effect>)
    requires forall c | c in children :: Built(c)
    ensures ChildrenTravel(children, allowed) <==> forall c | c in children :: PortableRule(c, allowed)
    decreases children
  {
    if children != [] {
      var n := |children| - 1;
      var before, child := children[..n], children[n];
      assert children == before + [child];
      ChildrenTravelIff(before, allowed);
      assert child in children && forall c | c in before :: c in children;
      assert Built(child);
      if child.Directive? {
        DirectiveRoundTripsIff(child, allowed);
        DirectiveTravels(before, child, allowed);
      } else {
        RuleRoundTripsIff(child, allowed);
        ScopeTravels(before, child, allowed);
      }
      assert forall c :: c in children <==> c in before || c == child;
    }
  }

  lemma ConcatChildren(a: seq<Rule>, b: seq<Rule>, a': seq<Rule>, b': seq<Rule>)
    requires |a| == |a'| || |b| == |b'|
    ensures a + b == a' + b' <==> a == a' && b == b'
  {
    if a + b == a' + b' {
      assert |a| == |a'|;
      assert (a + b)[..|a|] == a && (a' + b')[..|a'|] == a';
      assert (a + b)[|a|..] == b && (a' + b')[|a'|..] == b';
    }
  }

  /** A scope's children decode to the wanted list exactly when they travel. */
  lemma ChildrenDecodeIff(children: seq<Rule>, allowed: set<Effect>)
    requires (forall c | c in children :: Built(c)) && EncodedChildren(children).Ok?
    ensures var docs := EncodedChildren(children).value;
            var rules, scopes := DecodedRules(docs.rules, allowed), DecodedScopes(docs.scopes, allowed);
            && (rules.Ok? && scopes.Ok? ==> |rules.value + scopes.value| == |children|)
            && ((rules.Ok? && scopes.Ok? && rules.value + scopes.value == Directives(children) + Scopes(children)) <==>
                ChildrenTravel(children, allowed))
  {
    ChildCounts(children);
    var docs := EncodedChildren(children).value;
    var rules, scopes := DecodedRules(docs.rules, allowed), DecodedScopes(docs.scopes, allowed);
    if rules.Ok? && scopes.Ok? {
      ConcatChildren(rules.value, scopes.value, Directives(children), Scopes(children));
    }
  }

  /** A rule comes back as itself, directives first, if and only if it is portable. */
  lemma {:induction false} RuleRoundTripsIff(rule: Rule, allowed: set<Effect>)
    requires Built(rule)
    ensures Trip(rule, allowed) == Ok(Wrapped(rule)) <==> PortableRule(rule, allowed)
    decreases rule
  {
    match rule
    case Directive(_, _, _) =>
      DirectiveRoundTripsIff(rule, allowed);
      TopDirectiveTrips(rule, allowed);
    case Scope(pattern, children) =>
      ChildrenTravelIff(children, allowed);
      PathRoundTripsIff(pattern);
      if EncodedChildren(children).Ok? { ChildrenDecodeIff(children, allowed); }
    case GroupScope(resource, children) =>
      ChildrenTravelIff(children, allowed);
      if EncodedChildren(children).Ok? { ChildrenDecodeIff(children, allowed); }
    case OpaqueScope(children) =>
      ChildrenTravelIff(children, allowed);
      if EncodedChildren(children).Ok? { ChildrenDecodeIff(children, allowed); }
  }

  lemma TopDirectiveTrips(rule: Rule, allowed: set<Effect>)
    requires rule.Directive? && Built(rule)
    ensures Trip(rule, allowed) == Ok(Scope([], [rule])) <==>
            EncodedDirective(rule).Ok? && DecodedDirective(EncodedDirective(rule).value, allowed) == Ok(rule)
  {
    if EncodedDirective(rule).Ok? {
      RootScopeDecodes(EncodedDirective(rule).value, allowed);
    }
  }

  lemma RootScopeDecodes(d: DocRule, allowed: set<Effect>)
    ensures DecodedScope(DocScope("/", "", false, [d], []), allowed) ==
            match DecodedDirective(d, allowed)
            case Err(e) => Err(e)
            case Ok(rule) => Ok(Scope([], [rule]))
  {
    var doc := DocScope("/", "", false, [d], []);
    TrimIsIdentity("/");
    assert ParsedPath("/") == Ok([]);
    assert [d][..0] == [] && DecodedRules([], allowed) == Ok([]);
    match DecodedDirective(d, allowed)
    case Err(e) => assert DecodedRules(doc.rules, allowed) == Err(e);
    case Ok(rule) =>
      assert [] + [rule] == [rule] && [rule] + [] == [rule];
      assert DecodedRules(doc.rules, allowed) == Ok([rule]);
  }
}
