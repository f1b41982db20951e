/** The access decision on the rules as they are written: which directives apply to a
    resource, by the scopes around them, and which of them decides. */
module AccessTree {
  import opened Ordering
  import opened Text
  import opened AccessPaths
  import opened AccessRules

  /** d is a directive inside the scopes of the trail, the outermost first. */
  predicate Under(rules: seq<Rule>, trail: seq<Rule>, d: Rule) {
    if trail == [] then d in rules && d.Directive?
    else trail[0] in rules && !trail[0].Directive? && Under(trail[0].children, trail[1..], d)
  }

  /** The patterns of the scopes, one after the other. */
  function Pattern(trail: seq<Rule>): Path {
    if trail == [] then [] else (if trail[0].Scope? then trail[0].pattern else []) + Pattern(trail[1..])
  }

  /** The resources the scopes cover: those of a group or of opaque queries if the innermost
      scope is for them, and otherwise the paths the whole pattern matches. */
  predicate Covers(trail: seq<Rule>, resource: Resource) {
    if trail != [] && trail[|trail| - 1].GroupScope? then resource == GroupResource(trail[|trail| - 1].resource)
    else if trail != [] && trail[|trail| - 1].OpaqueScope? then resource.OpaqueResource?
    else resource.PathResource? && Matches(Pattern(trail), resource.path)
  }

  /** The directive is about the operation and the scopes around it cover the resource. */
  predicate About(trail: seq<Rule>, d: Rule, operation: Operations, resource: Resource)
    requires d.Directive?
  {
    Contains(d.operations, operation) && Covers(trail, resource)
  }

  // ---- Compiled rules are directives -------------------------------------------------------

  /** The place inside the scopes of a trail that starts at a place. */
  function Standing(at: Place, trail: seq<Rule>): Place {
    if trail == [] then at
    else
      match trail[|trail| - 1]
      case GroupScope(name, _) => Place(OnGroup, [], name)
      case OpaqueScope(_) => Place(OnOpaque, [], "")
      case _ => Place(OnPath, at.prefix + Pattern(trail), "")
  }

  /** What a directive is compiled to. */
  function FlatDirective(d: Rule, place: Place, namer: Namer): Compiled
    requires d.Directive?
  {
    Compiled(place, if d.name == "" then namer(d.effect, d.operations, place) else d.name, d.operations, d.effect)
  }

  /** Going in one scope further. */
  lemma StandingInside(at: Place, trail: seq<Rule>, d: Rule, allowed: set<Effect>, namer: Namer)
    requires trail != [] && !trail[0].Directive? && Inside(trail[0], at).Ok?
    requires Under(trail[0].children, trail[1..], d)
    requires CompileAll(trail[0].children, Inside(trail[0], at).value, allowed, namer).Ok?
    ensures Standing(at, trail) == Standing(Inside(trail[0], at).value, trail[1..])
    ensures Pattern(trail) == if trail[0].Scope? then trail[0].pattern + Pattern(trail[1..]) else []
  {
    if |trail| == 1 {
      assert trail[1..] == [];
      assert Pattern(trail[1..]) == [];
    } else {
      assert trail[|trail| - 1] == trail[1..][|trail| - 2];
      if !trail[0].Scope? {
        ClosedPlace(trail[0].children, trail[1], Inside(trail[0], at).value, allowed, namer);
      } else {
        assert at.prefix + (trail[0].pattern + Pattern(trail[1..])) == at.prefix + trail[0].pattern + Pattern(trail[1..]);
      }
    }
  }

  /** No scope compiles inside a group's scope or an opaque one. */
  lemma {:induction false} ClosedPlace(rules: seq<Rule>, scope: Rule, at: Place, allowed: set<Effect>, namer: Namer)
    requires scope in rules && !scope.Directive? && at.kind != OnPath
    ensures CompileAll(rules, at, allowed, namer).Err?
  {
    if rules[0] != scope {
      ClosedPlace(rules[1..], scope, at, allowed, namer);
    }
  }

  /** Every directive of the tree is compiled, at its place. */
  lemma {:induction false} DirectiveCompiles(rules: seq<Rule>, at: Place, trail: seq<Rule>, d: Rule, allowed: set<Effect>, namer: Namer)
    requires CompileAll(rules, at, allowed, namer).Ok? && Under(rules, trail, d)
    ensures d.Directive? && FlatDirective(d, Standing(at, trail), namer) in CompileAll(rules, at, allowed, namer).value
    decreases trail, rules
  {
    var first := if trail == [] then d else trail[0];
    if rules[0] == first {
      if trail != [] {
        StandingInside(at, trail, d, allowed, namer);
        DirectiveCompiles(first.children, Inside(first, at).value, trail[1..], d, allowed, namer);
      }
    } else {
      DirectiveCompiles(rules[1..], at, trail, d, allowed, namer);
    }
  }

  /** Every compiled rule is a directive of the tree. */
  lemma {:induction false} CompiledIsDirective(rules: seq<Rule>, at: Place, c: Compiled, allowed: set<Effect>, namer: Namer)
      returns (trail: seq<Rule>, d: Rule)
    requires CompileAll(rules, at, allowed, namer).Ok? && c in CompileAll(rules, at, allowed, namer).value
    ensures Under(rules, trail, d) && d.Directive? && c == FlatDirective(d, Standing(at, trail), namer)
    decreases rules
  {
    if c in CompileRule(rules[0], at, allowed, namer).value {
      if rules[0].Directive? {
        trail, d := [], rules[0];
      } else {
        var t, e := CompiledIsDirective(rules[0].children, Inside(rules[0], at).value, c, allowed, namer);
        trail, d := [rules[0]] + t, e;
        assert trail[1..] == t;
        StandingInside(at, trail, d, allowed, namer);
      }
    } else {
      trail, d := CompiledIsDirective(rules[1..], at, c, allowed, namer);
    }
  }

  /** The flat list holds exactly the directives of the tree: each with the effect,
      operations and name it was written with, under the patterns of the scopes around it. */
  lemma CompiledAre(rules: seq<Rule>, allowed: set<Effect>, namer: Namer, c: Compiled)
    requires CompileAll(rules, TOP, allowed, namer).Ok?
    ensures c in CompileAll(rules, TOP, allowed, namer).value <==>
            exists trail, d: Rule :: Under(rules, trail, d) && d.Directive? && c == FlatDirective(d, Standing(TOP, trail), namer)
  {
    if c in CompileAll(rules, TOP, allowed, namer).value {
      var trail, d := CompiledIsDirective(rules, TOP, c, allowed, namer);
    }
    if trail, d: Rule :| Under(rules, trail, d) && d.Directive? && c == FlatDirective(d, Standing(TOP, trail), namer) {
      DirectiveCompiles(rules, TOP, trail, d, allowed, namer);
    }
  }

  // ---- What compiles ------------------------------------------------------------------------

  /** r is a rule inside the scopes of the trail. */
  predicate Inner(rules: seq<Rule>, trail: seq<Rule>, r: Rule) {
    if trail == [] then r in rules
    else trail[0] in rules && !trail[0].Directive? && Inner(trail[0].children, trail[1..], r)
  }

  /** Inside a group's scope or an opaque one. */
  predicate Closed(at: Place, trail: seq<Rule>) {
    at.kind != OnPath || exists i | 0 <= i < |trail| :: !trail[i].Scope?
  }

  /** The rule may not stand there: a directive with an effect or operations that are not
      allowed, a scope inside a group's scope or an opaque one, or one of these below a path,
      or a group without a name. */
  predicate Offends(at: Place, trail: seq<Rule>, r: Rule, allowed: set<Effect>) {
    match r
    case Directive(effect, operations, _) => effect !in allowed || !ValidSet(operations)
    case Scope(_, _) => Closed(at, trail)
    case GroupScope(name, _) => Closed(at, trail) || at.prefix + Pattern(trail) != [] || Blank(name)
    case OpaqueScope(_) => Closed(at, trail) || at.prefix + Pattern(trail) != []
  }

  /** Seen from inside the outermost scope nothing changes. */
  lemma OffendsInside(at: Place, trail: seq<Rule>, r: Rule, allowed: set<Effect>)
    requires trail != [] && !trail[0].Directive? && Inside(trail[0], at).Ok?
    ensures Offends(at, trail, r, allowed) <==> Offends(Inside(trail[0], at).value, trail[1..], r, allowed)
  {
    var place := Inside(trail[0], at).value;
    if trail[0].Scope? {
      assert at.prefix + (trail[0].pattern + Pattern(trail[1..])) == place.prefix + Pattern(trail[1..]);
      if i :| 0 <= i < |trail| && !trail[i].Scope? {
        assert trail[1..][i - 1] == trail[i];
      }
      assert Closed(at, trail) <==> Closed(place, trail[1..]);
    } else {
      assert Closed(at, trail) && Closed(place, trail[1..]);
    }
  }

  /** A tree with a rule that offends does not compile. */
  lemma {:induction false} OffenceStops(rules: seq<Rule>, at: Place, trail: seq<Rule>, r: Rule, allowed: set<Effect>, namer: Namer)
    requires CompileAll(rules, at, allowed, namer).Ok? && Inner(rules, trail, r)
    ensures !Offends(at, trail, r, allowed)
    decreases trail, rules
  {
    var first := if trail == [] then r else trail[0];
    if rules[0] == first {
      if trail != [] {
        OffendsInside(at, trail, r, allowed);
        OffenceStops(first.children, Inside(first, at).value, trail[1..], r, allowed, namer);
      } else {
        assert at.prefix + Pattern(trail) == at.prefix;
      }
    } else {
      OffenceStops(rules[1..], at, trail, r, allowed, namer);
    }
  }

  /** A tree that does not compile has a rule that offends. */
  lemma {:induction false} OffenceFound(rules: seq<Rule>, at: Place, allowed: set<Effect>, namer: Namer) returns (trail: seq<Rule>, r: Rule)
    requires CompileAll(rules, at, allowed, namer).Err?
    ensures Inner(rules, trail, r) && Offends(at, trail, r, allowed)
    decreases rules
  {
    if CompileRule(rules[0], at, allowed, namer).Ok? {
      trail, r := OffenceFound(rules[1..], at, allowed, namer);
    } else if rules[0].Directive? || Inside(rules[0], at).Err? {
      trail, r := [], rules[0];
      assert at.prefix + Pattern(trail) == at.prefix;
    } else {
      var t, inner := OffenceFound(rules[0].children, Inside(rules[0], at).value, allowed, namer);
      trail, r := [rules[0]] + t, inner;
      assert trail[1..] == t;
      OffendsInside(at, trail, r, allowed);
    }
  }

  /** A tree compiles exactly when no rule in it offends. */
  lemma CompilesIff(rules: seq<Rule>, allowed: set<Effect>, namer: Namer)
    ensures CompileAll(rules, TOP, allowed, namer).Ok? <==>
            forall trail, r: Rule | Inner(rules, trail, r) :: !Offends(TOP, trail, r, allowed)
  {
    if CompileAll(rules, TOP, allowed, namer).Ok? {
      forall trail, r: Rule | Inner(rules, trail, r)
        ensures !Offends(TOP, trail, r, allowed)
      {
        OffenceStops(rules, TOP, trail, r, allowed, namer);
      }
    } else {
      var trail, r := OffenceFound(rules, TOP, allowed, namer);
    }
  }

  // ---- The decision ---------------------------------------------------------------------------

  /** The scope compiles with the rules it is one of. */
  lemma {:induction false} ScopeCompiles(rules: seq<Rule>, at: Place, scope: Rule, allowed: set<Effect>, namer: Namer)
    requires CompileAll(rules, at, allowed, namer).Ok? && scope in rules && !scope.Directive?
    ensures Inside(scope, at).Ok? && CompileAll(scope.children, Inside(scope, at).value, allowed, namer).Ok?
  {
    if rules[0] != scope {
      ScopeCompiles(rules[1..], at, scope, allowed, namer);
    }
  }

  lemma {:induction false} OnlyAtTop(rules: seq<Rule>, at: Place, trail: seq<Rule>, d: Rule, allowed: set<Effect>, namer: Namer)
    requires CompileAll(rules, at, allowed, namer).Ok? && Under(rules, trail, d)
    requires trail != [] && !trail[|trail| - 1].Scope?
    ensures at.prefix + Pattern(trail) == []
    decreases trail
  {
    ScopeCompiles(rules, at, trail[0], allowed, namer);
    StandingInside(at, trail, d, allowed, namer);
    if |trail| > 1 {
      assert trail[|trail| - 1] == trail[1..][|trail| - 2];
      OnlyAtTop(trail[0].children, Inside(trail[0], at).value, trail[1..], d, allowed, namer);
    }
  }

  /** A compiled directive stands under its whole pattern, and applies exactly where the directive
      is about the request. */
  lemma FlatApplies(rules: seq<Rule>, trail: seq<Rule>, d: Rule, allowed: set<Effect>, namer: Namer, operation: Operations, resource: Resource)
    requires CompileAll(rules, TOP, allowed, namer).Ok? && Under(rules, trail, d) && d.Directive?
    ensures FlatDirective(d, Standing(TOP, trail), namer).place.prefix == Pattern(trail)
    ensures Applies(FlatDirective(d, Standing(TOP, trail), namer), operation, resource) <==> About(trail, d, operation, resource)
  {
    assert [] + Pattern(trail) == Pattern(trail);
    if trail != [] && !trail[|trail| - 1].Scope? {
      if trail[|trail| - 1].Directive? {
        NoDirectiveHolds(rules, trail, d);
      } else {
        OnlyAtTop(rules, TOP, trail, d, allowed, namer);
      }
    }
  }

  lemma {:induction false} NoDirectiveHolds(rules: seq<Rule>, trail: seq<Rule>, d: Rule)
    requires Under(rules, trail, d) && trail != []
    ensures !trail[|trail| - 1].Directive?
    decreases trail
  {
    if |trail| > 1 {
      assert trail[|trail| - 1] == trail[1..][|trail| - 2];
      NoDirectiveHolds(trail[0].children, trail[1..], d);
    }
  }

  /** A directive of the tree that is about the request. */
  predicate Speaks(rules: seq<Rule>, trail: seq<Rule>, d: Rule, effect: Effect, operation: Operations, resource: Resource) {
    Under(rules, trail, d) && d.Directive? && d.effect == effect && About(trail, d, operation, resource)
  }

  /** An allow about the request, under a narrower pattern than every deny about it. */
  ghost predicate Prevailing(rules: seq<Rule>, trail: seq<Rule>, a: Rule, operation: Operations, resource: Resource) {
    && Speaks(rules, trail, a, Allow, operation, resource)
    && forall other, d | Speaks(rules, other, d, Deny, operation, resource) :: Narrower(Pattern(trail), Pattern(other))
  }

  ghost predicate TreeAllows(rules: seq<Rule>, operation: Operations, resource: Resource) {
    exists trail, a :: Prevailing(rules, trail, a, operation, resource)
  }

  lemma SpeaksApplies(rules: seq<Rule>, namer: Namer, trail: seq<Rule>, d: Rule, effect: Effect, operation: Operations, resource: Resource)
    requires CompileAll(rules, TOP, {Allow, Deny}, namer).Ok? && Speaks(rules, trail, d, effect, operation, resource)
    ensures var c, cs := FlatDirective(d, Standing(TOP, trail), namer), CompileAll(rules, TOP, {Allow, Deny}, namer).value;
            c in Filter(cs, Applier(operation, resource)) && c.effect == effect && c.place.prefix == Pattern(trail)
  {
    DirectiveCompiles(rules, TOP, trail, d, {Allow, Deny}, namer);
    FlatApplies(rules, trail, d, {Allow, Deny}, namer, operation, resource);
  }

  lemma AppliesSpeaks(rules: seq<Rule>, namer: Namer, c: Compiled, operation: Operations, resource: Resource) returns (trail: seq<Rule>, d: Rule)
    requires CompileAll(rules, TOP, {Allow, Deny}, namer).Ok?
    requires c in Filter(CompileAll(rules, TOP, {Allow, Deny}, namer).value, Applier(operation, resource))
    ensures Speaks(rules, trail, d, c.effect, operation, resource) && c.place.prefix == Pattern(trail)
  {
    trail, d := CompiledIsDirective(rules, TOP, c, {Allow, Deny}, namer);
    FlatApplies(rules, trail, d, {Allow, Deny}, namer, operation, resource);
  }

  lemma PrevailsInTree(rules: seq<Rule>, namer: Namer, c: Compiled, operation: Operations, resource: Resource)
    requires CompileAll(rules, TOP, {Allow, Deny}, namer).Ok?
    requires Prevails(c, Filter(CompileAll(rules, TOP, {Allow, Deny}, namer).value, Applier(operation, resource)))
    ensures TreeAllows(rules, operation, resource)
  {
    var trail, a := AppliesSpeaks(rules, namer, c, operation, resource);
    forall other, d | Speaks(rules, other, d, Deny, operation, resource)
      ensures Narrower(Pattern(trail), Pattern(other))
    {
      SpeaksApplies(rules, namer, other, d, Deny, operation, resource);
    }
    assert Prevailing(rules, trail, a, operation, resource);
  }

  lemma PrevailsInList(rules: seq<Rule>, namer: Namer, trail: seq<Rule>, a: Rule, operation: Operations, resource: Resource)
    requires CompileAll(rules, TOP, {Allow, Deny}, namer).Ok? && Prevailing(rules, trail, a, operation, resource)
    ensures SomePrevails(Filter(CompileAll(rules, TOP, {Allow, Deny}, namer).value, Applier(operation, resource)))
  {
    var applying := Filter(CompileAll(rules, TOP, {Allow, Deny}, namer).value, Applier(operation, resource));
    SpeaksApplies(rules, namer, trail, a, Allow, operation, resource);
    forall c | c in applying && c.effect == Deny
      ensures Narrower(Pattern(trail), c.place.prefix)
    {
      var other, d := AppliesSpeaks(rules, namer, c, operation, resource);
    }
    assert Prevails(FlatDirective(a, Standing(TOP, trail), namer), applying);
  }

  /** The decision, on the tree as it is written: a request is allowed exactly when the tree has an
      allow about it under a longer pattern, or one as long with more literal segments, than
      every deny about it. */
  lemma AllowedIsTreeAllows(rules: seq<Rule>, namer: Namer, operation: Operations, resource: Resource)
    requires CompileAll(rules, TOP, {Allow, Deny}, namer).Ok?
    requires ValidRules(CompileAll(rules, TOP, {Allow, Deny}, namer).value, {Allow, Deny})
    ensures Allowed(CompileAll(rules, TOP, {Allow, Deny}, namer).value, operation, resource) <==> TreeAllows(rules, operation, resource)
  {
    var cs := CompileAll(rules, TOP, {Allow, Deny}, namer).value;
    AllowedIff(cs, operation, resource);
    if Allowed(cs, operation, resource) {
      var c :| Prevails(c, Filter(cs, Applier(operation, resource)));
      PrevailsInTree(rules, namer, c, operation, resource);
    }
    if TreeAllows(rules, operation, resource) {
      var trail, a :| Prevailing(rules, trail, a, operation, resource);
      PrevailsInList(rules, namer, trail, a, operation, resource);
    }
  }

  /** A deny inside scopes whose pattern is longer than that of every allow about the request always
      denies. */
  lemma DeeperDenyDenies(rules: seq<Rule>, namer: Namer, trail: seq<Rule>, deny: Rule, operation: Operations, resource: Resource)
    requires CompileAll(rules, TOP, {Allow, Deny}, namer).Ok?
    requires ValidRules(CompileAll(rules, TOP, {Allow, Deny}, namer).value, {Allow, Deny})
    requires Speaks(rules, trail, deny, Deny, operation, resource)
    requires forall other, a | Speaks(rules, other, a, Allow, operation, resource) :: |Pattern(other)| < |Pattern(trail)|
    ensures !Allowed(CompileAll(rules, TOP, {Allow, Deny}, namer).value, operation, resource)
  {
    AllowedIsTreeAllows(rules, namer, operation, resource);
  }
}
