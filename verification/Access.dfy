/** Sets of operations, resources and structural path patterns. */
module AccessPaths {
  import opened Ordering

  // ---- Operations -----------------------------------------------------------------------

  /** A set of operations, one bit each. */
  type Operations = bv16

  const GET: Operations := 1
  const EXISTS: Operations := 2
  const QUERY: Operations := 4
  const INSERT: Operations := 8
  const SET: Operations := 16
  const UPDATE: Operations := 32
  const DELETE: Operations := 64
  const TRUNCATE: Operations := 128
  const READ: Operations := 7
  const WRITE: Operations := 248
  const READ_WRITE: Operations := 255
  const KNOWN: Operations := 255

  predicate ValidLeaf(o: Operations) {
    o != 0 && o & KNOWN == o && o & (o - 1) == 0
  }

  predicate Contains(o: Operations, operation: Operations) {
    ValidLeaf(operation) && o & operation != 0
  }

  predicate ValidSet(o: Operations) {
    o != 0 && o & !KNOWN == 0
  }

  /** The bit trick picks out exactly the eight single operations. */
  lemma LeavesAreSingle(o: Operations)
    ensures ValidLeaf(o) <==> o in {GET, EXISTS, QUERY, INSERT, SET, UPDATE, DELETE, TRUNCATE}
  {
  }

  /** A set contains a leaf exactly when it has that leaf's bit, so the union of two
      sets contains what either does. */
  lemma UnionContains(a: Operations, b: Operations, leaf: Operations)
    ensures Contains(a | b, leaf) <==> Contains(a, leaf) || Contains(b, leaf)
    ensures ValidLeaf(leaf) ==> Contains(leaf, leaf) && Contains(READ_WRITE, leaf)
    ensures ValidLeaf(leaf) ==> (Contains(READ, leaf) <==> !Contains(WRITE, leaf))
  {
    LeavesAreSingle(leaf);
  }

  datatype Operation = GetOp | ExistsOp | QueryOp | InsertOp | SetOp | UpdateOp | DeleteOp | TruncateOp

  function Bit(op: Operation): Operations {
    match op
    case GetOp => GET
    case ExistsOp => EXISTS
    case QueryOp => QUERY
    case InsertOp => INSERT
    case SetOp => SET
    case UpdateOp => UPDATE
    case DeleteOp => DELETE
    case TruncateOp => TRUNCATE
  }

  predicate HasBit(o: Operations, op: Operation) {
    o & Bit(op) != 0
  }

  function BitIf(has: bool, b: Operations): Operations {
    if has then b else 0
  }

  /** The bits of a set of operations. */
  function BitsOf(s: set<Operation>): Operations {
    BitIf(GetOp in s, GET) | BitIf(ExistsOp in s, EXISTS) | BitIf(QueryOp in s, QUERY) | BitIf(InsertOp in s, INSERT)
    | BitIf(SetOp in s, SET) | BitIf(UpdateOp in s, UPDATE) | BitIf(DeleteOp in s, DELETE) | BitIf(TruncateOp in s, TRUNCATE)
  }

  /** The operations of a bit set. */
  function SetOf(o: Operations): set<Operation> {
    set op: Operation | HasBit(o, op)
  }

  lemma OrHas(a: Operations, b: Operations, op: Operation)
    ensures HasBit(a | b, op) <==> HasBit(a, op) || HasBit(b, op)
  {
    match op
    case GetOp =>
    case ExistsOp =>
    case QueryOp =>
    case InsertOp =>
    case SetOp =>
    case UpdateOp =>
    case DeleteOp =>
    case TruncateOp =>
  }

  lemma BitsHave(s: set<Operation>, op: Operation)
    ensures HasBit(BitsOf(s), op) <==> op in s
  {
    match op
    case GetOp =>
    case ExistsOp =>
    case QueryOp =>
    case InsertOp =>
    case SetOp =>
    case UpdateOp =>
    case DeleteOp =>
    case TruncateOp =>
  }

  predicate Known(o: Operations) {
    o & !KNOWN == 0
  }

  lemma KnownUnion(a: Operations, b: Operations)
    requires Known(a) && Known(b)
    ensures Known(a | b)
  {
  }

  lemma BitsAreKnown(s: set<Operation>)
    ensures Known(BitsOf(s)) && SetOf(BitsOf(s)) == s
  {
    forall op: Operation
      ensures op in SetOf(BitsOf(s)) <==> op in s
    {
      BitsHave(s, op);
    }
  }

  lemma SetOfUnion(a: Operations, b: Operations)
    ensures SetOf(a | b) == SetOf(a) + SetOf(b)
  {
    InUnion(a, b, GetOp);
    InUnion(a, b, ExistsOp);
    InUnion(a, b, QueryOp);
    InUnion(a, b, InsertOp);
    InUnion(a, b, SetOp);
    InUnion(a, b, UpdateOp);
    InUnion(a, b, DeleteOp);
    InUnion(a, b, TruncateOp);
    SameMembers(SetOf(a | b), SetOf(a) + SetOf(b));
  }

  lemma InUnion(a: Operations, b: Operations, op: Operation)
    ensures op in SetOf(a | b) <==> op in SetOf(a) + SetOf(b)
  {
    OrHas(a, b, op);
    InSetOf(a, op);
    InSetOf(b, op);
    InSetOf(a | b, op);
  }

  lemma InSetOf(o: Operations, op: Operation)
    ensures op in SetOf(o) <==> HasBit(o, op)
  {
  }

  lemma SameMembers(s: set<Operation>, t: set<Operation>)
    requires (GetOp in s <==> GetOp in t) && (ExistsOp in s <==> ExistsOp in t) && (QueryOp in s <==> QueryOp in t)
    requires (InsertOp in s <==> InsertOp in t) && (SetOp in s <==> SetOp in t) && (UpdateOp in s <==> UpdateOp in t)
    requires (DeleteOp in s <==> DeleteOp in t) && (TruncateOp in s <==> TruncateOp in t)
    ensures s == t
  {
    forall op
      ensures op in s <==> op in t
    {
      match op
      case GetOp =>
      case ExistsOp =>
      case QueryOp =>
      case InsertOp =>
      case SetOp =>
      case UpdateOp =>
      case DeleteOp =>
      case TruncateOp =>
    }
  }

  /** Uniting sets is or-ing their bits. */
  lemma BitsOfUnion(s: set<Operation>, t: set<Operation>)
    ensures BitsOf(s + t) == BitsOf(s) | BitsOf(t)
  {
    BitsAreKnown(s);
    BitsAreKnown(t);
    SameSet(BitsOf(s), BitsOf(t), s, t);
  }

  lemma SameSet(a: Operations, b: Operations, s: set<Operation>, t: set<Operation>)
    requires Known(a) && Known(b) && SetOf(a) == s && SetOf(b) == t
    ensures BitsOf(s + t) == a | b
  {
    KnownUnion(a, b);
    SetOfUnion(a, b);
    BitsRoundTrip(a | b);
  }

  /** Known bits are exactly a set of operations. */
  lemma BitsRoundTrip(o: Operations)
    requires o & !KNOWN == 0
    ensures BitsOf(SetOf(o)) == o
  {
    assert forall op: Operation :: op in SetOf(o) <==> HasBit(o, op);
  }

  lemma BitsAreValid(s: set<Operation>)
    ensures ValidSet(BitsOf(s)) <==> s != {}
    ensures s == {} ==> BitsOf(s) == 0
  {
    if s != {} {
      var op :| op in s;
      assert HasBit(BitsOf(s), op) by {
        match op
        case GetOp =>
        case ExistsOp =>
        case QueryOp =>
        case InsertOp =>
        case SetOp =>
        case UpdateOp =>
        case DeleteOp =>
        case TruncateOp =>
      }
    }
  }

  // ---- Segments and resources -----------------------------------------------------------

  /** A record id by its Go kind and type. */
  datatype IdValue =
    | NilId
    | TextId(typ: string, text: string)
    | SignedId(typ: string, n: int)
    | UnsignedId(typ: string, n: int)
    | OtherId(typ: string, repr: string)

  datatype Segment = Coll(name: string) | Id(value: IdValue) | AnyId

  type Path = seq<Segment>

  datatype Resource = PathResource(path: Path) | GroupResource(name: string) | OpaqueResource(name: string)

  /** Equal values, or equal text, signed or unsigned numbers of different widths. */
  predicate EqualId(expected: IdValue, actual: IdValue) {
    || expected == actual
    || (expected.TextId? && actual.TextId? && expected.text == actual.text)
    || (expected.SignedId? && actual.SignedId? && expected.n == actual.n)
    || (expected.UnsignedId? && actual.UnsignedId? && expected.n == actual.n)
  }

  lemma EqualIdIsEquivalence(a: IdValue, b: IdValue, c: IdValue)
    ensures EqualId(a, a)
    ensures EqualId(a, b) ==> EqualId(b, a)
    ensures EqualId(a, b) && EqualId(b, c) ==> EqualId(a, c)
  {
  }

  /** One expected segment against an actual one. */
  predicate SegmentMatches(expected: Segment, actual: Segment) {
    match expected
    case AnyId => !actual.Coll?
    case Coll(name) => actual == Coll(name)
    case Id(v) => actual.Id? && EqualId(v, actual.value)
  }

  /** The pattern matches a prefix of the path. */
  predicate Matches(pattern: Path, path: Path) {
    |pattern| <= |path| && forall i | 0 <= i < |pattern| :: SegmentMatches(pattern[i], path[i])
  }

  method PatternsMatch(pattern: Path, resource: Resource) returns (matches: bool)
    ensures matches == (resource.PathResource? && Matches(pattern, resource.path))
  {
    if !resource.PathResource? || |pattern| > |resource.path| {
      return false;
    }
    for i := 0 to |pattern|
      invariant forall j | 0 <= j < i :: SegmentMatches(pattern[j], resource.path[j])
    {
      var expected, actual := pattern[i], resource.path[i];
      if expected.Coll? != actual.Coll? {
        return false;
      }
      if expected.AnyId? {
        continue;
      }
      if expected.Coll? {
        if expected.name != actual.name {
          return false;
        }
        continue;
      }
      if !actual.Id? || !EqualId(expected.value, actual.value) {
        return false;
      }
    }
    matches := true;
  }

  /** Matching a concatenation is matching its parts one after the other: the step
      from nested scopes to one flat pattern. */
  lemma MatchesConcat(p: Path, q: Path, path: Path)
    ensures Matches(p + q, path) <==> Matches(p, path) && Matches(q, path[|p|..])
  {
    if Matches(p + q, path) {
      forall i | 0 <= i < |p|
        ensures SegmentMatches(p[i], path[i])
      {
        assert (p + q)[i] == p[i];
      }
      forall i | 0 <= i < |q|
        ensures SegmentMatches(q[i], path[|p|..][i])
      {
        assert (p + q)[|p| + i] == q[i];
      }
    }
    if Matches(p, path) && Matches(q, path[|p|..]) {
      forall i | 0 <= i < |p + q|
        ensures SegmentMatches((p + q)[i], path[i])
      {
        if i >= |p| { assert path[|p|..][i - |p|] == path[i]; }
      }
    }
  }

  /** Segments of a key, root first. */
  datatype Key = Key(collection: string, id: IdValue, parent: Option<Key>)

  function SegmentsOf(key: Option<Key>): Path {
    match key
    case None => []
    case Some(k) => SegmentsOf(k.parent) + [Coll(k.collection), Id(k.id)]
  }

  method SegmentsForKey(key: Option<Key>) returns (segments: Path)
    ensures segments == SegmentsOf(key)
  {
    var keys: seq<Key> := [];
    var current := key;
    while current.Some?
      invariant SegmentsOf(key) == SegmentsOf(current) + SegmentsOfChain(keys)
      decreases current
    {
      keys := [current.value] + keys;
      current := current.value.parent;
    }
    segments := [];
    for i := 0 to |keys|
      invariant segments + SegmentsOfChain(keys[i..]) == SegmentsOfChain(keys)
    {
      segments := segments + [Coll(keys[i].collection), Id(keys[i].id)];
    }
  }

  function SegmentsOfChain(keys: seq<Key>): Path {
    if keys == [] then [] else [Coll(keys[0].collection), Id(keys[0].id)] + SegmentsOfChain(keys[1..])
  }
}

/** Rules, their compilation to a flat list, and the decision. */
module AccessRules {
  import opened Ordering
  import opened Text
  import opened AccessPaths

  datatype Effect = Allow | Deny | Audit | IgnoreAudit

  datatype Rule =
    | Directive(effect: Effect, operations: Operations, name: string)
    | Scope(pattern: Path, children: seq<Rule>)
    | GroupScope(resource: string, children: seq<Rule>)
    | OpaqueScope(children: seq<Rule>)

  datatype Kind = OnPath | OnGroup | OnOpaque

  /** Where a rule is being compiled. */
  datatype Place = Place(kind: Kind, prefix: Path, resource: string)

  datatype Compiled = Compiled(place: Place, name: string, operations: Operations, effect: Effect)

  datatype Error =
    | EffectNotAllowed
    | InvalidOperations
    | NestedPath
    | NotTopLevel
    | BlankGroup
    | DuplicateName(name: string)

  const TOP: Place := Place(OnPath, [], "")

  /** The name generated for a directive without one. */
  type Namer = (Effect, Operations, Place) -> string

  function Depth(c: Compiled): nat {
    |c.place.prefix|
  }

  function LiteralCount(pattern: Path): nat {
    if pattern == [] then 0
    else LiteralCount(pattern[..|pattern| - 1]) + if pattern[|pattern| - 1].AnyId? then 0 else 1
  }

  method CountLiterals(pattern: Path) returns (count: nat)
    ensures count == LiteralCount(pattern)
  {
    count := 0;
    for i := 0 to |pattern|
      invariant count == LiteralCount(pattern[..i])
    {
      assert pattern[..i + 1][..i] == pattern[..i];
      if !pattern[i].AnyId? {
        count := count + 1;
      }
    }
    assert pattern[..|pattern|] == pattern;
  }

  // ---- Compilation --------------------------------------------------------------------------

  /** The place of a scope's children, or why the scope may not stand here. */
  function Inside(rule: Rule, at: Place): Result<Place, Error>
    requires !rule.Directive?
  {
    match rule
    case Scope(pattern, _) =>
      if at.kind != OnPath then Err(NestedPath) else Ok(Place(OnPath, at.prefix + pattern, ""))
    case GroupScope(resource, _) =>
      if at.kind != OnPath || at.prefix != [] then Err(NotTopLevel)
      else if Blank(resource) then Err(BlankGroup)
      else Ok(Place(OnGroup, [], resource))
    case OpaqueScope(_) =>
      if at.kind != OnPath || at.prefix != [] then Err(NotTopLevel) else Ok(Place(OnOpaque, [], ""))
  }

  function CompileDirective(rule: Rule, at: Place, allowed: set<Effect>, namer: Namer): Result<Compiled, Error>
    requires rule.Directive?
  {
    if rule.effect !in allowed then Err(EffectNotAllowed)
    else if !ValidSet(rule.operations) then Err(InvalidOperations)
    else
      var name := if rule.name == "" then namer(rule.effect, rule.operations, at) else rule.name;
      Ok(Compiled(at, name, rule.operations, rule.effect))
  }

  function CompileRule(rule: Rule, at: Place, allowed: set<Effect>, namer: Namer): Result<seq<Compiled>, Error>
    decreases rule, 0
  {
    if rule.Directive? then
      match CompileDirective(rule, at, allowed, namer)
      case Err(e) => Err(e)
      case Ok(c) => Ok([c])
    else
      match Inside(rule, at)
      case Err(e) => Err(e)
      case Ok(place) => CompileAll(rule.children, place, allowed, namer)
  }

  function CompileAll(rules: seq<Rule>, at: Place, allowed: set<Effect>, namer: Namer): Result<seq<Compiled>, Error>
    decreases rules
  {
    if rules == [] then Ok([])
    else
      match CompileRule(rules[0], at, allowed, namer)
      case Err(e) => Err(e)
      case Ok(first) =>
        After(first, CompileAll(rules[1..], at, allowed, namer))
  }

  /** These rules, then the others. */
  function After(first: seq<Compiled>, more: Result<seq<Compiled>, Error>): Result<seq<Compiled>, Error> {
    match more
    case Err(e) => Err(e)
    case Ok(rest) => Ok(first + rest)
  }

  lemma AfterAfter(a: seq<Compiled>, b: seq<Compiled>, more: Result<seq<Compiled>, Error>)
    ensures After(a, After(b, more)) == After(a + b, more)
    ensures After([], more) == more
  {
    if more.Ok? {
      assert a + (b + more.value) == a + b + more.value;
      assert [] + more.value == more.value;
    }
  }

  /** The slice compileRule appends to through a pointer. */
  class Sink {
    var rules: seq<Compiled>

    constructor ()
      ensures rules == []
    {
      rules := [];
    }

    method Append(c: Compiled)
      modifies this
      ensures rules == old(rules) + [c]
    {
      rules := rules + [c];
    }
  }

  method CompileRuleInto(rule: Rule, at: Place, allowed: set<Effect>, namer: Namer, sink: Sink) returns (err: Option<Error>)
    modifies sink
    ensures match CompileRule(rule, at, allowed, namer)
            case Err(e) => err == Some(e)
            case Ok(cs) => err == None && sink.rules == old(sink.rules) + cs
    decreases rule
  {
    match rule {
      case Directive(_, _, _) =>
        var c := CompileDirective(rule, at, allowed, namer);
        match c {
          case Err(e) => err := Some(e);
          case Ok(compiled) =>
            sink.Append(compiled);
            err := None;
        }
      case _ =>
        var place := Inside(rule, at);
        if place.Err? {
          return Some(place.error);
        }
        ghost var done: seq<Compiled> := [];
        AfterAfter([], [], CompileAll(rule.children[0..], place.value, allowed, namer));
        for i := 0 to |rule.children|
          invariant sink.rules == old(sink.rules) + done
          invariant CompileAll(rule.children, place.value, allowed, namer) ==
                    After(done, CompileAll(rule.children[i..], place.value, allowed, namer))
        {
          assert rule.children[i..][0] == rule.children[i] && rule.children[i..][1..] == rule.children[i + 1..];
          err := CompileRuleInto(rule.children[i], place.value, allowed, namer, sink);
          if err.Some? {
            return;
          }
          ghost var more := CompileRule(rule.children[i], place.value, allowed, namer).value;
          AfterAfter(done, more, CompileAll(rule.children[i + 1..], place.value, allowed, namer));
          done := done + more;
        }
        assert done + [] == done;
        err := None;
    }
  }

  predicate NamesDistinct(cs: seq<Compiled>) {
    forall i, j | 0 <= i < j < |cs| :: cs[i].name != cs[j].name
  }

  /** compileRules: flatten all rules, then require distinct names. */
  method CompileRules(rules: seq<Rule>, allowed: set<Effect>, namer: Namer) returns (r: Result<seq<Compiled>, Error>)
    ensures match CompileAll(rules, TOP, allowed, namer)
            case Err(e) => r == Err(e)
            case Ok(cs) => if NamesDistinct(cs) then r == Ok(cs) else r.Err? && r.error.DuplicateName?
  {
    var sink := new Sink();
    ghost var done: seq<Compiled> := [];
    AfterAfter([], [], CompileAll(rules[0..], TOP, allowed, namer));
    for i := 0 to |rules|
      invariant sink.rules == done
      invariant CompileAll(rules, TOP, allowed, namer) == After(done, CompileAll(rules[i..], TOP, allowed, namer))
    {
      assert rules[i..][0] == rules[i] && rules[i..][1..] == rules[i + 1..];
      var err := CompileRuleInto(rules[i], TOP, allowed, namer, sink);
      if err.Some? {
        return Err(err.value);
      }
      ghost var more := CompileRule(rules[i], TOP, allowed, namer).value;
      AfterAfter(done, more, CompileAll(rules[i + 1..], TOP, allowed, namer));
      done := done + more;
    }
    assert done + [] == done;
    var compiled := sink.rules;
    var repeated := RepeatedName(compiled);
    r := if repeated.Some? then Err(DuplicateName(repeated.value)) else Ok(compiled);
  }

  method RepeatedName(compiled: seq<Compiled>) returns (name: Option<string>)
    ensures name.None? <==> NamesDistinct(compiled)
    ensures name.Some? ==> exists i, j :: 0 <= i < j < |compiled| && compiled[i].name == compiled[j].name == name.value
  {
    var names: set<string> := {};
    for i := 0 to |compiled|
      invariant names == set j | 0 <= j < i :: compiled[j].name
      invariant forall j, k | 0 <= j < k < i :: compiled[j].name != compiled[k].name
    {
      if compiled[i].name in names {
        return Some(compiled[i].name);
      }
      names := names + {compiled[i].name};
    }
    name := None;
  }

  // ---- Decision --------------------------------------------------------------------------------

  predicate RuleMatches(c: Compiled, resource: Resource) {
    match c.place.kind
    case OnPath => resource.PathResource? && Matches(c.place.prefix, resource.path)
    case OnGroup => resource.GroupResource? && c.place.resource == resource.name
    case OnOpaque => resource.OpaqueResource?
  }

  predicate Applies(c: Compiled, operation: Operations, resource: Resource) {
    Contains(c.operations, operation) && RuleMatches(c, resource)
  }

  predicate Restrictive(e: Effect) {
    e == Deny || e == IgnoreAudit
  }

  /** More specific first; then more literal; then restrictive; then by name. */
  predicate MoreSpecific(a: Compiled, b: Compiled) {
    if Depth(a) != Depth(b) then Depth(a) > Depth(b)
    else if LiteralCount(a.place.prefix) != LiteralCount(b.place.prefix) then LiteralCount(a.place.prefix) > LiteralCount(b.place.prefix)
    else if a.effect != b.effect then Restrictive(a.effect)
    else StrLess(a.name, b.name)
  }

  function Applier(operation: Operations, resource: Resource): Compiled -> bool {
    (c: Compiled) => Applies(c, operation, resource)
  }

  function MatchingRules(cs: seq<Compiled>, operation: Operations, resource: Resource): seq<Compiled> {
    SortBy(Filter(cs, Applier(operation, resource)), MoreSpecific)
  }

  method FindMatching(cs: seq<Compiled>, operation: Operations, resource: Resource) returns (matching: seq<Compiled>)
    ensures matching == MatchingRules(cs, operation, resource)
  {
    var matches: seq<Compiled> := [];
    for i := 0 to |cs|
      invariant matches == Filter(cs[..i], Applier(operation, resource))
    {
      assert cs[..i + 1] == cs[..i] + [cs[i]];
      FilterSnoc(cs[..i], cs[i], Applier(operation, resource));
      if !Contains(cs[i].operations, operation) || !RuleMatches(cs[i], resource) {
        continue;
      }
      matches := matches + [cs[i]];
    }
    assert cs[..|cs|] == cs;
    matching := SortBy(matches, MoreSpecific);
  }

  /** The rule that decides, if any applies. */
  function Winner(cs: seq<Compiled>, operation: Operations, resource: Resource): Option<Compiled> {
    var matching := MatchingRules(cs, operation, resource);
    if matching == [] then None else Some(matching[0])
  }

  predicate Allowed(cs: seq<Compiled>, operation: Operations, resource: Resource) {
    var w := Winner(cs, operation, resource);
    w.Some? && w.value.effect == Allow
  }

  /** One policy's rules: effects of one family, distinct names. */
  ghost predicate ValidRules(cs: seq<Compiled>, allowed: set<Effect>) {
    && (allowed == {Allow, Deny} || allowed == {Audit, IgnoreAudit})
    && (forall c | c in cs :: c.effect in allowed)
    && NamesDistinct(cs)
  }

  lemma ByNameUnique(cs: seq<Compiled>, a: Compiled, b: Compiled)
    requires NamesDistinct(cs) && a in cs && b in cs && a.name == b.name
    ensures a == b
  {
    var i, j :| 0 <= i < |cs| && 0 <= j < |cs| && cs[i] == a && cs[j] == b;
  }

  /** Specificity is a strict total order on the rules of one policy. */
  lemma SpecificityIsTotal(cs: seq<Compiled>, allowed: set<Effect>)
    requires ValidRules(cs, allowed)
    ensures TotalOn(MoreSpecific, cs)
  {
    forall a, b, c | a in cs && b in cs && c in cs
      ensures !MoreSpecific(a, a)
      ensures MoreSpecific(a, b) ==> !MoreSpecific(b, a)
      ensures MoreSpecific(a, b) && MoreSpecific(b, c) ==> MoreSpecific(a, c)
      ensures MoreSpecific(a, c) ==> MoreSpecific(a, b) || MoreSpecific(b, c)
      ensures a != b ==> MoreSpecific(a, b) || MoreSpecific(b, a)
    {
      NamesOrder(a.name, b.name, c.name);
      NamesOrder(b.name, a.name, c.name);
      if a.name == b.name { ByNameUnique(cs, a, b); }
    }
  }

  lemma NamesOrder(a: string, b: string, c: string)
    ensures !StrLess(a, a)
    ensures StrLess(a, b) || StrLess(b, a) || a == b
    ensures !(StrLess(a, b) && StrLess(b, a))
    ensures StrLess(a, b) && StrLess(b, c) ==> StrLess(a, c)
    ensures StrLess(a, c) ==> StrLess(a, b) || StrLess(b, c)
  {
    StrLessTotal(a, b);
    StrLessTotal(b, c);
    if StrLess(a, b) && StrLess(b, c) { StrLessTransitive(a, b, c); }
    if !StrLess(a, b) && !StrLess(b, c) {
      if StrLess(c, b) && StrLess(b, a) { StrLessTransitive(c, b, a); }
      StrLessTotal(a, c);
    }
  }

  lemma SomeAreValid(cs: seq<Compiled>, some: seq<Compiled>, allowed: set<Effect>)
    requires TotalOn(MoreSpecific, cs) && forall c | c in some :: c in cs
    ensures TotalOn(MoreSpecific, some)
  {
  }

  /** The winner is the unique most specific rule that applies. */
  lemma WinnerIsUnique(cs: seq<Compiled>, allowed: set<Effect>, operation: Operations, resource: Resource, c: Compiled)
    requires ValidRules(cs, allowed)
    ensures Winner(cs, operation, resource) == Some(c) <==>
            && c in cs && Applies(c, operation, resource)
            && forall d | d in cs && Applies(d, operation, resource) && d != c :: MoreSpecific(c, d)
    ensures Winner(cs, operation, resource) == None <==> forall d | d in cs :: !Applies(d, operation, resource)
  {
    var applying := Filter(cs, Applier(operation, resource));
    SpecificityIsTotal(cs, allowed);
    SomeAreValid(cs, applying, allowed);
    HeadIsLeast(applying, MoreSpecific);
    assert forall d :: d in applying <==> d in cs && Applies(d, operation, resource);
    if applying == [] {
      assert forall d | d in cs :: !Applies(d, operation, resource);
    } else {
      assert applying[0] in applying;
      LeastIsOne(applying, SortBy(applying, MoreSpecific)[0], c);
    }
  }

  // ---- What the winner has over the others ---------------------------------------------------

  /** The segments of a pattern that are not "any". */
  function Literals(pattern: Path): set<nat> {
    set i: nat | i < |pattern| && !pattern[i].AnyId?
  }

  lemma {:induction false} LiteralsCounted(pattern: Path)
    ensures LiteralCount(pattern) == |Literals(pattern)|
  {
    if pattern != [] {
      var n := |pattern| - 1;
      LiteralsCounted(pattern[..n]);
      assert Literals(pattern) == Literals(pattern[..n]) + if pattern[n].AnyId? then {} else {n};
    }
  }

  /** a's pattern is longer than b's, or as long with more literal segments. */
  predicate Narrower(a: Path, b: Path) {
    |a| > |b| || (|a| == |b| && |Literals(a)| > |Literals(b)|)
  }

  /** No rule that applies has a longer pattern than the winner's; none as long has more
      literal segments; if one as long and as literal denies, the winner does; and among those
      of its effect the winner has the least name. */
  lemma WinnerRanks(cs: seq<Compiled>, allowed: set<Effect>, operation: Operations, resource: Resource, c: Compiled)
    requires ValidRules(cs, allowed) && c in cs && Applies(c, operation, resource)
    ensures Winner(cs, operation, resource).Some?
    ensures var w := Winner(cs, operation, resource).value;
            && w in cs && Applies(w, operation, resource)
            && |c.place.prefix| <= |w.place.prefix|
            && (|c.place.prefix| == |w.place.prefix| ==> |Literals(c.place.prefix)| <= |Literals(w.place.prefix)|)
            && (|c.place.prefix| == |w.place.prefix| && |Literals(c.place.prefix)| == |Literals(w.place.prefix)| ==>
                  && (c.effect in {Deny, IgnoreAudit} ==> w.effect == c.effect)
                  && (c.effect == w.effect ==> c == w || StrLess(w.name, c.name)))
  {
    WinnerIsUnique(cs, allowed, operation, resource, c);
    var w := Winner(cs, operation, resource).value;
    WinnerIsUnique(cs, allowed, operation, resource, w);
    LiteralsCounted(c.place.prefix);
    LiteralsCounted(w.place.prefix);
    assert c == w || MoreSpecific(w, c);
  }

  /** An allow that is narrower than every deny. */
  ghost predicate Prevails(a: Compiled, applying: seq<Compiled>) {
    && a in applying && a.effect == Allow
    && forall d | d in applying && d.effect == Deny :: Narrower(a.place.prefix, d.place.prefix)
  }

  ghost predicate SomePrevails(applying: seq<Compiled>) {
    exists a :: Prevails(a, applying)
  }

  lemma AllowedPrevails(cs: seq<Compiled>, operation: Operations, resource: Resource)
    requires ValidRules(cs, {Allow, Deny}) && Allowed(cs, operation, resource)
    ensures Prevails(Winner(cs, operation, resource).value, Filter(cs, Applier(operation, resource)))
  {
    var w := Winner(cs, operation, resource).value;
    WinnerIsUnique(cs, {Allow, Deny}, operation, resource, w);
    forall d | d in Filter(cs, Applier(operation, resource)) && d.effect == Deny
      ensures Narrower(w.place.prefix, d.place.prefix)
    {
      WinnerRanks(cs, {Allow, Deny}, operation, resource, d);
    }
  }

  lemma PrevailsAllowed(cs: seq<Compiled>, operation: Operations, resource: Resource, a: Compiled)
    requires ValidRules(cs, {Allow, Deny}) && Prevails(a, Filter(cs, Applier(operation, resource)))
    ensures Allowed(cs, operation, resource)
  {
    WinnerRanks(cs, {Allow, Deny}, operation, resource, a);
    var w := Winner(cs, operation, resource).value;
    assert w in Filter(cs, Applier(operation, resource));
  }

  /** The decision on patterns and effects alone: allowed exactly when, of the rules that
      apply, some allow is narrower than every deny. */
  lemma AllowedIff(cs: seq<Compiled>, operation: Operations, resource: Resource)
    requires ValidRules(cs, {Allow, Deny})
    ensures Allowed(cs, operation, resource) <==> SomePrevails(Filter(cs, Applier(operation, resource)))
  {
    var applying := Filter(cs, Applier(operation, resource));
    if Allowed(cs, operation, resource) {
      AllowedPrevails(cs, operation, resource);
      assert Prevails(Winner(cs, operation, resource).value, applying);
    }
    if SomePrevails(applying) {
      var a :| Prevails(a, applying);
      PrevailsAllowed(cs, operation, resource, a);
    }
  }

  /** Two elements that both precede all others are the same. */
  lemma LeastIsOne(cs: seq<Compiled>, w: Compiled, c: Compiled)
    requires TotalOn(MoreSpecific, cs) && w in cs && forall d | d in cs && d != w :: MoreSpecific(w, d)
    ensures c == w <==> c in cs && forall d | d in cs && d != c :: MoreSpecific(c, d)
  {
    if c in cs && c != w {
      assert MoreSpecific(w, c) && !MoreSpecific(c, w);
    }
  }

  /** Declaration order does not matter: permuting the compiled rules changes no
      decision and no winning rule. */
  lemma WinnerForgetsOrder(cs: seq<Compiled>, ds: seq<Compiled>, allowed: set<Effect>, operation: Operations, resource: Resource)
    requires ValidRules(cs, allowed) && multiset(cs) == multiset(ds)
    ensures Winner(cs, operation, resource) == Winner(ds, operation, resource)
  {
    var applying := Filter(cs, Applier(operation, resource));
    SpecificityIsTotal(cs, allowed);
    SomeAreValid(cs, applying, allowed);
    FilterPermutation(cs, ds, Applier(operation, resource));
    SortForgetsOrder(applying, Filter(ds, Applier(operation, resource)), MoreSpecific);
  }

  /** Adding a deny rule can only narrow what is allowed. */
  lemma DenyNarrows(cs: seq<Compiled>, deny: Compiled, operation: Operations, resource: Resource)
    requires ValidRules(cs + [deny], {Allow, Deny}) && deny.effect == Deny
    requires Allowed(cs + [deny], operation, resource)
    ensures Allowed(cs, operation, resource)
    ensures Winner(cs, operation, resource) == Winner(cs + [deny], operation, resource)
  {
    var all := cs + [deny];
    var w := Winner(all, operation, resource).value;
    assert forall i | 0 <= i < |cs| :: all[i] == cs[i];
    assert ValidRules(cs, {Allow, Deny}) by {
      assert forall c | c in cs :: c in all;
    }
    WinnerIsUnique(all, {Allow, Deny}, operation, resource, w);
    assert w in cs;
    forall d | d in cs && Applies(d, operation, resource) && d != w
      ensures MoreSpecific(w, d)
    {
      assert d in all;
    }
    WinnerIsUnique(cs, {Allow, Deny}, operation, resource, w);
  }

  // ---- The tree ----------------------------------------------------------------------------------

  /** The rules of the tree that apply to a resource, found by walking down: a path
      scope is entered only when its own pattern matches what is left of the path. */
  function TreeMatches(rule: Rule, at: Place, allowed: set<Effect>, namer: Namer, operation: Operations, resource: Resource, rest: Path): seq<Compiled>
    decreases rule, 0
  {
    match rule
    case Directive(_, operations, _) =>
      var c := CompileDirective(rule, at, allowed, namer);
      if c.Ok? && Contains(operations, operation) && (at.kind == OnPath ==> resource.PathResource?) then [c.value] else []
    case Scope(pattern, children) =>
      if (if resource.PathResource? then Matches(pattern, rest) else pattern == [])
      then AllTreeMatches(children, Place(OnPath, at.prefix + pattern, ""), allowed, namer, operation, resource,
                          if resource.PathResource? then rest[|pattern|..] else [])
      else []
    case GroupScope(name, children) =>
      if resource == GroupResource(name) then AllTreeMatches(children, Place(OnGroup, [], name), allowed, namer, operation, resource, []) else []
    case OpaqueScope(children) =>
      if resource.OpaqueResource? then AllTreeMatches(children, Place(OnOpaque, [], ""), allowed, namer, operation, resource, []) else []
  }

  function AllTreeMatches(rules: seq<Rule>, at: Place, allowed: set<Effect>, namer: Namer, operation: Operations, resource: Resource, rest: Path): seq<Compiled>
    decreases rules
  {
    if rules == [] then []
    else TreeMatches(rules[0], at, allowed, namer, operation, resource, rest)
         + AllTreeMatches(rules[1..], at, allowed, namer, operation, resource, rest)
  }

  /** The walk has come to this place with this much of the path left. */
  predicate WalkedTo(at: Place, resource: Resource, rest: Path) {
    match at.kind
    case OnPath =>
      if resource.PathResource? then Matches(at.prefix, resource.path) && rest == resource.path[|at.prefix|..]
      else at.prefix == []
    case OnGroup => resource == GroupResource(at.resource)
    case OnOpaque => resource.OpaqueResource?
  }

  /** Where the rules compiled inside a place stand. */
  predicate Within(p: Place, at: Place) {
    if at.kind == OnPath then (p.kind == OnPath && at.prefix <= p.prefix) || (at.prefix == [] && p.kind != OnPath)
    else p == at
  }

  lemma {:induction false} CompiledWithin(rules: seq<Rule>, at: Place, allowed: set<Effect>, namer: Namer)
    requires CompileAll(rules, at, allowed, namer).Ok?
    ensures forall c | c in CompileAll(rules, at, allowed, namer).value :: Within(c.place, at)
    decreases rules
  {
    if rules != [] {
      CompiledWithin(rules[1..], at, allowed, namer);
      if !rules[0].Directive? {
        var place := Inside(rules[0], at).value;
        CompiledWithin(rules[0].children, place, allowed, namer);
        forall c | c in CompileRule(rules[0], at, allowed, namer).value
          ensures Within(c.place, at)
        {
          assert Within(c.place, place);
        }
      }
    }
  }

  lemma PrefixMatches(p: Path, q: Path, path: Path)
    requires p <= q && Matches(q, path)
    ensures Matches(p, path)
  {
    forall i | 0 <= i < |p|
      ensures SegmentMatches(p[i], path[i])
    {
      assert p[i] == q[i];
    }
  }

  /** Nothing compiled inside a place the walk cannot reach applies. */
  lemma UnreachedApply(children: seq<Rule>, place: Place, allowed: set<Effect>, namer: Namer, operation: Operations, resource: Resource)
    requires CompileAll(children, place, allowed, namer).Ok?
    requires match place.kind
             case OnPath => if resource.PathResource? then !Matches(place.prefix, resource.path) else place.prefix != []
             case OnGroup => resource != GroupResource(place.resource)
             case OnOpaque => !resource.OpaqueResource?
    ensures Filter(CompileAll(children, place, allowed, namer).value, Applier(operation, resource)) == []
  {
    var cs := CompileAll(children, place, allowed, namer).value;
    CompiledWithin(children, place, allowed, namer);
    forall c | c in cs
      ensures !Applies(c, operation, resource)
    {
      if place.kind == OnPath && resource.PathResource? && c.place.kind == OnPath && Matches(c.place.prefix, resource.path) {
        PrefixMatches(place.prefix, c.place.prefix, resource.path);
      }
    }
    FilterNone(cs, Applier(operation, resource));
  }

  /** Compiled rules are exactly the directives under their enclosing scopes: those
      that apply to a resource are what the walk down the tree finds, in order. */
  lemma {:induction false} FlatIsTree(rules: seq<Rule>, at: Place, allowed: set<Effect>, namer: Namer, operation: Operations, resource: Resource, rest: Path)
    requires CompileAll(rules, at, allowed, namer).Ok? && WalkedTo(at, resource, rest)
    ensures Filter(CompileAll(rules, at, allowed, namer).value, Applier(operation, resource)) ==
            AllTreeMatches(rules, at, allowed, namer, operation, resource, rest)
    decreases rules, 1
  {
    if rules != [] {
      var first, more := CompileRule(rules[0], at, allowed, namer).value, CompileAll(rules[1..], at, allowed, namer).value;
      FlatIsTree(rules[1..], at, allowed, namer, operation, resource, rest);
      FilterConcat(first, more, Applier(operation, resource));
      FlatIsTreeRule(rules[0], at, allowed, namer, operation, resource, rest);
    }
  }

  lemma {:induction false} FlatIsTreeRule(rule: Rule, at: Place, allowed: set<Effect>, namer: Namer, operation: Operations, resource: Resource, rest: Path)
    requires CompileRule(rule, at, allowed, namer).Ok? && WalkedTo(at, resource, rest)
    ensures Filter(CompileRule(rule, at, allowed, namer).value, Applier(operation, resource)) ==
            TreeMatches(rule, at, allowed, namer, operation, resource, rest)
    decreases rule, 0
  {
    if rule.Directive? {
      FilterOne(CompileDirective(rule, at, allowed, namer).value, Applier(operation, resource));
    } else {
      var place := Inside(rule, at).value;
      var below := if rule.Scope? && resource.PathResource? && Matches(rule.pattern, rest) then rest[|rule.pattern|..] else [];
      if rule.Scope? && resource.PathResource? {
        MatchesConcat(at.prefix, rule.pattern, resource.path);
      }
      if WalkedTo(place, resource, below) {
        FlatIsTree(rule.children, place, allowed, namer, operation, resource, below);
      } else {
        UnreachedApply(rule.children, place, allowed, namer, operation, resource);
      }
    }
  }

  /** The decision on the flat list is the decision on the tree: the most specific of
      the directives the walk finds. */
  lemma DecisionIsTreeDecision(rules: seq<Rule>, allowed: set<Effect>, namer: Namer, operation: Operations, resource: Resource)
    requires CompileAll(rules, TOP, allowed, namer).Ok?
    ensures var found := AllTreeMatches(rules, TOP, allowed, namer, operation, resource, if resource.PathResource? then resource.path else []);
            MatchingRules(CompileAll(rules, TOP, allowed, namer).value, operation, resource) == SortBy(found, MoreSpecific)
  {
    var rest := if resource.PathResource? then resource.path else [];
    assert resource.PathResource? ==> resource.path[|TOP.prefix|..] == rest;
    FlatIsTree(rules, TOP, allowed, namer, operation, resource, rest);
  }

  // ---- Sibling order ---------------------------------------------------------------------------------

  lemma {:induction false} CompileAllConcat(a: seq<Rule>, b: seq<Rule>, at: Place, allowed: set<Effect>, namer: Namer)
    ensures CompileAll(a, at, allowed, namer).Err? ==> CompileAll(a + b, at, allowed, namer) == CompileAll(a, at, allowed, namer)
    ensures CompileAll(a, at, allowed, namer).Ok? ==>
              CompileAll(a + b, at, allowed, namer) == After(CompileAll(a, at, allowed, namer).value, CompileAll(b, at, allowed, namer))
  {
    var more := CompileAll(b, at, allowed, namer);
    if a == [] {
      assert a + b == b;
      AfterAfter([], [], more);
    } else {
      assert (a + b)[1..] == a[1..] + b;
      CompileAllConcat(a[1..], b, at, allowed, namer);
      if CompileAll(a, at, allowed, namer).Ok? {
        AfterAfter(CompileRule(a[0], at, allowed, namer).value, CompileAll(a[1..], at, allowed, namer).value, more);
      }
    }
  }

  /** Permuting siblings permutes the compiled rules. */
  lemma {:induction false} SiblingsForgetOrder(a: seq<Rule>, b: seq<Rule>, at: Place, allowed: set<Effect>, namer: Namer)
    requires multiset(a) == multiset(b) && CompileAll(a, at, allowed, namer).Ok?
    ensures CompileAll(b, at, allowed, namer).Ok?
    ensures multiset(CompileAll(a, at, allowed, namer).value) == multiset(CompileAll(b, at, allowed, namer).value)
    decreases |a|
  {
    SamePopulation(a, b);
    if a != [] {
      assert a[0] in b;
      var i :| 0 <= i < |b| && b[i] == a[0];
      RemoveHead(a, b, i);
      FirstThenRest(a, at, allowed, namer);
      SiblingsForgetOrder(a[1..], b[..i] + b[i + 1..], at, allowed, namer);
      OneTakenOut(a, b, i, at, allowed, namer);
    }
  }

  lemma FirstThenRest(a: seq<Rule>, at: Place, allowed: set<Effect>, namer: Namer)
    requires a != [] && CompileAll(a, at, allowed, namer).Ok?
    ensures CompileRule(a[0], at, allowed, namer).Ok? && CompileAll(a[1..], at, allowed, namer).Ok?
    ensures multiset(CompileAll(a, at, allowed, namer).value) ==
            multiset(CompileRule(a[0], at, allowed, namer).value) + multiset(CompileAll(a[1..], at, allowed, namer).value)
  {
  }

  /** Compiling one sibling earlier only moves its rules. */
  lemma MoveToFront(left: seq<Rule>, r: Rule, right: seq<Rule>, at: Place, allowed: set<Effect>, namer: Namer)
    requires CompileAll(left + right, at, allowed, namer).Ok? && CompileRule(r, at, allowed, namer).Ok?
    ensures CompileAll(left + [r] + right, at, allowed, namer).Ok?
    ensures multiset(CompileAll(left + [r] + right, at, allowed, namer).value) ==
            multiset(CompileRule(r, at, allowed, namer).value) + multiset(CompileAll(left + right, at, allowed, namer).value)
  {
    assert left + [r] + right == left + ([r] + right) && ([r] + right)[1..] == right;
    CompileAllConcat(left, [r] + right, at, allowed, namer);
    CompileAllConcat(left, right, at, allowed, namer);
  }

  // ---- Whole trees -----------------------------------------------------------------------------------

  /** The same rule with the rules inside it rearranged, at every depth. */
  ghost predicate SameRule(a: Rule, b: Rule)
    decreases a, 0
  {
    match a
    case Directive(_, _, _) => a == b
    case Scope(pattern, children) => b.Scope? && b.pattern == pattern && Rearranged(children, b.children)
    case GroupScope(resource, children) => b.GroupScope? && b.resource == resource && Rearranged(children, b.children)
    case OpaqueScope(children) => b.OpaqueScope? && Rearranged(children, b.children)
  }

  /** b lists the rules of a in some order, each rearranged inside. */
  ghost predicate Rearranged(a: seq<Rule>, b: seq<Rule>)
    decreases a
  {
    if a == [] then b == []
    else exists i :: 0 <= i < |b| && SameRule(a[0], b[i]) && Rearranged(a[1..], b[..i] + b[i + 1..])
  }

  /** Rearranging a tree at every depth rearranges the compiled rules. */
  lemma {:induction false} RearrangedCompiles(a: seq<Rule>, b: seq<Rule>, at: Place, allowed: set<Effect>, namer: Namer)
    requires Rearranged(a, b) && CompileAll(a, at, allowed, namer).Ok?
    ensures CompileAll(b, at, allowed, namer).Ok?
    ensures multiset(CompileAll(a, at, allowed, namer).value) == multiset(CompileAll(b, at, allowed, namer).value)
    decreases a
  {
    if a != [] {
      var i :| 0 <= i < |b| && SameRule(a[0], b[i]) && Rearranged(a[1..], b[..i] + b[i + 1..]);
      SameRuleCompiles(a[0], b[i], at, allowed, namer);
      RearrangedCompiles(a[1..], b[..i] + b[i + 1..], at, allowed, namer);
      OneTakenOut(a, b, i, at, allowed, namer);
    }
  }

  lemma OneTakenOut(a: seq<Rule>, b: seq<Rule>, i: nat, at: Place, allowed: set<Effect>, namer: Namer)
    requires a != [] && i < |b| && CompileAll(a, at, allowed, namer).Ok?
    requires CompileRule(b[i], at, allowed, namer).Ok? && CompileAll(b[..i] + b[i + 1..], at, allowed, namer).Ok?
    requires CompileRule(a[0], at, allowed, namer).Ok? && CompileAll(a[1..], at, allowed, namer).Ok?
    requires multiset(CompileRule(a[0], at, allowed, namer).value) == multiset(CompileRule(b[i], at, allowed, namer).value)
    requires multiset(CompileAll(a[1..], at, allowed, namer).value) == multiset(CompileAll(b[..i] + b[i + 1..], at, allowed, namer).value)
    ensures CompileAll(b, at, allowed, namer).Ok?
    ensures multiset(CompileAll(a, at, allowed, namer).value) == multiset(CompileAll(b, at, allowed, namer).value)
  {
    MoveToFront(b[..i], b[i], b[i + 1..], at, allowed, namer);
    assert b == b[..i] + [b[i]] + b[i + 1..];
    FirstThenRest(a, at, allowed, namer);
  }

  lemma {:induction false} SameRuleCompiles(a: Rule, b: Rule, at: Place, allowed: set<Effect>, namer: Namer)
    requires SameRule(a, b) && CompileRule(a, at, allowed, namer).Ok?
    ensures CompileRule(b, at, allowed, namer).Ok?
    ensures multiset(CompileRule(a, at, allowed, namer).value) == multiset(CompileRule(b, at, allowed, namer).value)
    decreases a, 0
  {
    if !a.Directive? {
      RearrangedCompiles(a.children, b.children, Inside(a, at).value, allowed, namer);
    }
  }

  /** Trees equal up to the order of siblings, at every depth, decide alike and by the
      same rule. */
  lemma TreesDecideAlike(a: seq<Rule>, b: seq<Rule>, allowed: set<Effect>, namer: Namer, operation: Operations, resource: Resource)
    requires Rearranged(a, b) && CompileAll(a, TOP, allowed, namer).Ok?
    requires ValidRules(CompileAll(a, TOP, allowed, namer).value, allowed)
    ensures CompileAll(b, TOP, allowed, namer).Ok?
    ensures Winner(CompileAll(a, TOP, allowed, namer).value, operation, resource) ==
            Winner(CompileAll(b, TOP, allowed, namer).value, operation, resource)
  {
    RearrangedCompiles(a, b, TOP, allowed, namer);
    WinnerForgetsOrder(CompileAll(a, TOP, allowed, namer).value, CompileAll(b, TOP, allowed, namer).value, allowed, operation, resource);
  }

  lemma RemoveHead(a: seq<Rule>, b: seq<Rule>, i: nat)
    requires a != [] && i < |b| && b[i] == a[0] && multiset(a) == multiset(b)
    ensures multiset(a[1..]) == multiset(b[..i] + b[i + 1..])
  {
    assert a == [a[0]] + a[1..];
    assert b == b[..i] + [b[i]] + b[i + 1..];
    var x := multiset{b[i]};
    assert multiset(a) == x + multiset(a[1..]);
    assert multiset(b) == multiset(b[..i] + b[i + 1..]) + x;
    assert multiset(a[1..]) == multiset(a) - x && multiset(b[..i] + b[i + 1..]) == multiset(b) - x;
  }
}

/** Deciding requests, and guarding a database with several policies. */
module AccessGuard {
  import opened Ordering
  import opened AccessPaths
  import opened AccessRules

  datatype Policy = Policy(name: string, rules: seq<Compiled>)

  datatype Request = Request(operation: Operations, resources: seq<Resource>)

  datatype Decision = Decision(allowed: bool, resource: Option<Resource>, rule: Option<string>)

  function DecideResource(p: Policy, operation: Operations, resource: Resource): Decision {
    match Winner(p.rules, operation, resource)
    case None => Decision(false, Some(resource), None)
    case Some(w) => Decision(w.effect == Allow, Some(resource), Some(w.name))
  }

  /** What is allowed: a single known operation on at least one resource, each allowed
      by its winning rule. */
  predicate Permits(p: Policy, request: Request) {
    && ValidLeaf(request.operation)
    && request.resources != []
    && forall i | 0 <= i < |request.resources| :: Allowed(p.rules, request.operation, request.resources[i])
  }

  method Decide(p: Policy, request: Request) returns (d: Decision)
    ensures d.allowed <==> Permits(p, request)
    ensures d.allowed ==> d == DecideResource(p, request.operation, request.resources[|request.resources| - 1])
    ensures !d.allowed && ValidLeaf(request.operation) && request.resources != [] ==>
              exists i :: 0 <= i < |request.resources| && d == DecideResource(p, request.operation, request.resources[i])
                && forall j | 0 <= j < i :: Allowed(p.rules, request.operation, request.resources[j])
  {
    if !ValidLeaf(request.operation) || |request.resources| == 0 {
      return Decision(false, None, None);
    }
    d := Decision(false, None, None);
    for i := 0 to |request.resources|
      invariant forall j | 0 <= j < i :: Allowed(p.rules, request.operation, request.resources[j])
      invariant i > 0 ==> d == DecideResource(p, request.operation, request.resources[i - 1])
    {
      d := DecideResource(p, request.operation, request.resources[i]);
      if !d.allowed {
        return;
      }
    }
  }

  datatype Guard = Guard(database: seq<Policy>, bound: seq<Policy>, requireContext: bool)

  datatype Denied = NoContextPolicy | DeniedBy(policy: Policy)

  /** bind: the context's policies join the bound ones. */
  function Bind(g: Guard, context: seq<Policy>): Guard {
    g.(bound := g.bound + context)
  }

  function AllPolicies(g: Guard, context: seq<Policy>): seq<Policy> {
    g.database + g.bound + context
  }

  predicate LacksContext(g: Guard, context: seq<Policy>) {
    g.requireContext && |g.bound| + |context| == 0
  }

  /** authorizeRequest: the first policy that does not permit denies. */
  method Authorize(g: Guard, context: seq<Policy>, request: Request) returns (denied: Option<Denied>)
    ensures denied.None? <==> !LacksContext(g, context) && forall p | p in AllPolicies(g, context) :: Permits(p, request)
    ensures LacksContext(g, context) ==> denied == Some(NoContextPolicy)
    ensures denied.Some? && !LacksContext(g, context) ==>
              exists i :: 0 <= i < |AllPolicies(g, context)| && denied == Some(DeniedBy(AllPolicies(g, context)[i]))
                && !Permits(AllPolicies(g, context)[i], request)
                && forall j | 0 <= j < i :: Permits(AllPolicies(g, context)[j], request)
  {
    if g.requireContext && |g.bound| + |context| == 0 {
      return Some(NoContextPolicy);
    }
    var policies := g.database + g.bound + context;
    for i := 0 to |policies|
      invariant forall j | 0 <= j < i :: Permits(policies[j], request)
    {
      var d := Decide(policies[i], request);
      if !d.allowed {
        assert policies[i] in policies;
        return Some(DeniedBy(policies[i]));
      }
    }
    denied := None;
  }

  predicate Authorized(g: Guard, context: seq<Policy>, request: Request) {
    !LacksContext(g, context) && forall p | p in AllPolicies(g, context) :: Permits(p, request)
  }

  /** Policies intersect: whatever the guard lets through, every policy of it lets
      through alone; so another policy, on the database or in the context, never
      widens what was allowed except by supplying a required context policy. */
  lemma PoliciesIntersect(g: Guard, context: seq<Policy>, more: seq<Policy>, request: Request)
    ensures Authorized(g, context + more, request) && !LacksContext(g, context) ==> Authorized(g, context, request)
    ensures Authorized(g.(database := g.database + more), context, request) ==> Authorized(g, context, request)
    ensures Authorized(g, context, request) <==>
            !LacksContext(g, context) && (forall p | p in g.database :: Permits(p, request))
            && (forall p | p in g.bound :: Permits(p, request)) && (forall p | p in context :: Permits(p, request))
  {
    assert forall p | p in AllPolicies(g, context) :: p in AllPolicies(g, context + more);
    assert forall p | p in AllPolicies(g, context) :: p in AllPolicies(g.(database := g.database + more), context);
    assert forall p :: p in AllPolicies(g, context) <==> p in g.database || p in g.bound || p in context;
  }

  /** Binding a context once and passing it later with every call are the same. */
  lemma BindIsContext(g: Guard, bound: seq<Policy>, context: seq<Policy>, request: Request)
    ensures Authorized(Bind(g, bound), context, request) <==> Authorized(g, bound + context, request)
    ensures Bind(Bind(g, bound), context) == Bind(g, bound + context)
  {
    assert forall p :: p in AllPolicies(Bind(g, bound), context) <==> p in AllPolicies(g, bound + context);
    assert g.bound + bound + context == g.bound + (bound + context);
  }
}
