/** Percent-encoding of path segments (section 2.1 of RFC 3986), and splitting and
    joining paths. A char stands for one byte of a Go string. */
module PercentEncoding {
  import opened Ordering

  predicate IsBytes(s: string) {
    forall i | 0 <= i < |s| :: s[i] as int < 256
  }

  predicate Alphanumeric(c: char) {
    '0' <= c <= '9' || 'A' <= c <= 'Z' || 'a' <= c <= 'z'
  }

  /** What a path segment may hold unescaped. */
  predicate Unescaped(c: char) {
    Alphanumeric(c) || c in {'-', '_', '.', '~', '$', '&', '+', ':', '=', '@'}
  }

  function HexDigit(n: nat): char
    requires n < 16
  {
    "0123456789ABCDEF"[n]
  }

  function UnHex(c: char): Option<nat> {
    if '0' <= c <= '9' then Some(c as int - '0' as int)
    else if 'A' <= c <= 'F' then Some(c as int - 'A' as int + 10)
    else if 'a' <= c <= 'f' then Some(c as int - 'a' as int + 10)
    else None
  }

  lemma UnHexHexDigit(n: nat)
    requires n < 16
    ensures UnHex(HexDigit(n)) == Some(n)
    ensures Unescaped(HexDigit(n))
  {
  }

  function EscapeByte(c: char): string
    requires c as int < 256
  {
    if Unescaped(c) then [c] else ['%', HexDigit(c as int / 16), HexDigit(c as int % 16)]
  }

  function Escape(s: string): (r: string)
    requires IsBytes(s)
    ensures forall i | 0 <= i < |r| :: Unescaped(r[i]) || r[i] == '%'
    ensures r == "" <==> s == ""
  {
    if s == "" then ""
    else
      var n := s[0] as int;
      UnHexHexDigit(n / 16);
      UnHexHexDigit(n % 16);
      EscapeByte(s[0]) + Escape(s[1..])
  }

  /** None when an escape is malformed. */
  function Unescape(s: string): Option<string> {
    if s == "" then Some("")
    else if s[0] != '%' then
      match Unescape(s[1..])
      case None => None
      case Some(r) => Some([s[0]] + r)
    else if |s| < 3 || UnHex(s[1]).None? || UnHex(s[2]).None? then None
    else
      match Unescape(s[3..])
      case None => None
      case Some(r) => Some([(UnHex(s[1]).value * 16 + UnHex(s[2]).value) as char] + r)
  }

  /** One plain byte, then the rest. */
  lemma UnescapePlain(c: char, tail: string, rest: string)
    requires c != '%' && Unescape(tail) == Some(rest)
    ensures Unescape([c] + tail) == Some([c] + rest)
  {
    assert ([c] + tail)[1..] == tail;
  }

  /** One escaped byte, then the rest. */
  lemma UnescapeHex(n: nat, tail: string, rest: string)
    requires n < 256 && Unescape(tail) == Some(rest)
    ensures Unescape(['%', HexDigit(n / 16), HexDigit(n % 16)] + tail) == Some([n as char] + rest)
  {
    UnHexHexDigit(n / 16);
    UnHexHexDigit(n % 16);
    assert (['%', HexDigit(n / 16), HexDigit(n % 16)] + tail)[3..] == tail;
  }

  /** Escaping loses nothing. */
  lemma {:induction false} EscapeRoundTrips(s: string)
    requires IsBytes(s)
    ensures Unescape(Escape(s)) == Some(s)
  {
    if s != "" {
      EscapeRoundTrips(s[1..]);
      assert s == [s[0]] + s[1..];
      if Unescaped(s[0]) {
        UnescapePlain(s[0], Escape(s[1..]), s[1..]);
      } else {
        UnescapeHex(s[0] as int, Escape(s[1..]), s[1..]);
      }
    }
  }

  // ---- Joining and splitting -----------------------------------------------------------

  function JoinSlash(parts: seq<string>): string
    requires parts != []
  {
    if |parts| == 1 then parts[0] else parts[0] + "/" + JoinSlash(parts[1..])
  }

  /** strings.Split on a slash. */
  function SplitSlash(s: string): (r: seq<string>)
    ensures r != []
  {
    if s == "" then [""]
    else
      var rest := SplitSlash(s[1..]);
      if s[0] == '/' then [""] + rest else [[s[0]] + rest[0]] + rest[1..]
  }

  lemma {:induction false} SplitPart(p: string)
    requires '/' !in p
    ensures SplitSlash(p) == [p]
  {
    if p != "" {
      SplitPart(p[1..]);
      assert p == [p[0]] + p[1..];
    }
  }

  lemma {:induction false} SplitAfter(p: string, rest: string)
    requires '/' !in p
    ensures SplitSlash(p + "/" + rest) == [p] + SplitSlash(rest)
  {
    if p == "" {
      assert p + "/" + rest == "/" + rest && ("/" + rest)[1..] == rest;
    } else {
      SplitAfter(p[1..], rest);
      assert (p + "/" + rest)[1..] == p[1..] + "/" + rest;
      assert p == [p[0]] + p[1..];
    }
  }

  /** Splitting a joined path gives its parts back. */
  lemma {:induction false} SplitJoin(parts: seq<string>)
    requires parts != [] && forall i | 0 <= i < |parts| :: '/' !in parts[i]
    ensures SplitSlash(JoinSlash(parts)) == parts
  {
    if |parts| == 1 {
      SplitPart(parts[0]);
    } else {
      SplitJoin(parts[1..]);
      SplitAfter(parts[0], JoinSlash(parts[1..]));
      assert parts == [parts[0]] + parts[1..];
    }
  }
}

/** Policies as portable documents, and back. */
module AccessDocument {
  import opened Ordering
  import opened AccessPaths
  import opened AccessRules
  import opened PercentEncoding
  import opened Text

  datatype DocRule = DocRule(id: string, effect: string, operations: seq<string>)

  datatype DocScope = DocScope(
    path: string,
    collectionGroup: string,
    opaqueQuery: bool,
    rules: seq<DocRule>,
    scopes: seq<DocScope>)

  datatype DocError =
    | NotSerializable
    | Selectors
    | RuleIdRequired
    | UnknownOperation(name: string)
    | NoOperations
    | UnknownEffect
    | EffectNotValid
    | EmptyScope
    | BadPath(why: PathFault)

  datatype PathFault = NoSlash | EmptySegment | BadEscape | StarCollection | BadPart(index: nat)

  // ---- Operations ------------------------------------------------------------------------

  function NameOf(op: Operation): string {
    match op
    case GetOp => "get"
    case ExistsOp => "exists"
    case QueryOp => "query"
    case InsertOp => "insert"
    case SetOp => "set"
    case UpdateOp => "update"
    case DeleteOp => "delete"
    case TruncateOp => "truncate"
  }

  /** The order operations are named in. */
  const ITEMS: seq<Operation> := [GetOp, ExistsOp, QueryOp, InsertOp, SetOp, UpdateOp, DeleteOp, TruncateOp]

  const READ_OPS: set<Operation> := {GetOp, ExistsOp, QueryOp}
  const WRITE_OPS: set<Operation> := {InsertOp, SetOp, UpdateOp, DeleteOp, TruncateOp}

  /** What one name of a list stands for: a word for several operations, or one. */
  type Vocabulary = string -> Option<set<Operation>>

  function NamedOperations(name: string): Option<set<Operation>> {
    if name == "read" then Some(READ_OPS)
    else if name == "write" || name == "mutation" || name == "mutations" then Some(WRITE_OPS)
    else if name == "readwrite" || name == "read-write" || name == "read_write" then Some(READ_OPS + WRITE_OPS)
    else
      match OpNamed(name)
      case None => None
      case Some(op) => Some({op})
  }

  function OpNamed(name: string): Option<Operation> {
    if name == "get" then Some(GetOp)
    else if name == "exists" then Some(ExistsOp)
    else if name == "query" then Some(QueryOp)
    else if name == "insert" then Some(InsertOp)
    else if name == "set" then Some(SetOp)
    else if name == "update" then Some(UpdateOp)
    else if name == "delete" then Some(DeleteOp)
    else if name == "truncate" then Some(TruncateOp)
    else None
  }

  lemma NamesAreRead(op: Operation)
    ensures OpNamed(NameOf(op)) == Some(op)
  {
    match op
    case GetOp =>
    case ExistsOp =>
    case QueryOp =>
    case InsertOp =>
    case SetOp =>
    case UpdateOp =>
    case DeleteOp =>
    case TruncateOp =>
  }

  /** No operation's name is a word for several, and all are plain. */
  lemma NamesArePlain(op: Operation)
    ensures Plain(NameOf(op))
    ensures NamedOperations(NameOf(op)) == Some({op})
  {
    NamesAreRead(op);
    match op
    case GetOp =>
    case ExistsOp =>
    case QueryOp =>
    case InsertOp =>
    case SetOp =>
    case UpdateOp =>
    case DeleteOp =>
    case TruncateOp =>
  }

  /** Names are matched trimmed and in lower case. */
  function OperationWords(name: string): Option<set<Operation>> {
    NamedOperations(Fold(name))
  }

  function UnionOf(words: Vocabulary, names: seq<string>): Result<set<Operation>, DocError> {
    if names == [] then Ok({})
    else
      var n := |names| - 1;
      match UnionOf(words, names[..n])
      case Err(e) => Err(e)
      case Ok(ops) =>
        match words(names[n])
        case None => Err(UnknownOperation(names[n]))
        case Some(more) => Ok(ops + more)
  }

  /** parseOperations: at least one known operation. */
  function ParsedOperations(words: Vocabulary, names: seq<string>): Result<set<Operation>, DocError> {
    match UnionOf(words, names)
    case Err(e) => Err(e)
    case Ok(ops) => if ops == {} then Err(NoOperations) else Ok(ops)
  }

  lemma {:induction false} UnionStops(words: Vocabulary, names: seq<string>, i: nat)
    requires i <= |names| && UnionOf(words, names[..i]).Err?
    ensures UnionOf(words, names) == UnionOf(words, names[..i])
    decreases |names|
  {
    if i == |names| {
      assert names[..i] == names;
    } else {
      assert names[..|names| - 1][..i] == names[..i];
      UnionStops(words, names[..|names| - 1], i);
    }
  }

  /** The loop or-s bits; what it parses is the set those bits stand for. */
  method ParseOperations(words: Vocabulary, names: seq<string>) returns (bits: Operations, err: Option<DocError>)
    ensures match ParsedOperations(words, names)
            case Err(e) => err == Some(e)
            case Ok(ops) => err == None && bits == BitsOf(ops)
  {
    bits := 0;
    ghost var sofar: set<Operation> := {};
    BitsAreValid(sofar);
    for i := 0 to |names|
      invariant UnionOf(words, names[..i]) == Ok(sofar) && bits == BitsOf(sofar)
    {
      assert names[..i + 1][..i] == names[..i];
      var found := words(names[i]);
      if found.None? {
        UnionStops(words, names, i + 1);
        return bits, Some(UnknownOperation(names[i]));
      }
      BitsOfUnion(sofar, found.value);
      bits := bits | BitsOf(found.value);
      sofar := sofar + found.value;
    }
    assert names[..|names|] == names;
    BitsAreValid(sofar);
    if !ValidSet(bits) {
      return bits, Some(NoOperations);
    }
    err := None;
  }

  /** The names of the operations among the first n. */
  function ItemNames(items: seq<Operation>, ops: set<Operation>, n: nat): seq<string>
    requires n <= |items|
  {
    if n == 0 then [] else ItemNames(items, ops, n - 1) + if items[n - 1] in ops then [NameOf(items[n - 1])] else []
  }

  /** operationNamesForDocument */
  function OperationNames(o: Operations): Result<seq<string>, DocError> {
    if !ValidSet(o) then Err(NotSerializable)
    else if o == READ then Ok(["read"])
    else if o == WRITE then Ok(["write"])
    else if o == READ_WRITE then Ok(["readwrite"])
    else Ok(ItemNames(ITEMS, SetOf(o), |ITEMS|))
  }

  method OperationNamesForDocument(o: Operations) returns (r: Result<seq<string>, DocError>)
    ensures r == OperationNames(o)
  {
    if !ValidSet(o) {
      return Err(NotSerializable);
    }
    if o == READ {
      return Ok(["read"]);
    }
    if o == WRITE {
      return Ok(["write"]);
    }
    if o == READ_WRITE {
      return Ok(["readwrite"]);
    }
    var names: seq<string> := [];
    for i := 0 to |ITEMS|
      invariant names == ItemNames(ITEMS, SetOf(o), i)
    {
      assert HasBit(o, ITEMS[i]) <==> ITEMS[i] in SetOf(o);
      if o & Bit(ITEMS[i]) != 0 {
        names := names + [NameOf(ITEMS[i])];
      }
    }
    r := Ok(names);
  }

  lemma UnionSnoc(words: Vocabulary, before: seq<string>, name: string, ops: set<Operation>, more: set<Operation>)
    requires UnionOf(words, before) == Ok(ops) && words(name) == Some(more)
    ensures UnionOf(words, before + [name]) == Ok(ops + more)
  {
    assert (before + [name])[..|before|] == before;
  }

  function FirstOps(items: seq<Operation>, n: nat): set<Operation>
    requires n <= |items|
  {
    if n == 0 then {} else FirstOps(items, n - 1) + {items[n - 1]}
  }

  lemma {:induction false} FirstOpsHold(items: seq<Operation>, n: nat, i: nat)
    requires i < n <= |items|
    ensures items[i] in FirstOps(items, n)
  {
    if i < n - 1 {
      FirstOpsHold(items, n - 1, i);
    }
  }

  lemma {:induction false} NamesRoundTrip(words: Vocabulary, items: seq<Operation>, ops: set<Operation>, n: nat)
    requires n <= |items| && forall op :: words(NameOf(op)) == Some({op})
    ensures UnionOf(words, ItemNames(items, ops, n)) == Ok(ops * FirstOps(items, n))
  {
    if n > 0 {
      var before, op := ItemNames(items, ops, n - 1), items[n - 1];
      NamesRoundTrip(words, items, ops, n - 1);
      var some := ops * FirstOps(items, n - 1);
      if op in ops {
        UnionSnoc(words, before, NameOf(op), some, {op});
        assert some + {op} == ops * FirstOps(items, n);
      } else {
        assert ItemNames(items, ops, n) == before;
        assert some == ops * FirstOps(items, n);
      }
    } else {
      assert ops * FirstOps(items, 0) == {};
    }
  }

  lemma AllOps(op: Operation)
    ensures op in FirstOps(ITEMS, |ITEMS|)
  {
    var i := match op
      case GetOp => 0 case ExistsOp => 1 case QueryOp => 2 case InsertOp => 3
      case SetOp => 4 case UpdateOp => 5 case DeleteOp => 6 case TruncateOp => 7;
    FirstOpsHold(ITEMS, |ITEMS|, i);
  }

  lemma SingleWord(words: Vocabulary, name: string, ops: set<Operation>)
    requires words(name) == Some(ops) && ops != {}
    ensures ParsedOperations(words, [name]) == Ok(ops)
  {
    UnionSnoc(words, [], name, {}, ops);
    assert [] + [name] == [name] && {} + ops == ops;
  }

  lemma WordFor(name: string)
    requires Plain(name)
    ensures OperationWords(name) == NamedOperations(name)
  {
    PlainFolds(name);
  }

  lemma ReadWord()
    ensures OperationWords("read") == Some(READ_OPS)
  {
    WordFor("read");
  }

  lemma WriteWord()
    ensures OperationWords("write") == Some(WRITE_OPS)
  {
    WordFor("write");
  }

  lemma ReadWriteWord()
    ensures OperationWords("readwrite") == Some(READ_OPS + WRITE_OPS)
  {
    WordFor("readwrite");
  }

  /** The words of a document and the bits they stand for, in any case and with blanks around. */
  lemma WordsAre(text: string)
    ensures var ops := OperationWords(text);
            match Fold(text)
            case "get" => ops.Some? && BitsOf(ops.value) == 1
            case "exists" => ops.Some? && BitsOf(ops.value) == 2
            case "query" => ops.Some? && BitsOf(ops.value) == 4
            case "insert" => ops.Some? && BitsOf(ops.value) == 8
            case "set" => ops.Some? && BitsOf(ops.value) == 16
            case "update" => ops.Some? && BitsOf(ops.value) == 32
            case "delete" => ops.Some? && BitsOf(ops.value) == 64
            case "truncate" => ops.Some? && BitsOf(ops.value) == 128
            case "read" => ops.Some? && BitsOf(ops.value) == 7
            case "write" => ops.Some? && BitsOf(ops.value) == 248
            case "mutation" => ops.Some? && BitsOf(ops.value) == 248
            case "mutations" => ops.Some? && BitsOf(ops.value) == 248
            case "readwrite" => ops.Some? && BitsOf(ops.value) == 255
            case "read-write" => ops.Some? && BitsOf(ops.value) == 255
            case "read_write" => ops.Some? && BitsOf(ops.value) == 255
            case _ => ops.None?
  {
    GroupBits();
  }

  lemma GroupBits()
    ensures BitsOf(READ_OPS) == READ && BitsOf(WRITE_OPS) == WRITE && BitsOf(READ_OPS + WRITE_OPS) == READ_WRITE
  {
    BitsOfUnion(READ_OPS, WRITE_OPS);
  }

  /** Every valid set of operations survives being named and parsed. */
  lemma OperationsRoundTrip(o: Operations)
    ensures OperationNames(o).Ok? <==> ValidSet(o)
    ensures ValidSet(o) ==>
              var parsed := ParsedOperations(OperationWords, OperationNames(o).value);
              parsed.Ok? && BitsOf(parsed.value) == o
  {
    if ValidSet(o) {
      GroupBits();
      if o == READ {
        ReadWord();
        SingleWord(OperationWords, "read", READ_OPS);
      } else if o == WRITE {
        WriteWord();
        SingleWord(OperationWords, "write", WRITE_OPS);
      } else if o == READ_WRITE {
        ReadWriteWord();
        SingleWord(OperationWords, "readwrite", READ_OPS + WRITE_OPS);
      } else {
        OtherRoundTrip(o);
      }
    }
  }

  lemma NamesAreWords(op: Operation)
    ensures OperationWords(NameOf(op)) == Some({op})
  {
    NamesArePlain(op);
    WordFor(NameOf(op));
  }

  lemma EveryNameIsWord()
    ensures forall op :: OperationWords(NameOf(op)) == Some({op})
  {
    forall op
      ensures OperationWords(NameOf(op)) == Some({op})
    {
      NamesAreWords(op);
    }
  }

  lemma AllNamesRoundTrip(words: Vocabulary, ops: set<Operation>)
    requires ops != {} && forall op :: words(NameOf(op)) == Some({op})
    ensures ParsedOperations(words, ItemNames(ITEMS, ops, |ITEMS|)) == Ok(ops)
  {
    NamesRoundTrip(words, ITEMS, ops, |ITEMS|);
    forall op | op in ops
      ensures op in FirstOps(ITEMS, |ITEMS|)
    {
      AllOps(op);
    }
    assert ops == ops * FirstOps(ITEMS, |ITEMS|);
  }

  lemma OtherRoundTrip(o: Operations)
    requires ValidSet(o)
    ensures ParsedOperations(OperationWords, ItemNames(ITEMS, SetOf(o), |ITEMS|)) == Ok(SetOf(o))
    ensures BitsOf(SetOf(o)) == o
  {
    BitsRoundTrip(o);
    BitsAreValid(SetOf(o));
    EveryNameIsWord();
    AllNamesRoundTrip(OperationWords, SetOf(o));
  }

  // ---- Paths --------------------------------------------------------------------------------

  /** A part of a path as NewPath takes it. */
  datatype Part = Any | Value(id: IdValue)

  /** NewPath for part i: collections and ids alternate. */
  function PartSegment(part: Part, i: nat): Option<Segment> {
    if i % 2 == 0 then
      if part.Value? && part.id.TextId? && part.id.typ == "string" && !Blank(part.id.text) then Some(Coll(part.id.text)) else None
    else if part.Any? then Some(AnyId)
    else if part.id.NilId? then None
    else Some(Id(part.id))
  }

  function PathOf(parts: seq<Part>): Result<Path, DocError> {
    if parts == [] then Ok([])
    else
      var n := |parts| - 1;
      match PathOf(parts[..n])
      case Err(e) => Err(e)
      case Ok(segments) =>
        match PartSegment(parts[n], n)
        case None => Err(BadPath(BadPart(n)))
        case Some(s) => Ok(segments + [s])
  }

  lemma {:induction false} PathStops(parts: seq<Part>, i: nat)
    requires i <= |parts| && PathOf(parts[..i]).Err?
    ensures PathOf(parts) == PathOf(parts[..i])
    decreases |parts|
  {
    if i == |parts| {
      assert parts[..i] == parts;
    } else {
      assert parts[..|parts| - 1][..i] == parts[..i];
      PathStops(parts[..|parts| - 1], i);
    }
  }

  /** What NewPath builds: collections with names, and ids that are not nil, in turn. */
  predicate WellFormed(p: Path) {
    forall i | 0 <= i < |p| ::
      if i % 2 == 0 then p[i].Coll? && !Blank(p[i].name) else !p[i].Coll? && (p[i].Id? ==> !p[i].value.NilId?)
  }

  lemma {:induction false} PathsAreWellFormed(parts: seq<Part>)
    requires PathOf(parts).Ok?
    ensures WellFormed(PathOf(parts).value) && |PathOf(parts).value| == |parts|
  {
    if parts != [] {
      PathsAreWellFormed(parts[..|parts| - 1]);
    }
  }

  method NewPath(parts: seq<Part>) returns (r: Result<Path, DocError>)
    ensures r == PathOf(parts)
    ensures r.Ok? ==> WellFormed(r.value) && |r.value| == |parts|
  {
    var segments: Path := [];
    for i := 0 to |parts|
      invariant PathOf(parts[..i]) == Ok(segments)
    {
      assert parts[..i + 1][..i] == parts[..i];
      var part := parts[i];
      if i % 2 == 0 {
        if !part.Value? || !part.id.TextId? || part.id.typ != "string" || Blank(part.id.text) {
          PathStops(parts, i + 1);
          return Err(BadPath(BadPart(i)));
        }
        segments := segments + [Coll(part.id.text)];
        continue;
      }
      if part.Any? {
        segments := segments + [AnyId];
        continue;
      }
      if part.id.NilId? {
        PathStops(parts, i + 1);
        return Err(BadPath(BadPart(i)));
      }
      segments := segments + [Id(part.id)];
    }
    assert parts[..|parts|] == parts;
    PathsAreWellFormed(parts);
    r := Ok(segments);
  }

  /** The text of a segment; only text ids travel. */
  predicate Textual(s: Segment) {
    s.Id? ==> s.value.TextId? && s.value.typ == "string"
  }

  function TextOf(s: Segment): string
    requires Textual(s) && !s.AnyId?
  {
    if s.Coll? then s.name else s.value.text
  }

  ghost predicate ByteSegment(s: Segment) {
    (s.Coll? ==> IsBytes(s.name)) && (s.Id? && s.value.TextId? ==> IsBytes(s.value.text))
  }

  /** A Go string is bytes. */
  ghost predicate BytePath(p: Path) {
    forall i | 0 <= i < |p| :: ByteSegment(p[i])
  }

  function Encoded(s: Segment): string
    requires Textual(s) && ByteSegment(s)
  {
    if s.AnyId? then "*" else Escape(TextOf(s))
  }

  function EncodedParts(p: Path): (r: seq<string>)
    requires BytePath(p) && forall i | 0 <= i < |p| :: Textual(p[i])
    ensures |r| == |p| && forall i | 0 <= i < |p| :: r[i] == Encoded(p[i])
  {
    seq(|p|, i requires 0 <= i < |p| => Encoded(p[i]))
  }

  function DocumentPath(p: Path): Result<string, DocError>
    requires BytePath(p)
  {
    if p == [] then Ok("/")
    else if forall i | 0 <= i < |p| :: Textual(p[i]) then Ok("/" + JoinSlash(EncodedParts(p)))
    else Err(NotSerializable)
  }

  method WritePath(p: Path) returns (r: Result<string, DocError>)
    requires BytePath(p)
    ensures r == DocumentPath(p)
  {
    if |p| == 0 {
      return Ok("/");
    }
    var parts: seq<string> := [];
    for i := 0 to |p|
      invariant |parts| == i && forall j | 0 <= j < i :: Textual(p[j]) && parts[j] == Encoded(p[j])
    {
      if p[i].AnyId? {
        parts := parts + ["*"];
        continue;
      }
      if p[i].Id? && !(p[i].value.TextId? && p[i].value.typ == "string") {
        return Err(NotSerializable);
      }
      parts := parts + [Escape(TextOf(p[i]))];
    }
    assert parts == EncodedParts(p);
    r := Ok("/" + JoinSlash(parts));
  }

  /** One part of a written path. */
  function ReadPart(text: string, i: nat): Result<Part, DocError> {
    if text == "" then Err(BadPath(EmptySegment))
    else
      match Unescape(text)
      case None => Err(BadPath(BadEscape))
      case Some(decoded) =>
        if decoded == "*" then if i % 2 == 1 then Ok(Any) else Err(BadPath(StarCollection))
        else Ok(Value(TextId("string", decoded)))
  }

  function ReadParts(parts: seq<string>): (r: Result<seq<Part>, DocError>)
    ensures r.Ok? ==> |r.value| == |parts|
  {
    if parts == [] then Ok([])
    else
      var n := |parts| - 1;
      match ReadParts(parts[..n])
      case Err(e) => Err(e)
      case Ok(read) =>
        match ReadPart(parts[n], n)
        case Err(e) => Err(e)
        case Ok(part) => Ok(read + [part])
  }

  /** What is left of a path text without its optional wildcard suffix. */
  function WithoutSuffix(path: string): string {
    if |path| >= 3 && path[|path| - 3..] == "/**" then path[..|path| - 3] else path
  }

  function ParsedPath(value: string): Result<Path, DocError> {
    var path := Trim(value);
    if path == "" || path[0] != '/' then Err(BadPath(NoSlash))
    else if path == "/" || path == "/**" then Ok([])
    else
      var trimmed := WithoutSuffix(path);
      match ReadParts(SplitSlash(if trimmed != "" && trimmed[0] == '/' then trimmed[1..] else trimmed))
      case Err(e) => Err(e)
      case Ok(parts) => PathOf(parts)
  }

  lemma {:induction false} ReadStops(parts: seq<string>, i: nat)
    requires i <= |parts| && ReadParts(parts[..i]).Err?
    ensures ReadParts(parts) == ReadParts(parts[..i])
    decreases |parts|
  {
    if i == |parts| {
      assert parts[..i] == parts;
    } else {
      assert parts[..|parts| - 1][..i] == parts[..i];
      ReadStops(parts[..|parts| - 1], i);
    }
  }

  method ParseDocumentPath(value: string) returns (r: Result<Path, DocError>)
    ensures r == ParsedPath(value)
  {
    var path := Trim(value);
    if path == "" || path[0] != '/' {
      return Err(BadPath(NoSlash));
    }
    if path == "/" || path == "/**" {
      return Ok([]);
    }
    path := WithoutSuffix(path);
    var parts := SplitSlash(if path != "" && path[0] == '/' then path[1..] else path);
    var read: seq<Part> := [];
    for i := 0 to |parts|
      invariant ReadParts(parts[..i]) == Ok(read)
    {
      assert parts[..i + 1][..i] == parts[..i];
      var part := ReadPart(parts[i], i);
      if part.Err? {
        ReadStops(parts, i + 1);
        return Err(part.error);
      }
      read := read + [part.value];
    }
    assert parts[..|parts|] == parts;
    r := NewPath(read);
  }

  // ---- Path round trip -----------------------------------------------------------------------

  /** A segment that travels: any id, or non-empty text other than a lone star. */
  predicate Portable(s: Segment) {
    !s.AnyId? ==> Textual(s) && TextOf(s) != "" && TextOf(s) != "*"
  }

  predicate PortablePath(p: Path) {
    forall i | 0 <= i < |p| :: Portable(p[i])
  }

  lemma EncodedIsPlain(s: Segment)
    requires Textual(s) && ByteSegment(s)
    ensures forall k | 0 <= k < |Encoded(s)| :: Encoded(s)[k] == '*' || Unescaped(Encoded(s)[k]) || Encoded(s)[k] == '%'
    ensures '/' !in Encoded(s)
    ensures '*' in Encoded(s) ==> s.AnyId?
  {
    forall k | 0 <= k < |Encoded(s)|
      ensures Encoded(s)[k] != '/' && (Encoded(s)[k] == '*' ==> s.AnyId?)
    {
    }
  }

  /** Part i of a written path is read as this segment. */
  predicate ReadsAs(text: string, i: nat, s: Segment) {
    ReadPart(text, i).Ok? && PartSegment(ReadPart(text, i).value, i) == Some(s)
  }

  /** A segment is read back as itself exactly when it is portable. */
  lemma SegmentRoundTrips(s: Segment, i: nat)
    requires Textual(s) && ByteSegment(s)
    requires if i % 2 == 0 then s.Coll? && !Blank(s.name) else !s.Coll? && (s.Id? ==> !s.value.NilId?)
    ensures ReadsAs(Encoded(s), i, s) <==> Portable(s)
  {
    if s.AnyId? {
      StarReads();
    } else {
      EscapeRoundTrips(TextOf(s));
    }
  }

  lemma StarReads()
    ensures Unescape("*") == Some("*")
  {
    assert "*"[1..] == "" && ['*'] + "" == "*";
  }

  /** Reading parts and building a path of them. */
  function ReadPath(parts: seq<string>): Result<Path, DocError> {
    match ReadParts(parts)
    case Err(e) => Err(e)
    case Ok(read) => PathOf(read)
  }

  lemma ReadPathSnoc(parts: seq<string>, text: string, want: Path, s: Segment)
    ensures ReadPath(parts + [text]) == Ok(want + [s]) <==>
            ReadPath(parts) == Ok(want) && ReadsAs(text, |parts|, s)
  {
    assert (parts + [text])[..|parts|] == parts;
    if ReadParts(parts).Ok? && ReadPart(text, |parts|).Ok? {
      var read, part := ReadParts(parts).value, ReadPart(text, |parts|).value;
      assert ReadParts(parts + [text]) == Ok(read + [part]);
      assert (read + [part])[..|read|] == read;
      if PathOf(read).Ok? && PartSegment(part, |read|).Some? {
        SnocInjective(PathOf(read).value, PartSegment(part, |read|).value, want, s);
      }
    }
  }

  lemma SnocInjective(a: Path, x: Segment, b: Path, y: Segment)
    ensures a + [x] == b + [y] <==> a == b && x == y
  {
    if a + [x] == b + [y] {
      assert (a + [x])[..|a|] == a && (b + [y])[..|b|] == b;
      assert (a + [x])[|a|] == x && (b + [y])[|b|] == y;
    }
  }

  ghost predicate EachReads(parts: seq<string>, p: Path, n: nat)
    requires n <= |parts| == |p|
  {
    forall i | 0 <= i < n :: ReadsAs(parts[i], i, p[i])
  }

  lemma EachReadsSnoc(parts: seq<string>, p: Path, n: nat)
    requires n < |parts| == |p|
    ensures EachReads(parts, p, n + 1) <==> EachReads(parts, p, n) && ReadsAs(parts[n], n, p[n])
  {
  }

  /** Parts read as a path exactly when each reads as its segment. */
  lemma {:induction false} PartsReadAs(parts: seq<string>, p: Path, n: nat)
    requires n <= |parts| == |p|
    ensures ReadPath(parts[..n]) == Ok(p[..n]) <==> EachReads(parts, p, n)
  {
    if n == 0 {
      assert parts[..0] == [] && p[..0] == [];
    } else {
      PartsReadAs(parts, p, n - 1);
      OneMorePart(parts, p, n - 1);
      EachReadsSnoc(parts, p, n - 1);
    }
  }

  lemma OneMorePart(parts: seq<string>, p: Path, n: nat)
    requires n < |parts| == |p|
    ensures ReadPath(parts[..n + 1]) == Ok(p[..n + 1]) <==> ReadPath(parts[..n]) == Ok(p[..n]) && ReadsAs(parts[n], n, p[n])
  {
    assert parts[..n + 1] == parts[..n] + [parts[n]] && p[..n + 1] == p[..n] + [p[n]];
    ReadPathSnoc(parts[..n], parts[n], p[..n], p[n]);
  }

  lemma PartsRoundTrip(p: Path)
    requires BytePath(p) && WellFormed(p) && forall i | 0 <= i < |p| :: Textual(p[i])
    ensures ReadPath(EncodedParts(p)) == Ok(p) <==> PortablePath(p)
  {
    var parts := EncodedParts(p);
    forall i | 0 <= i < |p|
      ensures ReadsAs(parts[i], i, p[i]) <==> Portable(p[i])
    {
      SegmentRoundTrips(p[i], i);
    }
    PartsReadAs(parts, p, |p|);
    assert parts[..|p|] == parts && p[..|p|] == p;
  }

  lemma {:induction false} JoinedIsPlain(p: Path, k: nat)
    requires p != [] && BytePath(p) && forall i | 0 <= i < |p| :: Textual(p[i])
    requires k < |JoinSlash(EncodedParts(p))|
    ensures !IsSpace(JoinSlash(EncodedParts(p))[k])
    ensures k > 0 && JoinSlash(EncodedParts(p))[k] == '*' ==> JoinSlash(EncodedParts(p))[k - 1] != '*'
    decreases |p|
  {
    var parts := EncodedParts(p);
    EncodedIsPlain(p[0]);
    if |p| > 1 {
      assert EncodedParts(p[1..]) == parts[1..];
      var rest := JoinSlash(parts[1..]);
      assert JoinSlash(parts) == parts[0] + "/" + rest;
      if k > |parts[0]| {
        JoinedIsPlain(p[1..], k - |parts[0]| - 1);
      }
    }
  }

  lemma TrimIsIdentity(s: string)
    requires s != "" && !IsSpace(s[0]) && !IsSpace(s[|s| - 1])
    ensures Trim(s) == s
  {
  }

  /** The text of a non-empty path is never mistaken for the root or for a path with
      a wildcard suffix, and splits into its parts. */
  lemma WrittenPathSplits(p: Path)
    requires p != [] && BytePath(p) && WellFormed(p) && forall i | 0 <= i < |p| :: Textual(p[i])
    ensures ParsedPath("/" + JoinSlash(EncodedParts(p))) == ReadPath(EncodedParts(p))
  {
    var parts := EncodedParts(p);
    var joined := JoinSlash(parts);
    var text := "/" + joined;
    JoinedNotEmpty(p);
    JoinedIsPlain(p, |joined| - 1);
    TrimIsIdentity(text);
    assert joined[0] != '*' by { FirstIsNotStar(p); }
    assert text != "/**" by { assert text[1] == joined[0]; }
    NoSuffix(text);
    assert text[1..] == joined;
    forall i | 0 <= i < |parts|
      ensures '/' !in parts[i]
    {
      EncodedIsPlain(p[i]);
    }
    SplitJoin(parts);
  }

  lemma NoSuffix(text: string)
    requires |text| >= 2 && !(text[|text| - 1] == '*' && text[|text| - 2] == '*')
    ensures WithoutSuffix(text) == text
  {
    if |text| >= 3 {
      var end := text[|text| - 3..];
      assert end[1] == text[|text| - 2] && end[2] == text[|text| - 1];
    }
  }

  lemma JoinedNotEmpty(p: Path)
    requires p != [] && BytePath(p) && WellFormed(p) && forall i | 0 <= i < |p| :: Textual(p[i])
    ensures JoinSlash(EncodedParts(p)) != ""
  {
    assert p[0].Coll? && !Blank(p[0].name);
    assert Encoded(p[0]) != "";
  }

  lemma FirstIsNotStar(p: Path)
    requires p != [] && BytePath(p) && WellFormed(p) && forall i | 0 <= i < |p| :: Textual(p[i])
    requires JoinSlash(EncodedParts(p)) != ""
    ensures JoinSlash(EncodedParts(p))[0] != '*'
  {
    EncodedIsPlain(p[0]);
    assert Encoded(p[0]) != "" by { assert p[0].Coll? && !Blank(p[0].name); }
    assert JoinSlash(EncodedParts(p))[0] == Encoded(p[0])[0];
  }

  /** A path survives being written and read back if and only if every segment is any
      id or non-empty text other than a lone star. */
  lemma PathRoundTripsIff(p: Path)
    requires BytePath(p) && WellFormed(p)
    ensures (DocumentPath(p).Ok? && ParsedPath(DocumentPath(p).value) == Ok(p)) <==> PortablePath(p)
  {
    if p == [] {
      TrimIsIdentity("/");
    } else if forall i | 0 <= i < |p| :: Textual(p[i]) {
      WrittenPathSplits(p);
      PartsRoundTrip(p);
    } else {
      var i :| 0 <= i < |p| && !Textual(p[i]);
      assert !Portable(p[i]);
    }
  }
}
