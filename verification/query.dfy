/** `elasticfun/query.py`: the `Query` expression node, its construction
    (field parsing and validation), value casting, lookup templates,
    rendering to a Lucene query string, the `&`, `|` and `~` operators and
    `from_user_input`.

    The Python class mutates the left operand of `&`, `|` and `~` and
    returns it; here the operators return the updated node instead. */
module Query {
  import opened Results
  import Str
  import Escaping

  // ---------------------------------------------------------------------
  // Lookups

  datatype Lookup = Lte | Gte | Lt | Gt | In | Range | StartsWith | EndsWith

  /** The keyword that selects a lookup in a `field__lookup` key. */
  function LookupName(l: Lookup): string
  {
    match l
    case Lte => "lte"
    case Gte => "gte"
    case Lt => "lt"
    case Gt => "gt"
    case In => "in"
    case Range => "range"
    case StartsWith => "startswith"
    case EndsWith => "endswith"
  }

  /** `LOOKUPS`: the recognised lookup keywords. */
  const LOOKUPS: seq<string> := ["lte", "gte", "lt", "gt", "in", "range", "startswith", "endswith"]

  /** Decodes a lookup keyword; `None` exactly for the keywords outside
      `LOOKUPS`. */
  function ParseLookup(suffix: string): (r: Option<Lookup>)
    ensures r.Some? <==> suffix in LOOKUPS
    ensures r.Some? ==> LookupName(r.value) == suffix
  {
    if suffix == "lte" then Some(Lte)
    else if suffix == "gte" then Some(Gte)
    else if suffix == "lt" then Some(Lt)
    else if suffix == "gt" then Some(Gt)
    else if suffix == "in" then Some(In)
    else if suffix == "range" then Some(Range)
    else if suffix == "startswith" then Some(StartsWith)
    else if suffix == "endswith" then Some(EndsWith)
    else None
  }

  /** `LOOKUP_OPS`: the word that joins the elements of a collection value. */
  const LOOKUP_OPS: map<Lookup, string> := map[In := "OR", Range := "TO"]

  /** `lookup and LOOKUP_OPS.get(lookup) or 'OR'`: only `range` joins with
      `TO`, every other lookup and no lookup at all join with `OR`. */
  function ListJoinWord(lookup: Option<Lookup>): (w: string)
    ensures w == "TO" <==> lookup == Some(Range)
    ensures w != "TO" ==> w == "OR"
  {
    if lookup.Some? && lookup.value in LOOKUP_OPS then LOOKUP_OPS[lookup.value] else "OR"
  }

  // ---------------------------------------------------------------------
  // Values and nodes

  /** The Python values a query or a field can hold. `Null` is `None`,
      `Timestamp` a `datetime` given by its `isoformat()`, `List` a `list`
      (or a `set` in some iteration order), `Sub` a nested `Query`. */
  datatype Value =
    | Null
    | Bool(b: bool)
    | Int(i: int)
    | Text(s: string)
    | Timestamp(iso: string)
    | List(items: seq<Value>)
    | Sub(node: Node)

  /** The `_boost=(field, factor)` pair. */
  datatype Boost = Boost(field: string, factor: int)

  /** A `Query` object. `field == ""` stands for `self.field` being `None`
      and `cache == ""` for `self._cache` being `None`: the source only ever
      tests both for truthiness, where `None` and `''` agree. */
  datatype Node = Node(
    empty: bool,
    cache: string,
    field: string,
    lookup: Option<Lookup>,
    query: Value,
    boost: Option<Boost>)

  /** Python truthiness of a value (`Query` defines neither `__bool__` nor
      `__len__`, so a nested query is always true). */
  predicate Truthy(v: Value)
  {
    match v
    case Null => false
    case Bool(b) => b
    case Int(i) => i != 0
    case Text(s) => s != ""
    case Timestamp(_) => true
    case List(items) => items != []
    case Sub(_) => true
  }

  /** `ParsingException`, by cause. */
  datatype ParseError =
    | WordsAndFields
    | TooManyFields
    | InvalidLookup(suffix: string)

  /** The result of `_process_field`: `(field, lookup, value)`. */
  datatype FieldSpec = FieldSpec(name: string, lookup: Option<Lookup>, value: Value)

  // ---------------------------------------------------------------------
  // Construction

  /** `_process_field`: splits a keyword at its last `__`; the part after it
      must be a recognised lookup. A keyword without `__` is a plain field. */
  function ProcessField(key: string, val: Value): (r: Result<FieldSpec, ParseError>)
    ensures r.Ok? ==> r.value.value == val
    ensures r.Ok? && r.value.lookup.None? ==> r.value.name == key
    ensures r.Ok? && r.value.lookup.Some? ==> key == r.value.name + "__" + LookupName(r.value.lookup.value)
    ensures r.Err? ==>
      && r.error.InvalidLookup?
      && r.error.suffix !in LOOKUPS
      && |r.error.suffix| + 2 <= |key|
      && key[|key| - |r.error.suffix| - 2..] == "__" + r.error.suffix
  {
    var i := Str.RFind(key, "__");
    if i < 0 then Ok(FieldSpec(key, None, val))
    else
      var suffix := key[i + 2..];
      match ParseLookup(suffix)
      case None => Err(InvalidLookup(suffix))
      case Some(l) =>
        assert key == key[..i] + "__" + suffix;
        Ok(FieldSpec(key[..i], Some(l), val))
  }

  /** `Query(query, **fields)`, with the special keywords `_boost` and
      `_empty` already taken out of `fields` as `__init__` does first.
      `fields` lists the remaining keyword arguments in call order. */
  function New(query: Value, fields: seq<(string, Value)>, boost: Option<Boost>, markEmpty: bool): (r: Result<Node, ParseError>)
    ensures r.Ok? ==> r.value.cache == "" && r.value.empty == markEmpty && r.value.boost == boost
    ensures r.Ok? && fields == [] ==> r.value.field == "" && r.value.lookup.None? && r.value.query == query
    ensures r.Ok? && fields != [] ==> r.value.query == fields[0].1
    ensures r.Ok? && fields != [] ==>
      ProcessField(fields[0].0, fields[0].1) == Ok(FieldSpec(r.value.field, r.value.lookup, r.value.query))
  {
    if Truthy(query) && |fields| > 0 then Err(WordsAndFields)
    else if |fields| > 1 then Err(TooManyFields)
    else if |fields| == 0 then Ok(Node(markEmpty, "", "", None, query, boost))
    else
      match ProcessField(fields[0].0, fields[0].1)
      case Err(e) => Err(e)
      case Ok(f) => Ok(Node(markEmpty, "", f.name, f.lookup, f.value, boost))
  }

  /** `Query()`: no words and no field, the match-everything node. */
  function MatchAll(): Node
  {
    Node(false, "", "", None, Null, None)
  }

  /** `Query.empty()`: the neutral start of a chain. */
  function Empty(): Node
  {
    Node(true, "", "", None, Null, None)
  }

  /** `Query(word)` for a free-text string. */
  function Word(t: string): Node
  {
    Node(false, "", "", None, Text(t), None)
  }

  // ---------------------------------------------------------------------
  // Casting and rendering

  /** `'"{}"'.format(s)`. */
  function Quote(s: string): string
  {
    "\"" + s + "\""
  }

  /** The wildcard `_cast` adds to an escaped scalar for the prefix and
      suffix lookups. */
  function Decorate(escaped: string, lookup: Option<Lookup>): string
  {
    if lookup == Some(StartsWith) then escaped + "*"
    else if lookup == Some(EndsWith) then "*" + escaped
    else escaped
  }

  /** The last branch of `_cast`: escape `text_type(val)`, decorate, quote. */
  function CastScalar(text: string, lookup: Option<Lookup>): string
  {
    Quote(Decorate(Escaping.Escape(text), lookup))
  }

  /** `_cast(val, lookup)`. */
  function Cast(v: Value, lookup: Option<Lookup>): string
    decreases v, 0
  {
    match v
    case Bool(b) => Quote(if b then "true" else "false")
    case Timestamp(iso) => Quote(iso)
    case List(items) => Str.Join(CastEach(items), " " + ListJoinWord(lookup) + " ")
    case Sub(n) => Render(n)
    case Null => CastScalar("None", lookup)
    case Int(i) => CastScalar(Str.IntToString(i), lookup)
    case Text(s) => CastScalar(s, lookup)
  }

  /** `map(self._cast, val)`: the elements of a collection are cast without
      the lookup. */
  function CastEach(items: seq<Value>): (r: seq<string>)
    ensures |r| == |items|
    decreases items, 0
  {
    if |items| == 0 then [] else [Cast(items[0], None)] + CastEach(items[1..])
  }

  /** `_process_lookup(lookup, value)`: range templates for the comparison
      lookups, the value itself for the others, always parenthesised. */
  function ProcessLookup(l: Lookup, value: string): string
  {
    var body :=
      match l
      case Lte => "[* TO " + value + "]"
      case Gte => "[" + value + " TO *]"
      case Lt => "{* TO " + value + "}"
      case Gt => "{" + value + " TO *}"
      case _ => value;
    "(" + body + ")"
  }

  /** `' {}^{}'.format(*boost)`. */
  function BoostSuffix(b: Boost): string
  {
    " " + b.field + "^" + Str.IntToString(b.factor)
  }

  /** The second test of `_eval`: no field and no words, where `False` still
      counts as words. */
  predicate MatchesEverything(n: Node)
  {
    n.field == "" && !Truthy(n.query) && !n.query.Bool?
  }

  /** `_eval()`. */
  function Eval(n: Node): string
    decreases n, 0
  {
    if n.empty then ""
    else if MatchesEverything(n) then "*:*"
    else
      var value := Cast(n.query, n.lookup);
      var body := if n.lookup.Some? then ProcessLookup(n.lookup.value, value) else value;
      var boosted := if n.boost.Some? then body + BoostSuffix(n.boost.value) else body;
      (if n.field != "" then n.field + ":" else "") + boosted
  }

  /** `__unicode__()`: `self._cache or self._eval()`. */
  function Render(n: Node): string
    decreases n, 1
  {
    if n.cache != "" then n.cache else Eval(n)
  }

  // ---------------------------------------------------------------------
  // Operators

  /** `__and__` (`word == "AND"`) and `__or__` (`word == "OR"`): snapshot the
      joined rendering into the left operand's cache and clear its empty
      flag; nothing else about the left operand changes. */
  function Combine(a: Node, b: Node, word: string): (r: Node)
    ensures !r.empty
    ensures r.field == a.field && r.lookup == a.lookup && r.query == a.query && r.boost == a.boost
    ensures a.empty ==> r.cache == Render(b)
    ensures !a.empty ==> Render(r) == r.cache
  {
    var rendered :=
      if a.empty then Render(b)
      else "(" + Render(a) + " " + word + " " + Render(b) + ")";
    a.(cache := rendered, empty := false)
  }

  /** `a & b`. */
  function And(a: Node, b: Node): Node
  {
    Combine(a, b, "AND")
  }

  /** `a | b`. */
  function Or(a: Node, b: Node): Node
  {
    Combine(a, b, "OR")
  }

  /** `~a`: snapshots `(NOT a)` into the cache. There is no empty check, so
      the empty flag is kept as it was. */
  function Not(a: Node): (r: Node)
    ensures r.empty == a.empty
    ensures r.field == a.field && r.lookup == a.lookup && r.query == a.query && r.boost == a.boost
    ensures Render(r) == r.cache
  {
    a.(cache := "(NOT " + Render(a) + ")")
  }

  // ---------------------------------------------------------------------
  // User input

  /** `operator.and_ if default_op == 'AND' else operator.or_`. */
  function DefaultWord(defaultOp: string): string
  {
    if defaultOp == "AND" then "AND" else "OR"
  }

  /** `reduce(op, [cls(token) for token in words])`: a left fold. */
  function FoldWords(words: seq<string>, word: string): Node
    requires |words| >= 1
    decreases |words|
  {
    if |words| == 1 then Word(words[0])
    else Combine(FoldWords(words[..|words| - 1], word), Word(words[|words| - 1]), word)
  }

  /** `Query.from_user_input(user_input, default_op)`. */
  function FromUserInput(userInput: string, defaultOp: string): Node
  {
    FoldWords(Str.SplitSpaces(Str.Strip(userInput)), DefaultWord(defaultOp))
  }
}
