/** Properties of the `Query` model: field parsing, construction errors,
    casting, rendering, the operators and `from_user_input`. */
module QueryLaws {
  import opened Results
  import Str
  import Escaping
  import opened Query

  // ---------------------------------------------------------------------
  // Lookups and field keywords

  /** Every lookup keyword is listed in `LOOKUPS` and decodes to itself. */
  lemma LookupNameRoundTrip(l: Lookup)
    ensures LookupName(l) in LOOKUPS
    ensures ParseLookup(LookupName(l)) == Some(l)
  {
  }

  lemma LookupNameHasNoUnderscore(l: Lookup)
    ensures forall i :: 0 <= i < |LookupName(l)| ==> LookupName(l)[i] != '_'
  {
  }

  /** The keyword contains the `__` separator somewhere. */
  predicate HasSeparator(key: string)
  {
    exists j :: 0 <= j < |key| && Str.OccursAt(key, "__", j)
  }

  /** The keyword ends in `__` followed by the keyword of lookup `l`. */
  predicate HasLookupSuffix(key: string, l: Lookup)
  {
    var suffix := "__" + LookupName(l);
    |suffix| <= |key| && key[|key| - |suffix|..] == suffix
  }

  /** A keyword `name__lookup` is split back into `name` and the lookup,
      whatever `name` is: the lookup keywords contain no underscore, so the
      last `__` is the one in front of the lookup. */
  lemma {:induction false} ProcessFieldAcceptsLookupKey(name: string, l: Lookup, v: Value)
    ensures ProcessField(name + "__" + LookupName(l), v) == Ok(FieldSpec(name, Some(l), v))
  {
    var ln := LookupName(l);
    var key := name + "__" + ln;
    LookupNameHasNoUnderscore(l);
    assert key[|name|..|name| + 2] == "__";
    assert Str.OccursAt(key, "__", |name|);
    assert forall k :: |name| + 2 <= k < |key| ==> key[k] == ln[k - |name| - 2];
    forall j | j > |name|
      ensures !Str.OccursAt(key, "__", j)
    {
      if j + 2 <= |key| {
        assert key[j + 1] != '_';
        assert key[j..j + 2][1] == key[j + 1];
      }
    }
    var i := Str.RFind(key, "__");
    assert i == |name|;
    assert key[..i] == name;
    assert key[i + 2..] == ln;
    LookupNameRoundTrip(l);
  }

  /** A keyword without `__` is a plain field with no lookup. */
  lemma ProcessFieldPlainKey(key: string, v: Value)
    requires !HasSeparator(key)
    ensures ProcessField(key, v) == Ok(FieldSpec(key, None, v))
  {
  }

  /** `_process_field` fails exactly for a keyword that contains `__` but does
      not end in `__` plus a recognised lookup. */
  lemma ProcessFieldRejectsExactly(key: string, v: Value)
    ensures ProcessField(key, v).Err? <==> HasSeparator(key) && forall l :: !HasLookupSuffix(key, l)
  {
    if ProcessField(key, v).Err? {
      RejectedKeyShape(key, v);
    } else {
      AcceptedKeyShape(key, v);
    }
  }

  lemma RejectedKeyShape(key: string, v: Value)
    requires ProcessField(key, v).Err?
    ensures HasSeparator(key) && forall l :: !HasLookupSuffix(key, l)
  {
    SuffixSeparator(key, ProcessField(key, v).error.suffix);
    forall l | HasLookupSuffix(key, l)
      ensures false
    {
      LookupSuffixSplit(key, l);
      ProcessFieldAcceptsLookupKey(key[..|key| - |LookupName(l)| - 2], l, v);
    }
  }

  lemma SuffixSeparator(key: string, suffix: string)
    requires |suffix| + 2 <= |key| && key[|key| - |suffix| - 2..] == "__" + suffix
    ensures HasSeparator(key)
  {
    var j := |key| - |suffix| - 2;
    assert key[j..j + 2] == key[j..][..2] == "__";
    assert Str.OccursAt(key, "__", j);
  }

  lemma LookupSuffixSplit(key: string, l: Lookup)
    requires HasLookupSuffix(key, l)
    ensures key == key[..|key| - |LookupName(l)| - 2] + "__" + LookupName(l)
  {
    var n := |key| - |LookupName(l)| - 2;
    assert key == key[..n] + key[n..];
  }

  lemma AcceptedKeyShape(key: string, v: Value)
    requires ProcessField(key, v).Ok?
    ensures !HasSeparator(key) || exists l :: HasLookupSuffix(key, l)
  {
    var r := ProcessField(key, v).value;
    if r.lookup.Some? {
      assert key == r.name + "__" + LookupName(r.lookup.value);
      assert HasLookupSuffix(key, r.lookup.value);
    }
  }

  // ---------------------------------------------------------------------
  // Construction

  /** `Query(...)` raises `ParsingException` exactly when truthy words come
      with a field, when more than one field is given, or when the one field
      keyword has an unknown lookup; words with a field win over the other
      two causes. Construction succeeds otherwise. */
  lemma NewFailsExactly(query: Value, fields: seq<(string, Value)>, boost: Option<Boost>, markEmpty: bool)
    ensures New(query, fields, boost, markEmpty).Err? <==>
      || (Truthy(query) && |fields| > 0)
      || |fields| > 1
      || (|fields| == 1 && HasSeparator(fields[0].0) && forall l :: !HasLookupSuffix(fields[0].0, l))
    ensures Truthy(query) && |fields| > 0 ==> New(query, fields, boost, markEmpty) == Err(WordsAndFields)
    ensures !Truthy(query) && |fields| > 1 ==> New(query, fields, boost, markEmpty) == Err(TooManyFields)
  {
    if |fields| == 1 {
      ProcessFieldRejectsExactly(fields[0].0, fields[0].1);
    }
  }

  /** `Query()`, `Query('')`, `Query(None)`, `Query(0)` and `Query([])` all
      match everything, whatever boost they carry; `Query(False)` is a real
      query for the word `false`. */
  lemma FreeTextRendering(q: Value, boost: Option<Boost>)
    ensures New(q, [], boost, false).Ok?
    ensures !Truthy(q) && !q.Bool? ==> Render(New(q, [], boost, false).value) == "*:*"
    ensures Render(New(Bool(false), [], None, false).value) == "\"false\""
    ensures Render(New(Bool(true), [], None, false).value) == "\"true\""
    ensures Render(MatchAll()) == "*:*"
  {
  }

  /** `Query.empty()` renders nothing. */
  lemma EmptyRendersNothing()
    ensures New(Null, [], None, true) == Ok(Empty())
    ensures Render(Empty()) == ""
  {
  }

  // ---------------------------------------------------------------------
  // Casting

  /** The elements of a collection are cast one by one without the lookup
      and joined by ` TO ` for `range`, by ` OR ` otherwise. */
  lemma {:induction false} CastListElementwise(items: seq<Value>, l: Option<Lookup>)
    ensures Cast(List(items), l) == Str.Join(CastEach(items), if l == Some(Range) then " TO " else " OR ")
    ensures forall i :: 0 <= i < |items| ==> CastEach(items)[i] == Cast(items[i], None)
    decreases |items|
  {
    if |items| > 0 {
      CastListElementwise(items[1..], l);
      forall i | 0 < i < |items|
        ensures CastEach(items)[i] == Cast(items[i], None)
      {
        assert CastEach(items)[i] == CastEach(items[1..])[i - 1];
      }
    }
    if ListJoinWord(l) == "TO" {
      assert " " + ListJoinWord(l) + " " == " TO ";
    } else {
      assert " " + ListJoinWord(l) + " " == " OR ";
    }
  }

  /** So `startswith` and `endswith` do not decorate the members of a
      collection: a one-element list casts like its element alone. */
  lemma ListMembersUndecorated(s: string, l: Lookup)
    ensures Cast(List([Text(s)]), Some(l)) == Quote(Escaping.Escape(s))
  {
    CastListElementwise([Text(s)], Some(l));
  }

  /** A text value becomes one quoted phrase whose content reads back as the
      original text, with the prefix or suffix wildcard outside the escaped
      part. Whitespace inside the value is kept inside the one phrase. */
  lemma CastTextDecodes(s: string, l: Option<Lookup>)
    ensures Cast(Text(s), l) == Quote(Decorate(Escaping.Escape(s), l))
    ensures l == Some(StartsWith) ==> Cast(Text(s), l) == Quote(Escaping.Escape(s) + "*")
    ensures l == Some(EndsWith) ==> Cast(Text(s), l) == Quote("*" + Escaping.Escape(s))
    ensures l != Some(StartsWith) && l != Some(EndsWith) ==> Cast(Text(s), l) == Quote(Escaping.Escape(s))
    ensures Escaping.Unescape(Escaping.Escape(s)) == Some(s)
  {
    Escaping.EscapeRoundTrip(s);
  }

  /** Booleans, timestamps and nested queries ignore the lookup: a boolean
      is a quoted lowercase word, a timestamp its quoted ISO form (not
      escaped), a nested query its own rendering without quotes. */
  lemma CastNonText(b: bool, iso: string, n: Node, l: Option<Lookup>)
    ensures Cast(Bool(b), l) == (if b then "\"true\"" else "\"false\"")
    ensures Cast(Timestamp(iso), l) == "\"" + iso + "\""
    ensures Cast(Sub(n), l) == Render(n)
  {
  }

  /** Numbers and `None` are cast through their Python `str()` like text. */
  lemma CastScalars(i: int, l: Option<Lookup>)
    ensures Cast(Int(i), l) == Quote(Decorate(Escaping.Escape(Str.IntToString(i)), l))
    ensures Cast(Null, l) == Quote(Decorate("None", l))
  {
    NoneIsPlain();
  }

  lemma NoneIsPlain()
    ensures Escaping.Escape("None") == "None"
  {
    var s := "None";
    assert forall i :: 0 <= i < |s| ==> !Escaping.IsSpecial(s[i]);
    Escaping.EscapeIdentityIffPlain(s);
  }

  // ---------------------------------------------------------------------
  // Field leaves

  /** A field leaf renders as `name:` followed by the cast value, wrapped in
      the lookup's template when there is one. This holds for every kind of
      value: text, numbers, booleans, timestamps, `in`/`range` collections
      and nested queries. */
  lemma FieldRendering(name: string, v: Value, l: Option<Lookup>)
    requires name != ""
    ensures var n := Node(false, "", name, l, v, None);
      var x := Cast(v, l);
      && (l.None? ==> Render(n) == name + ":" + x)
      && (l == Some(Lte) ==> Render(n) == name + ":" + ("([* TO " + x + "])"))
      && (l == Some(Gte) ==> Render(n) == name + ":" + ("([" + x + " TO *])"))
      && (l == Some(Lt) ==> Render(n) == name + ":" + ("({* TO " + x + "})"))
      && (l == Some(Gt) ==> Render(n) == name + ":" + ("({" + x + " TO *})"))
      && (l == Some(In) || l == Some(Range) || l == Some(StartsWith) || l == Some(EndsWith) ==>
            Render(n) == name + ":" + ("(" + x + ")"))
  {
    FieldLeafShape(name, v, l);
    if l.Some? {
      LookupTemplate(l.value, Cast(v, l));
    }
  }

  lemma LookupTemplate(k: Lookup, x: string)
    ensures k == Lte ==> ProcessLookup(k, x) == "([* TO " + x + "])"
    ensures k == Gte ==> ProcessLookup(k, x) == "([" + x + " TO *])"
    ensures k == Lt ==> ProcessLookup(k, x) == "({* TO " + x + "})"
    ensures k == Gt ==> ProcessLookup(k, x) == "({" + x + " TO *})"
    ensures k in {In, Range, StartsWith, EndsWith} ==> ProcessLookup(k, x) == "(" + x + ")"
  {
  }

  lemma FieldLeafShape(name: string, v: Value, l: Option<Lookup>)
    requires name != ""
    ensures var n := Node(false, "", name, l, v, None);
      var x := Cast(v, l);
      Render(n) == name + ":" + (if l.Some? then ProcessLookup(l.value, x) else x)
  {
    var n := Node(false, "", name, l, v, None);
    assert !MatchesEverything(n);
  }

  /** `Query(name__lookup=v)` builds the field leaf for `name` with that
      lookup, and `Query(key=v)` for a key without `__` the leaf for `key`
      with no lookup. */
  lemma FieldKeywordQuery(name: string, l: Lookup, key: string, v: Value)
    requires !HasSeparator(key)
    ensures New(Null, [(name + "__" + LookupName(l), v)], None, false) == Ok(Node(false, "", name, Some(l), v, None))
    ensures New(Null, [(key, v)], None, false) == Ok(Node(false, "", key, None, v, None))
  {
    ProcessFieldAcceptsLookupKey(name, l, v);
    ProcessFieldPlainKey(key, v);
  }

  /** The rendering of `Query(name__lookup=v)`: for example
      `Query(pub_date__lte=t)` renders `pub_date:([* TO "t"])`. */
  lemma LookupKeywordRendering(name: string, l: Lookup, v: Value)
    requires name != ""
    ensures var r := New(Null, [(name + "__" + LookupName(l), v)], None, false);
      var x := Cast(v, Some(l));
      && r.Ok?
      && (l == Lte ==> Render(r.value) == name + ":" + ("([* TO " + x + "])"))
      && (l == Gte ==> Render(r.value) == name + ":" + ("([" + x + " TO *])"))
      && (l == Lt ==> Render(r.value) == name + ":" + ("({* TO " + x + "})"))
      && (l == Gt ==> Render(r.value) == name + ":" + ("({" + x + " TO *})"))
      && (l in {In, Range, StartsWith, EndsWith} ==> Render(r.value) == name + ":" + ("(" + x + ")"))
  {
    FieldKeywordQuery(name, l, "", v);
    FieldRendering(name, v, Some(l));
  }

  /** The boost suffix belongs to the leaf branch of `_eval`: it is appended
      exactly once after the field and value, and never to `""` (empty
      node) or `*:*` (match-all node). */
  lemma BoostOnlyOnLeaf(n: Node, b: Boost)
    requires n.cache == "" && n.boost == Some(b)
    ensures n.empty || MatchesEverything(n) ==> Render(n) == Render(n.(boost := None))
    ensures !n.empty && !MatchesEverything(n) ==> Render(n) == Render(n.(boost := None)) + BoostSuffix(b)
  {
  }

  // ---------------------------------------------------------------------
  // Operators

  /** `empty & X` and `empty | X` render exactly as `X` for any `X` that
      renders something. */
  lemma EmptyIsIdentity(x: Node)
    requires Render(x) != ""
    ensures Render(And(Empty(), x)) == Render(x)
    ensures Render(Or(Empty(), x)) == Render(x)
  {
  }

  /** `Query.empty() & Query.empty()` leaves the cache falsy and clears the
      empty flag, so the result matches everything. */
  lemma EmptyAndEmpty()
    ensures !And(Empty(), Empty()).empty
    ensures Render(And(Empty(), Empty())) == "*:*"
    ensures Render(Or(Empty(), Empty())) == "*:*"
  {
  }

  /** `~Query.empty()` renders `(NOT )` yet stays empty, so a following `&`
      or `|` discards the negation. */
  lemma NotOfEmpty(x: Node)
    requires Render(x) != ""
    ensures Not(Empty()).empty
    ensures Render(Not(Empty())) == "(NOT )"
    ensures Render(And(Not(Empty()), x)) == Render(x)
  {
  }

  /** For a non-empty left operand the operators parenthesise their
      operands' renderings; `~` always does. */
  lemma OperatorRendering(a: Node, b: Node)
    ensures !a.empty ==> Render(And(a, b)) == "(" + Render(a) + " AND " + Render(b) + ")"
    ensures !a.empty ==> Render(Or(a, b)) == "(" + Render(a) + " OR " + Render(b) + ")"
    ensures Render(Not(a)) == "(NOT " + Render(a) + ")"
  {
  }

  /** Once a node has a cache, it renders as that cache whatever its other
      attributes: composition freezes the rendering. */
  lemma CacheIsAuthoritative(n: Node, empty: bool, field: string, lookup: Option<Lookup>, query: Value, boost: Option<Boost>)
    requires n.cache != ""
    ensures Render(n) == n.cache
    ensures Render(n.(empty := empty, field := field, lookup := lookup, query := query, boost := boost)) == Render(n)
  {
  }

  /** A boolean expression over query nodes, as written with Python's `&`,
      `|` and `~` (operator precedence already resolved). Each leaf stands
      for a distinct `Query` object: the Python operators change their left
      operand in place and return it, so an object used twice in one
      expression would be read after it was changed. */
  datatype Expr =
    | Leaf(node: Node)
    | Conj(left: Expr, right: Expr)
    | Disj(left: Expr, right: Expr)
    | Neg(operand: Expr)

  /** Evaluating the Python expression, for leaves that are distinct
      objects: apply the operators bottom-up. */
  function Build(e: Expr): Node
  {
    match e
    case Leaf(n) => n
    case Conj(l, r) => And(Build(l), Build(r))
    case Disj(l, r) => Or(Build(l), Build(r))
    case Neg(x) => Not(Build(x))
  }

  /** Reference rendering of an expression tree: one pair of parentheses per
      operator, operands in place. */
  function Show(e: Expr): string
  {
    match e
    case Leaf(n) => Render(n)
    case Conj(l, r) => "(" + Show(l) + " AND " + Show(r) + ")"
    case Disj(l, r) => "(" + Show(l) + " OR " + Show(r) + ")"
    case Neg(x) => "(NOT " + Show(x) + ")"
  }

  predicate NoEmptyLeaves(e: Expr)
  {
    match e
    case Leaf(n) => !n.empty
    case Conj(l, r) => NoEmptyLeaves(l) && NoEmptyLeaves(r)
    case Disj(l, r) => NoEmptyLeaves(l) && NoEmptyLeaves(r)
    case Neg(x) => NoEmptyLeaves(x)
  }

  /** Without empty leaves, the snapshotting operators render any expression
      whose leaves are distinct objects as its reference rendering, at any
      depth. */
  lemma {:induction false} BuildRendersAsShow(e: Expr)
    requires NoEmptyLeaves(e)
    ensures !Build(e).empty
    ensures Render(Build(e)) == Show(e)
  {
    match e
    case Leaf(n) =>
    case Conj(l, r) =>
      BuildRendersAsShow(l);
      BuildRendersAsShow(r);
    case Disj(l, r) =>
      BuildRendersAsShow(l);
      BuildRendersAsShow(r);
    case Neg(x) =>
      BuildRendersAsShow(x);
  }

  // ---------------------------------------------------------------------
  // User input

  /** The phrase a free-text word renders as. */
  function Phrase(t: string): string
  {
    Quote(Escaping.Escape(t))
  }

  /** Reference for the left fold: `((p0 OP p1) OP p2) ...`. */
  function Nest(parts: seq<string>, word: string): string
    requires |parts| >= 1
    decreases |parts|
  {
    if |parts| == 1 then parts[0]
    else "(" + Nest(parts[..|parts| - 1], word) + " " + word + " " + parts[|parts| - 1] + ")"
  }

  function Phrases(words: seq<string>): (r: seq<string>)
    ensures |r| == |words|
  {
    seq(|words|, i requires 0 <= i < |words| => Phrase(words[i]))
  }

  lemma WordRendering(t: string)
    requires t != ""
    ensures New(Text(t), [], None, false) == Ok(Word(t))
    ensures Render(Word(t)) == Phrase(t)
  {
    assert !MatchesEverything(Word(t));
    assert Cast(Text(t), None) == Phrase(t);
    assert Render(Word(t)) == "" + Phrase(t);
  }

  lemma {:induction false} FoldWordsRendering(words: seq<string>, word: string)
    requires |words| >= 1
    requires forall k :: 0 <= k < |words| ==> words[k] != []
    ensures !FoldWords(words, word).empty
    ensures Render(FoldWords(words, word)) == Nest(Phrases(words), word)
    decreases |words|
  {
    if |words| == 1 {
      WordRendering(words[0]);
    } else {
      var init := words[..|words| - 1];
      var last := words[|words| - 1];
      var f := FoldWords(init, word);
      FoldWordsRendering(init, word);
      WordRendering(last);
      assert FoldWords(words, word) == Combine(f, Word(last), word);
      CombineRendering(f, Word(last), word);
      var ps := Phrases(words);
      assert ps[..|ps| - 1] == Phrases(init);
      assert ps[|ps| - 1] == Phrase(last);
      NestStep(ps, word);
    }
  }

  lemma NestStep(parts: seq<string>, word: string)
    requires |parts| >= 2
    ensures Nest(parts, word) == "(" + Nest(parts[..|parts| - 1], word) + " " + word + " " + parts[|parts| - 1] + ")"
  {
  }

  lemma CombineRendering(a: Node, b: Node, word: string)
    requires !a.empty
    ensures Render(Combine(a, b, word)) == "(" + Render(a) + " " + word + " " + Render(b) + ")"
  {
  }

  /** Blank input renders `*:*`. */
  lemma BlankInputMatchesAll(userInput: string, defaultOp: string)
    requires Str.AllSpaces(userInput)
    ensures Render(FromUserInput(userInput, defaultOp)) == "*:*"
  {
    assert Str.Strip(userInput) == "";
    assert Str.FirstSpace("") == 0;
    assert Str.SplitSpaces("") == [""];
    assert FromUserInput(userInput, defaultOp) == Word("");
    assert MatchesEverything(Word(""));
  }

  /** Non-blank input renders as the left-nested join of its
      whitespace-separated words, each as an escaped phrase, with `AND` when
      the default operator is `AND` and `OR` otherwise. */
  lemma UserInputRendering(userInput: string, defaultOp: string)
    requires !Str.AllSpaces(userInput)
    ensures var words := Str.SplitSpaces(Str.Strip(userInput));
      && (forall k :: 0 <= k < |words| ==> words[k] != [] && Str.NoSpaces(words[k]))
      && Render(FromUserInput(userInput, defaultOp)) == Nest(Phrases(words), DefaultWord(defaultOp))
  {
    var s := Str.Strip(userInput);
    Str.SplitStrippedWords(s);
    FoldWordsRendering(Str.SplitSpaces(s), DefaultWord(defaultOp));
  }

  /** Words typed with any whitespace runs between and around them come out
      as exactly those words: `from_user_input(" ice  cream ")` (words `ice`
      and `cream`, separator `"  "`, one space before and after) renders
      like `Query('ice') & Query('cream')`. */
  lemma {:induction false} UserInputOfWords(words: seq<string>, seps: seq<string>, pre: string, post: string, defaultOp: string)
    requires |words| >= 1 && |seps| == |words| - 1
    requires Str.Words(words) && Str.Separators(seps)
    requires Str.AllSpaces(pre) && Str.AllSpaces(post)
    ensures Render(FromUserInput(pre + Str.Interleave(words, seps) + post, defaultOp)) == Nest(Phrases(words), DefaultWord(defaultOp))
  {
    var j := Str.Interleave(words, seps);
    Str.JoinStartsWithWord(words, seps);
    JoinEndsWithWord(words, seps);
    StripPadded(pre, j, post);
    Str.SplitJoinRoundTrip(words, seps);
    FoldWordsRendering(words, DefaultWord(defaultOp));
  }

  lemma {:induction false} JoinEndsWithWord(words: seq<string>, seps: seq<string>)
    requires |words| >= 1 && |seps| == |words| - 1 && words[|words| - 1] != []
    ensures Str.Interleave(words, seps) != []
    ensures Str.Interleave(words, seps)[|Str.Interleave(words, seps)| - 1] == words[|words| - 1][|words[|words| - 1]| - 1]
    decreases |words|
  {
    if |words| > 1 {
      JoinEndsWithWord(words[1..], seps[1..]);
    }
  }

  lemma StripPadded(pre: string, s: string, post: string)
    requires s != [] && !Str.IsSpace(s[0]) && !Str.IsSpace(s[|s| - 1])
    requires Str.AllSpaces(pre) && Str.AllSpaces(post)
    ensures Str.Strip(pre + s + post) == s
  {
    var t := pre + s + post;
    assert t[..|pre|] == pre && t[|pre|] == s[0];
    Str.LeadingSpacesAt(t, |pre|);
    var u := Str.LStrip(t);
    assert u == s + post;
    assert u[|s|..] == post && u[|s| - 1] == s[|s| - 1];
    Str.TrailingStartAt(u, |s|);
    assert Str.RStrip(u) == u[..|s|] == s;
  }
}
