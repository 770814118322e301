# elasticfun query core in Dafny

This project models the core of elasticfun, a Python library for Elasticsearch:

- **`Query` expression builder.** It compiles words, `field__lookup=value` filters, boosts, `&`, `|` and `~` into a Lucene query string.
- **`QuerySet.items()` result reordering.** It runs registered wrappers over the search hits and puts each wrapped hit back at the position of the original hit.

Every operation is a pure function over immutable datatypes. The Python operators `&`, `|` and `~` change the left operand in place and return it. Here they return the updated node instead.

Modules and files:

- `results.dfy`, module `Results`: the `Option` and `Result` types. Python exceptions are the `Err` arm.
- `strings.dfy`, module `Str`: Python string behaviour the core relies on:
  - `sep.join`
  - `str.rfind` and the `'__' in key` / `rsplit('__', 1)` pair
  - `str.strip()` and `re.split(r'\s+', ...)`, using Python's `isspace` character set
  - `Interleave`: words with a whitespace run of their own between each pair, the inputs `re.split` collapses
  - `str(int)`
- `escaping.dfy`, module `Escaping`: `Query._escape`.
- `query.dfy`, module `Query`, models `elasticfun/query.py`:
  - `Lookup`, `LOOKUPS` and `LOOKUP_OPS`
  - the `Value` and `Node` datatypes
  - construction: `New`, `Empty`, `MatchAll` and `Word`
  - `ProcessField`, `Cast`, `ProcessLookup`, `Eval` and `Render`
  - the operators `And`, `Or` and `Not`
  - `FromUserInput`
- `query_laws.dfy`, module `QueryLaws`: properties of the query model. It also holds a reference rendering (`Show`) of Python operator expressions (`Expr`).
- `wrappers.dfy`, module `Wrappers`: `Hit`, `Wrapper` and `get_key`. The base class's `match` and `wrap` always fail.
- `queryset.dfy`, module `QuerySet`:
  - the configuration check
  - `count`, `max_score` and `wrap`
  - the steps of `items()`: partition, order dictionary, wrapping, placing and cleaning
- `queryset_laws.dfy`, module `QuerySetLaws`: properties of `items()`.

Representation choices:

- **Python `None` in fields.** A node's `field == ""` and `cache == ""` stand for `None`. The source only tests these attributes for truthiness, and there `None` and `''` behave the same. For the same reason, a key such as `__lte` (empty field name) behaves like "no field".
- **`Value`.** It covers the values `_cast` distinguishes:
  - `Null` (`None`, which casts to `"None"`)
  - `Bool`
  - `Int`
  - `Text`
  - `Timestamp`, holding its `isoformat()` text
  - `List`
  - `Sub`, a nested `Query`
- **Keyword arguments.** `New` receives them in call order, after `_boost` and `_empty` have been taken out, as `__init__` does first.
- **Wrappers.** A wrapper is a record of two total functions, `matches` and `wrap`. A hit is `(type, id, rest of the document)`.
- **`items()` loops.** The second loop of `items()` walks the wrappers that matched at least one hit (the keys of `_type_dict`) and, for each, the hits its `wrap` returns. The model flattens these nested loops into one sequence, `WrappedHits`, and places its hits in order.
- **Python version.** The model follows Python 3.7 and later. There, `\s` in a `str` pattern matches the same Unicode whitespace that `strip()` removes, and dicts iterate in insertion order, so `_type_dict` walks the wrappers in the order they first matched a hit.
- **`KeyError`.** The `KeyError` raised for a wrapped hit whose key no accepted hit had is modelled as the error `KeyMissing`. Overwrites in `_order_dict` are modelled as they happen.

Behaviour of the code that is easy to get wrong, and that the model follows:

- **`~` on an empty node.** `~Query.empty()` has no empty check. It renders `(NOT )`, and the node stays empty, so a following `&` or `|` drops the negation.
- **Boost.** The boost suffix is only added on the leaf branch of `_eval`. It is never added to `""` or `*:*`, and a composed node ignores its own boost.
- **`empty & X` when `X` renders `""`.** The cache stays falsy and the empty flag is cleared, so the result renders `*:*`.
- **Parentheses.** A field without a lookup renders `name:"value"`. Only a lookup adds the surrounding parentheses.
- **Timestamps.** They are quoted but not escaped.

## Model

| member | source | states |
|---|---|---|
| Str.RFind | elasticfun/query.py:103-104 | `'__' in key` is false exactly when the search gives -1; otherwise it gives the last occurrence, the split point of `rsplit('__', 1)` |
| Str.Strip | elasticfun/query.py:71 | stripping gives `""` exactly for blank input, and otherwise a string that starts and ends with a non-space |
| Str.SplitStrippedWords | elasticfun/query.py:72 | splitting stripped non-blank input on whitespace runs gives only non-empty pieces with no whitespace |
| Str.SplitJoinRoundTrip | elasticfun/query.py:72 | splitting words separated by any non-empty whitespace runs gives back exactly those words: each run is collapsed |
| Str.DecimalRoundTrip | elasticfun/query.py:115 | the `str()` of an integer value or boost factor reads back as the same integer |
| Escaping.Escape | elasticfun/query.py:113-119 | the escaped text is longer than the input by exactly the number of metacharacters |
| Escaping.EscapeRoundTrip | elasticfun/query.py:113-119 | a query parser reads the escaped text back as the input, so no metacharacter is left unescaped and each escape is followed by a metacharacter |
| Escaping.EscapeIdentityIffPlain | elasticfun/query.py:113-119 | text is unchanged by escaping exactly when it has no metacharacter from `+-&\|!(){}[]^"~*?:\` |
| Escaping.EscapeLoop | elasticfun/query.py:113-119 | the character loop of `_escape` computes the escaped string |
| Query.ParseLookup | elasticfun/query.py:13 | a keyword decodes to a lookup exactly when it is in `LOOKUPS`, and decodes to the lookup of that name |
| Query.ListJoinWord | elasticfun/query.py:127 | collection elements are joined by `TO` exactly under `range`, and by `OR` otherwise |
| Query.ProcessField | elasticfun/query.py:100-111 | a plain key is the field name; an accepted key is `name__lookup`; a rejected key ends in `__` plus a suffix outside `LOOKUPS` |
| Query.New | elasticfun/query.py:22-63 | a new node has no cache, keeps the boost and empty flag, and holds the words; with a field keyword it holds exactly the name, lookup and value that field parsing gives for that keyword |
| Query.Combine | elasticfun/query.py:80-94 | `&`/`\|` clear the empty flag and change only the cache; an empty left operand takes the right operand's rendering; otherwise the node renders as its cache |
| Query.Not | elasticfun/query.py:96-98 | `~` keeps the empty flag, changes only the cache and renders as the cache |
| QueryLaws.LookupNameRoundTrip | elasticfun/query.py:13 | every lookup keyword is listed in `LOOKUPS` and decodes to itself |
| QueryLaws.ProcessFieldAcceptsLookupKey | elasticfun/query.py:100-111 | `name__lookup` splits back into `name` and the lookup for every name, even a name with underscores |
| QueryLaws.ProcessFieldPlainKey | elasticfun/query.py:100-111 | a key without `__` gives the key itself as field name and no lookup |
| QueryLaws.ProcessFieldRejectsExactly | elasticfun/query.py:100-111 | field parsing fails exactly for keys that contain `__` but do not end in `__` plus a known lookup |
| QueryLaws.NewFailsExactly | elasticfun/query.py:44-58 | construction fails exactly for truthy words together with a field, for more than one field, or for an unknown lookup; words with a field is reported first |
| QueryLaws.FreeTextRendering | elasticfun/query.py:161-165 | a node with no field and falsy non-bool words renders `*:*` whatever its boost; `Query(False)` renders `"false"` |
| QueryLaws.EmptyRendersNothing | elasticfun/query.py:65-67 | `Query.empty()` is the node built with `_empty=True` and renders `""` |
| QueryLaws.CastListElementwise | elasticfun/query.py:126-128 | a collection casts to its elements, each cast without the lookup, joined by ` TO ` for `range` and ` OR ` otherwise |
| QueryLaws.ListMembersUndecorated | elasticfun/query.py:128 | `startswith` and `endswith` add no wildcard to collection members |
| QueryLaws.CastTextDecodes | elasticfun/query.py:132-139 | text becomes one quoted phrase whose escaped part reads back as the text, with `*` after it for `startswith` and before it for `endswith` |
| QueryLaws.CastNonText | elasticfun/query.py:121-130 | booleans become quoted `true`/`false`, timestamps their quoted unescaped ISO text, nested queries their own rendering unquoted, whatever the lookup |
| QueryLaws.CastScalars | elasticfun/query.py:132-139 | integers and `None` go through their `str()` like text |
| QueryLaws.FieldLeafShape | elasticfun/query.py:167-184 | a field leaf with any value renders `name:` followed by the cast value, passed through the lookup template when a lookup is set |
| QueryLaws.FieldRendering | elasticfun/query.py:141-184 | a field leaf with any value (text, number, boolean, timestamp, collection or nested query) renders `name:(...)` with `[* TO x]`, `[x TO *]`, `{* TO x}`, `{x TO *}` for lte/gte/lt/gt, `x` itself for in/range/startswith/endswith, and `name:x` without a lookup |
| QueryLaws.FieldKeywordQuery | elasticfun/query.py:60-63 | `Query(name__lookup=v)` builds the field leaf for `name` with that lookup and value; `Query(key=v)` without `__` builds the leaf for `key` with no lookup |
| QueryLaws.LookupKeywordRendering | elasticfun/query.py:141-184 | `Query(name__lookup=v)` renders `name:` followed by the lookup's template around the cast value, for example `pub_date:([* TO "t"])` for `pub_date__lte` |
| QueryLaws.LookupTemplate | elasticfun/query.py:141-154 | the range templates of each lookup, always wrapped in one pair of parentheses |
| QueryLaws.BoostOnlyOnLeaf | elasticfun/query.py:158-184 | the boost suffix ` f^n` is appended exactly once to a leaf, and never to an empty or match-all node |
| QueryLaws.EmptyIsIdentity | elasticfun/query.py:80-94 | `empty & X` and `empty \| X` render exactly as `X` whenever `X` renders something |
| QueryLaws.EmptyAndEmpty | elasticfun/query.py:77-94 | `empty & empty` is no longer empty and renders `*:*` |
| QueryLaws.NotOfEmpty | elasticfun/query.py:96-98 | `~empty` renders `(NOT )`, stays empty, and disappears in a following `&` |
| QueryLaws.OperatorRendering | elasticfun/query.py:77-98 | with a non-empty left operand, `a & b` renders `(a AND b)` and `a \| b` renders `(a OR b)`; `~a` renders `(NOT a)` |
| QueryLaws.CacheIsAuthoritative | elasticfun/query.py:77-78 | a node with a cache renders as that cache, whatever its other attributes |
| QueryLaws.BuildRendersAsShow | elasticfun/query.py:77-98 | any `&`/`\|`/`~` expression over non-empty, distinct node objects renders with one pair of parentheses per operator, at any depth |
| QueryLaws.WordRendering | elasticfun/query.py:72 | `Query(token)` for a non-empty token succeeds and renders the token as an escaped phrase |
| QueryLaws.FoldWordsRendering | elasticfun/query.py:72-74 | the left fold over the word nodes renders as the left-nested join of their phrases |
| QueryLaws.BlankInputMatchesAll | elasticfun/query.py:70-75 | blank user input renders `*:*` |
| QueryLaws.UserInputRendering | elasticfun/query.py:70-75 | non-blank input renders as the left-nested `AND` (for `default_op == 'AND'`) or `OR` join of its whitespace-separated words |
| QueryLaws.UserInputOfWords | elasticfun/query.py:70-75 | words with any whitespace runs around and between them, such as `" ice  cream "`, render exactly as those words folded in order |
| Wrappers.BaseMatch | elasticfun/wrappers.py:11-13 | the base `match` always fails with `NotImplementedError` |
| Wrappers.BaseWrap | elasticfun/wrappers.py:15-17 | the base `wrap` always fails with `NotImplementedError` |
| Wrappers.GetKeyIgnoresSource | elasticfun/wrappers.py:8-9 | hits with equal type and id get equal keys, whatever else they hold |
| Wrappers.GetKeyRoundTrip | elasticfun/wrappers.py:8-9 | for a type without `:`, the key splits back into type and id |
| Wrappers.GetKeyInjective | elasticfun/wrappers.py:8-9 | for types without `:`, equal keys mean equal type and id |
| Wrappers.KeysCollideAcrossColon | elasticfun/wrappers.py:8-9 | with a `:` in the type, different hits can share a key |
| QuerySet.New | elasticfun/queryset.py:17-25 | a falsy configuration fails with `ConfigMissing`; otherwise nothing has been searched yet and no wrapper is registered |
| QuerySet.Count | elasticfun/queryset.py:52-55 | 0 before a search, the backend's total after |
| QuerySet.MaxScore | elasticfun/queryset.py:57-60 | 0 before a search, the backend's max score after |
| QuerySet.Wrap | elasticfun/queryset.py:62-64 | appends the wrapper at the end and changes nothing else |
| QuerySet.Partition | elasticfun/queryset.py:80-83 | a wrapper receives exactly the hits it accepts, in hit order, each as often as it occurs |
| QuerySet.RecordMatches | elasticfun/queryset.py:81-84 | every accepted hit's key is recorded; every stored index points at a hit with that key |
| QuerySet.OrderDict | elasticfun/queryset.py:80-84 | the order dictionary covers every key of an accepted hit and maps it to a position holding a hit with that key |
| QuerySet.Place | elasticfun/queryset.py:94-96 | placing succeeds exactly when every wrapped key is known; a changed slot holds a wrapped hit at its key's index; otherwise it fails with a missing key |
| QuerySet.Present | elasticfun/queryset.py:98-99 | cleaning keeps exactly the filled slots, in order and each as often as it occurs, and drops every empty one |
| QuerySetLaws.ItemsNeedsSearch | elasticfun/queryset.py:66-71 | `items()` fails with `EmptyQuerySet` exactly when there are no results |
| QuerySetLaws.OrderDictKeys | elasticfun/queryset.py:77-84 | the order dictionary holds exactly the keys of hits some wrapper accepts |
| QuerySetLaws.ItemsKeyMissing | elasticfun/queryset.py:92-96 | with wrappers, `items()` fails exactly when some wrapped hit's key belongs to no accepted hit, and then only with a missing key |
| QuerySetLaws.ItemsWithoutWrappers | elasticfun/queryset.py:73-75 | without wrappers, `items()` returns the hits unchanged and in order |
| QuerySetLaws.WrappedOrigin | elasticfun/queryset.py:92-93 | every hit the placing loop visits comes from the `wrap` of a wrapper that accepted at least one hit, applied to exactly the hits it accepted |
| QuerySetLaws.WrappedContains | elasticfun/queryset.py:92-96 | everything such a `wrap` returns is visited by the placing loop; a later hit with the same key may overwrite it |
| QuerySetLaws.ItemsPlacement | elasticfun/queryset.py:91-96 | with `clean=False` there is one slot per hit; a filled slot holds a wrapped hit with the key of the hit originally there, and the slot of every wrapped hit's key is filled with a wrapped hit of that key |
| QuerySetLaws.ItemsClean | elasticfun/queryset.py:98-101 | `clean=True` returns the `clean=False` list with exactly its empty slots dropped: filled slots kept in order and with their multiplicities, keys in the original hit order |
| QuerySetLaws.PresentKeysInOrder | elasticfun/queryset.py:98-99 | dropping empty slots keeps the keys in hit order |
| QuerySetLaws.IdentityWrappersRestoreHits | elasticfun/queryset.py:73-101 | with distinct keys, every hit accepted and identity `wrap`s, `items()` returns the original hits in their original order |

## Left out

- `QuerySet.search` and `raise_improperly_configured` (elasticfun/queryset.py:27-50): they build a search client, check the index name against the configuration and do network I/O.
- `elasticfun/django`, `elasticfun/compat.py`, `elasticfun/exceptions.py` and `elasticfun/__init__.py`: settings lookup, Python 2/3 string plumbing and names only. The exceptions appear as error datatypes.
- Exception message texts: the `ParsingException` message that echoes the call back in `qb(...)` syntax, and the list of valid lookups. Only the cause of each error is modelled.
- Aliasing of mutable `Query` objects: every node is a value here. In Python, `&` and `|` change their left operand in place. A node nested in a field value and changed later would change the outer rendering. An object used twice in one expression is read after it was changed: with `q = Query('a')`, `(q | Query('b')) & q` renders `(("a" OR "b") AND ("a" OR "b"))`. `QueryLaws.Build` and `QueryLaws.BuildRendersAsShow` hold for expressions whose leaves are distinct objects.
- Python `set` values: they are modelled as sequences in some iteration order, because `set` order is unspecified.
- Floats, tuples, dicts and other Python values as query values: only the `Value` cases above are modelled.
- `datetime.isoformat()` details: a timestamp is its ISO text.
- `Boost` values other than a `(field, int)` pair.
- A `raw_results` payload that is an empty dict: `count()` would return 0 but `items()` would raise `KeyError`. Results are either absent or a full response.
- A falsy configuration other than `None`: an empty configuration is written as `None`.
- The same wrapper object registered twice: Python would hand it its accepted hits twice in one list. Wrappers are taken to be distinct objects.
- Wrapper subclasses that override `get_key`: the base `get_key` is used.
- Python 2 behaviour. The package also runs on Python 2.7, where two things differ from the model:
  - `re.compile(r'\s+')` has no `re.UNICODE` flag, so it splits only on ASCII whitespace while `strip()` still strips Unicode whitespace.
  - `_type_dict` iterates in hash order, so when two wrappers place hits with the same key, a different one may win the slot.
