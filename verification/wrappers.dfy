/** `elasticfun/wrappers.py`: the `Wrapper` base class that `QuerySet.items`
    uses to re-tag search hits. */
module Wrappers {
  import opened Results

  /** A search hit: its `_type`, its `_id` and the rest of the document,
      kept opaque. */
  datatype Hit = Hit(typ: string, id: string, source: string)

  /** A concrete wrapper: a subclass that overrides `match` (which hits it
      handles) and `wrap` (what it turns a batch of them into). */
  datatype Wrapper = Wrapper(matches: Hit -> bool, wrap: seq<Hit> -> seq<Hit>)

  /** `NotImplementedError`. */
  datatype WrapperError = NotImplemented

  /** `Wrapper.get_key(obj)`: `'{}:{}'.format(obj['_type'], obj['_id'])`. */
  function GetKey(h: Hit): string
  {
    h.typ + ":" + h.id
  }

  /** The base class's `match`: subclasses must override it. */
  function BaseMatch(h: Hit): (r: Result<bool, WrapperError>)
    ensures r == Err(NotImplemented)
  {
    Err(NotImplemented)
  }

  /** The base class's `wrap`: subclasses must override it. */
  function BaseWrap(hits: seq<Hit>): (r: Result<seq<Hit>, WrapperError>)
    ensures r == Err(NotImplemented)
  {
    Err(NotImplemented)
  }

  /** Index of the first `:` in `s`, or `|s|`. */
  function FirstColon(s: string): (i: nat)
    ensures i <= |s|
    ensures forall j :: 0 <= j < i ==> s[j] != ':'
    ensures i < |s| ==> s[i] == ':'
    decreases |s|
  {
    if |s| == 0 || s[0] == ':' then 0 else 1 + FirstColon(s[1..])
  }

  /** Reads a key back as `(type, id)`, splitting at its first `:`. */
  function SplitKey(k: string): (string, string)
  {
    var i := FirstColon(k);
    if i == |k| then (k, "") else (k[..i], k[i + 1..])
  }

  /** The key depends on the type and the id only: two hits that agree on
      both get the same key whatever else they hold. */
  lemma GetKeyIgnoresSource(a: Hit, b: Hit)
    requires a.typ == b.typ && a.id == b.id
    ensures GetKey(a) == GetKey(b)
  {
  }

  /** For a type without `:`, the key reads back as the hit's type and id, so
      such keys identify the hit by type and id. */
  lemma {:induction false} GetKeyRoundTrip(h: Hit)
    requires forall j :: 0 <= j < |h.typ| ==> h.typ[j] != ':'
    ensures SplitKey(GetKey(h)) == (h.typ, h.id)
  {
    var k := GetKey(h);
    assert k[..|h.typ|] == h.typ;
    FirstColonAt(k, |h.typ|);
    assert k[|h.typ| + 1..] == h.id;
  }

  lemma {:induction false} FirstColonAt(s: string, i: nat)
    requires i < |s| && s[i] == ':'
    requires forall j :: 0 <= j < i ==> s[j] != ':'
    ensures FirstColon(s) == i
    decreases i
  {
    if i > 0 {
      FirstColonAt(s[1..], i - 1);
    }
  }

  /** Hits whose types contain no `:` share a key exactly when they share
      type and id. */
  lemma GetKeyInjective(a: Hit, b: Hit)
    requires forall j :: 0 <= j < |a.typ| ==> a.typ[j] != ':'
    requires forall j :: 0 <= j < |b.typ| ==> b.typ[j] != ':'
    ensures GetKey(a) == GetKey(b) <==> a.typ == b.typ && a.id == b.id
  {
    GetKeyRoundTrip(a);
    GetKeyRoundTrip(b);
  }

  /** With a `:` inside a type, different hits can share a key. */
  lemma KeysCollideAcrossColon()
    ensures GetKey(Hit("a:b", "c", "")) == GetKey(Hit("a", "b:c", ""))
  {
  }
}
