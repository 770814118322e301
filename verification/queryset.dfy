/** `elasticfun/queryset.py`: the `QuerySet` configuration check, the
    `count`/`max_score` accessors, wrapper registration and the reordering
    done by `items()`. The search call itself is not part of this model. */
module QuerySet {
  import opened Results
  import opened Wrappers

  /** The configuration object: connection URLs by name and index names. */
  datatype Conf = Conf(connections: map<string, string>, indexes: seq<string>)

  /** The backend's response, `{'hits': {'total', 'max_score', 'hits'}}`. */
  datatype RawResults = RawResults(total: int, maxScore: real, hits: seq<Hit>)

  datatype QuerySet = QuerySet(conf: Conf, raw: Option<RawResults>, wrappers: seq<Wrapper>)

  /** `ConfigMissingException`, `EmptyQuerySetException` and the `KeyError`
      raised for a wrapped hit whose key no matched hit had. */
  datatype QuerySetError = ConfigMissing | EmptyQuerySet | KeyMissing(key: string)

  // ---------------------------------------------------------------------
  // Construction and accessors

  /** `QuerySet(conf)`: a falsy configuration (`None` or an empty one, both
      `None` here) is refused; otherwise nothing has been searched yet and
      no wrapper is registered. */
  function New(conf: Option<Conf>): (r: Result<QuerySet, QuerySetError>)
    ensures r.Err? <==> conf.None?
    ensures r.Err? ==> r.error == ConfigMissing
    ensures r.Ok? ==> r.value.conf == conf.value && r.value.raw.None? && |r.value.wrappers| == 0
  {
    if conf.None? then Err(ConfigMissing) else Ok(QuerySet(conf.value, None, []))
  }

  /** `count()`: the backend's total, or 0 before any search. */
  function Count(q: QuerySet): (r: int)
    ensures q.raw.None? ==> r == 0
    ensures q.raw.Some? ==> r == q.raw.value.total
  {
    if q.raw.None? then 0 else q.raw.value.total
  }

  /** `max_score()`: the backend's best score, or 0 before any search. */
  function MaxScore(q: QuerySet): (r: real)
    ensures q.raw.None? ==> r == 0.0
    ensures q.raw.Some? ==> r == q.raw.value.maxScore
  {
    if q.raw.None? then 0.0 else q.raw.value.maxScore
  }

  /** `wrap(w)`: appends `w` to the wrappers and changes nothing else. */
  function Wrap(q: QuerySet, w: Wrapper): (r: QuerySet)
    ensures r.conf == q.conf && r.raw == q.raw
    ensures |r.wrappers| == |q.wrappers| + 1
    ensures forall i :: 0 <= i < |q.wrappers| ==> r.wrappers[i] == q.wrappers[i]
    ensures r.wrappers[|q.wrappers|] == w
  {
    q.(wrappers := q.wrappers + [w])
  }

  // ---------------------------------------------------------------------
  // Sequences

  /** `a` can be obtained from `b` by deleting elements. */
  predicate IsSubsequence<T(==)>(a: seq<T>, b: seq<T>)
    decreases |b|
  {
    if |a| == 0 then true
    else if |b| == 0 then false
    else (a[0] == b[0] && IsSubsequence(a[1..], b[1..])) || IsSubsequence(a, b[1..])
  }

  /** `_type_dict[wrapper]`: the hits the wrapper's `match` accepts, in hit
      order, each as often as it occurs among the hits. */
  function Partition(hits: seq<Hit>, w: Wrapper): (r: seq<Hit>)
    ensures |r| <= |hits|
    ensures IsSubsequence(r, hits)
    ensures forall h :: h in r <==> h in hits && w.matches(h)
    ensures forall h :: multiset(r)[h] == (if w.matches(h) then multiset(hits)[h] else 0)
    decreases |hits|
  {
    if |hits| == 0 then []
    else
      var rest := Partition(hits[1..], w);
      assert hits == [hits[0]] + hits[1..];
      if w.matches(hits[0]) then [hits[0]] + rest else rest
  }

  /** Some registered wrapper accepts the hit. */
  predicate MatchedBySome(h: Hit, wrappers: seq<Wrapper>)
  {
    exists j :: 0 <= j < |wrappers| && wrappers[j].matches(h)
  }

  // ---------------------------------------------------------------------
  // The order dictionary

  /** Every index the dictionary stores is a position in `hits` whose hit
      has that key. */
  predicate ValidOrder(hits: seq<Hit>, order: map<string, nat>)
  {
    forall k :: k in order ==> order[k] < |hits| && GetKey(hits[order[k]]) == k
  }

  /** The inner loop of `items` for one wrapper, from hit `i` on: record
      `key -> index` for every hit the wrapper accepts; later hits with the
      same key overwrite earlier ones. */
  function RecordMatches(hits: seq<Hit>, w: Wrapper, i: nat, order: map<string, nat>): (r: map<string, nat>)
    requires i <= |hits| && ValidOrder(hits, order)
    ensures ValidOrder(hits, r)
    ensures forall k :: k in order ==> k in r
    ensures forall k :: k in r ==> (k in order && r[k] == order[k]) || w.matches(hits[r[k]])
    ensures forall j :: i <= j < |hits| && w.matches(hits[j]) ==> GetKey(hits[j]) in r
    decreases |hits| - i
  {
    if i == |hits| then order
    else
      var next := if w.matches(hits[i]) then order[GetKey(hits[i]) := i] else order;
      RecordMatches(hits, w, i + 1, next)
  }

  /** `_order_dict` after the first loop of `items`, over `wrappers` in
      registration order. */
  function OrderDict(hits: seq<Hit>, wrappers: seq<Wrapper>, order: map<string, nat>): (r: map<string, nat>)
    requires ValidOrder(hits, order)
    ensures ValidOrder(hits, r)
    ensures forall k :: k in order ==> k in r
    ensures forall k :: k in r ==> (k in order && r[k] == order[k]) || MatchedBySome(hits[r[k]], wrappers)
    ensures forall j :: 0 <= j < |hits| && MatchedBySome(hits[j], wrappers) ==> GetKey(hits[j]) in r
    decreases |wrappers|
  {
    if |wrappers| == 0 then order
    else
      var first := RecordMatches(hits, wrappers[0], 0, order);
      MatchedBySomeCons(wrappers);
      OrderDict(hits, wrappers[1..], first)
  }

  /** A hit is matched by some wrapper of a non-empty list exactly when the
      first wrapper or one of the rest matches it. */
  lemma MatchedBySomeCons(wrappers: seq<Wrapper>)
    requires |wrappers| > 0
    ensures forall h :: MatchedBySome(h, wrappers) <==> wrappers[0].matches(h) || MatchedBySome(h, wrappers[1..])
  {
    forall h | MatchedBySome(h, wrappers[1..])
      ensures MatchedBySome(h, wrappers)
    {
      var j :| 0 <= j < |wrappers| - 1 && wrappers[1..][j].matches(h);
      assert wrappers[j + 1].matches(h);
    }
    forall h | MatchedBySome(h, wrappers) && !wrappers[0].matches(h)
      ensures MatchedBySome(h, wrappers[1..])
    {
      var j :| 0 <= j < |wrappers| && wrappers[j].matches(h);
      assert wrappers[1..][j - 1].matches(h);
    }
  }

  // ---------------------------------------------------------------------
  // Wrapping and placing

  /** The hits the second loop of `items` places, in order: for each wrapper
      that accepted at least one hit (the keys of `_type_dict`, in insertion
      order), the output of its `wrap` on exactly the hits it accepted. */
  function WrappedHits(hits: seq<Hit>, wrappers: seq<Wrapper>): seq<Hit>
    decreases |wrappers|
  {
    if |wrappers| == 0 then []
    else
      var part := Partition(hits, wrappers[0]);
      (if |part| == 0 then [] else wrappers[0].wrap(part)) + WrappedHits(hits, wrappers[1..])
  }

  /** `processed_results[_order_dict[get_key(hit)]] = hit` for each hit in
      turn; the first hit whose key is not in the dictionary raises
      `KeyError`. */
  function Place(wrapped: seq<Hit>, order: map<string, nat>, slots: seq<Option<Hit>>): (r: Result<seq<Option<Hit>>, QuerySetError>)
    requires forall k :: k in order ==> order[k] < |slots|
    ensures r.Ok? <==> forall h :: h in wrapped ==> GetKey(h) in order
    ensures r.Err? ==>
      && r.error.KeyMissing?
      && r.error.key !in order
      && exists h :: h in wrapped && GetKey(h) == r.error.key
    ensures r.Ok? ==> |r.value| == |slots|
    ensures r.Ok? ==> forall i :: 0 <= i < |slots| ==>
      r.value[i] == slots[i] || (r.value[i].Some? && r.value[i].value in wrapped && order[GetKey(r.value[i].value)] == i)
    ensures r.Ok? ==> forall h :: h in wrapped ==>
      (var s := r.value[order[GetKey(h)]];
       s.Some? && s.value in wrapped && order[GetKey(s.value)] == order[GetKey(h)])
    decreases |wrapped|
  {
    if |wrapped| == 0 then Ok(slots)
    else
      var h := wrapped[0];
      var key := GetKey(h);
      if key !in order then Err(KeyMissing(key))
      else
        var r := Place(wrapped[1..], order, slots[order[key] := Some(h)]);
        assert forall x :: x in wrapped <==> x == h || x in wrapped[1..];
        r
  }

  /** `filter(lambda val: val is not None, ...)`: the filled slots, in order,
      each as often as it occurs. */
  function Present(slots: seq<Option<Hit>>): (r: seq<Option<Hit>>)
    ensures |r| <= |slots|
    ensures forall i :: 0 <= i < |r| ==> r[i].Some?
    ensures IsSubsequence(r, slots)
    ensures forall x :: multiset(r)[x] == (if x.Some? then multiset(slots)[x] else 0)
    decreases |slots|
  {
    if |slots| == 0 then []
    else
      var rest := Present(slots[1..]);
      assert slots == [slots[0]] + slots[1..];
      if slots[0].Some? then [slots[0]] + rest else rest
  }

  /** `items(clean)`. Without wrappers it returns the hits as they are;
      otherwise each wrapped hit goes to the position of the hit with its
      key, and `clean` drops the positions nobody filled. */
  function Items(q: QuerySet, clean: bool): Result<seq<Option<Hit>>, QuerySetError>
  {
    if q.raw.None? then Err(EmptyQuerySet)
    else
      var hits := q.raw.value.hits;
      if |q.wrappers| == 0 then Ok(seq(|hits|, i requires 0 <= i < |hits| => Some(hits[i])))
      else
        var order := OrderDict(hits, q.wrappers, map[]);
        match Place(WrappedHits(hits, q.wrappers), order, seq(|hits|, i => None))
        case Err(e) => Err(e)
        case Ok(slots) => Ok(if clean then Present(slots) else slots)
  }
}
