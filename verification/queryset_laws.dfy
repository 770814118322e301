/** Properties of `QuerySet.items()`: when it fails, what it returns without
    wrappers, where wrapped hits land, and what `clean` keeps. */
module QuerySetLaws {
  import opened Results
  import opened Wrappers
  import opened QuerySet

  /** The keys of a result list, in order (an unfilled slot has no key). */
  function SlotKeys(slots: seq<Option<Hit>>): (r: seq<string>)
    ensures |r| == |slots|
  {
    seq(|slots|, i requires 0 <= i < |slots| => if slots[i].Some? then GetKey(slots[i].value) else "")
  }

  function HitKeys(hits: seq<Hit>): (r: seq<string>)
    ensures |r| == |hits|
  {
    seq(|hits|, i requires 0 <= i < |hits| => GetKey(hits[i]))
  }

  /** No two hits share a key. */
  predicate DistinctKeys(hits: seq<Hit>)
  {
    forall i, j :: 0 <= i < j < |hits| ==> GetKey(hits[i]) != GetKey(hits[j])
  }

  /** Some hit that a registered wrapper accepts has key `k`. */
  ghost predicate KnownKey(hits: seq<Hit>, wrappers: seq<Wrapper>, k: string)
  {
    exists j :: 0 <= j < |hits| && MatchedBySome(hits[j], wrappers) && GetKey(hits[j]) == k
  }

  // ---------------------------------------------------------------------
  // Failure

  /** `items()` raises `EmptyQuerySetException` exactly when no search has
      stored results. */
  lemma ItemsNeedsSearch(q: QuerySet, clean: bool)
    ensures Items(q, clean) == Err(EmptyQuerySet) <==> q.raw.None?
  {
  }

  /** The order dictionary holds exactly the keys of the accepted hits. */
  lemma OrderDictKeys(hits: seq<Hit>, wrappers: seq<Wrapper>)
    ensures forall k :: k in OrderDict(hits, wrappers, map[]) <==> KnownKey(hits, wrappers, k)
  {
    var order := OrderDict(hits, wrappers, map[]);
    forall k | k in order
      ensures KnownKey(hits, wrappers, k)
    {
      assert MatchedBySome(hits[order[k]], wrappers);
    }
  }

  /** After a search with wrappers, `items()` raises `KeyError` exactly when
      some wrapper returns a hit whose key no accepted hit had. */
  lemma ItemsKeyMissing(q: QuerySet, clean: bool)
    requires q.raw.Some? && |q.wrappers| > 0
    ensures var wrapped := WrappedHits(q.raw.value.hits, q.wrappers);
      Items(q, clean).Ok? <==> forall h :: h in wrapped ==> KnownKey(q.raw.value.hits, q.wrappers, GetKey(h))
    ensures Items(q, clean).Err? ==> Items(q, clean).error.KeyMissing?
  {
    OrderDictKeys(q.raw.value.hits, q.wrappers);
  }

  // ---------------------------------------------------------------------
  // Results

  /** Without wrappers `items()` returns the hits unchanged, in order. */
  lemma ItemsWithoutWrappers(q: QuerySet, clean: bool)
    requires q.raw.Some? && |q.wrappers| == 0
    ensures Items(q, clean).Ok?
    ensures |Items(q, clean).value| == |q.raw.value.hits|
    ensures forall i :: 0 <= i < |q.raw.value.hits| ==> Items(q, clean).value[i] == Some(q.raw.value.hits[i])
  {
  }

  /** Every hit the placing loop of `items()` visits comes out of the `wrap` of a wrapper that
      accepted at least one hit, applied to exactly the hits it accepted. */
  lemma {:induction false} WrappedOrigin(hits: seq<Hit>, wrappers: seq<Wrapper>, h: Hit)
    requires h in WrappedHits(hits, wrappers)
    ensures exists j ::
      && 0 <= j < |wrappers|
      && |Partition(hits, wrappers[j])| > 0
      && h in wrappers[j].wrap(Partition(hits, wrappers[j]))
    decreases |wrappers|
  {
    var part := Partition(hits, wrappers[0]);
    var head := if |part| == 0 then [] else wrappers[0].wrap(part);
    if h !in head {
      WrappedOrigin(hits, wrappers[1..], h);
      var j :| 0 <= j < |wrappers[1..]| && |Partition(hits, wrappers[1..][j])| > 0
        && h in wrappers[1..][j].wrap(Partition(hits, wrappers[1..][j]));
      assert wrappers[1..][j] == wrappers[j + 1];
    }
  }

  lemma WrappedUnfold(hits: seq<Hit>, wrappers: seq<Wrapper>)
    requires |wrappers| > 0
    ensures var part := Partition(hits, wrappers[0]);
      WrappedHits(hits, wrappers) == (if |part| == 0 then [] else wrappers[0].wrap(part)) + WrappedHits(hits, wrappers[1..])
  {
  }

  /** Conversely, everything such a `wrap` returns is visited by the placing
      loop (a later hit with the same key may overwrite it). */
  lemma {:induction false} WrappedContains(hits: seq<Hit>, wrappers: seq<Wrapper>, j: nat, h: Hit)
    requires j < |wrappers| && |Partition(hits, wrappers[j])| > 0
    requires h in wrappers[j].wrap(Partition(hits, wrappers[j]))
    ensures h in WrappedHits(hits, wrappers)
    decreases |wrappers|
  {
    WrappedUnfold(hits, wrappers);
    if j > 0 {
      assert wrappers[1..][j - 1] == wrappers[j];
      WrappedContains(hits, wrappers[1..], j - 1, h);
    }
  }

  /** With `clean=False` the result has one slot per hit; a filled slot
      holds a wrapped hit with the key of the hit originally at that
      position, and conversely the slot the order dictionary gives for the
      key of any wrapped hit is filled with a wrapped hit of that key. */
  lemma ItemsPlacement(q: QuerySet)
    requires q.raw.Some? && |q.wrappers| > 0 && Items(q, false).Ok?
    ensures var hits := q.raw.value.hits;
      var r := Items(q, false).value;
      && |r| == |hits|
      && forall i :: 0 <= i < |hits| && r[i].Some? ==>
           GetKey(r[i].value) == GetKey(hits[i]) && r[i].value in WrappedHits(hits, q.wrappers)
    ensures var hits := q.raw.value.hits;
      var r := Items(q, false).value;
      var order := OrderDict(hits, q.wrappers, map[]);
      forall h :: h in WrappedHits(hits, q.wrappers) ==>
        && GetKey(h) in order
        && order[GetKey(h)] < |r|
        && GetKey(hits[order[GetKey(h)]]) == GetKey(h)
        && r[order[GetKey(h)]].Some?
        && r[order[GetKey(h)]].value in WrappedHits(hits, q.wrappers)
        && GetKey(r[order[GetKey(h)]].value) == GetKey(h)
  {
  }

  /** With `clean=True` the result is the `clean=False` list with its empty
      slots dropped: no slot is empty, every filled slot is kept in order and
      as often as it occurs, there are at most as many entries as hits, and
      their keys appear in the order of the original hits. */
  lemma ItemsClean(q: QuerySet)
    requires q.raw.Some? && Items(q, true).Ok?
    ensures Items(q, false).Ok? && Items(q, true).value == Present(Items(q, false).value)
    ensures var r := Items(q, true).value;
      && IsSubsequence(r, Items(q, false).value)
      && forall x :: multiset(r)[x] == (if x.Some? then multiset(Items(q, false).value)[x] else 0)
    ensures var hits := q.raw.value.hits;
      var r := Items(q, true).value;
      && |r| <= |hits|
      && (forall i :: 0 <= i < |r| ==> r[i].Some?)
      && IsSubsequence(SlotKeys(r), HitKeys(hits))
  {
    var hits := q.raw.value.hits;
    if |q.wrappers| == 0 {
      var r := Items(q, true).value;
      AllPresent(r);
      assert SlotKeys(r) == HitKeys(hits);
      SubsequenceReflexive(HitKeys(hits));
    } else {
      ItemsPlacement(q);
      var slots := Items(q, false).value;
      assert Items(q, true).value == Present(slots);
      PresentKeysInOrder(slots, hits);
    }
  }

  lemma {:induction false} SubsequenceReflexive<T>(a: seq<T>)
    ensures IsSubsequence(a, a)
    decreases |a|
  {
    if |a| > 0 {
      SubsequenceReflexive(a[1..]);
    }
  }

  /** Dropping the empty slots of a key-faithful slot list keeps the keys in
      hit order. */
  lemma {:induction false} PresentKeysInOrder(slots: seq<Option<Hit>>, hits: seq<Hit>)
    requires |slots| == |hits|
    requires forall i :: 0 <= i < |hits| && slots[i].Some? ==> GetKey(slots[i].value) == GetKey(hits[i])
    ensures IsSubsequence(SlotKeys(Present(slots)), HitKeys(hits))
    decreases |slots|
  {
    if |slots| > 0 {
      var tail := slots[1..];
      assert forall i :: 0 <= i < |hits| - 1 && tail[i].Some? ==> GetKey(tail[i].value) == GetKey(hits[1..][i]) by {
        forall i | 0 <= i < |hits| - 1 && tail[i].Some?
          ensures GetKey(tail[i].value) == GetKey(hits[1..][i])
        {
          assert tail[i] == slots[i + 1] && hits[1..][i] == hits[i + 1];
        }
      }
      PresentKeysInOrder(tail, hits[1..]);
      var rest := SlotKeys(Present(tail));
      HitKeysCons(hits);
      if slots[0].Some? {
        assert Present(slots) == [slots[0]] + Present(tail);
        SlotKeysCons(slots[0], Present(tail));
        SubsequenceCons(GetKey(hits[0]), rest, HitKeys(hits[1..]));
      } else {
        assert Present(slots) == Present(tail);
        SubsequenceSkip(GetKey(hits[0]), rest, HitKeys(hits[1..]));
      }
    }
  }

  lemma HitKeysCons(hits: seq<Hit>)
    requires |hits| > 0
    ensures HitKeys(hits) == [GetKey(hits[0])] + HitKeys(hits[1..])
  {
  }

  lemma SlotKeysCons(x: Option<Hit>, rest: seq<Option<Hit>>)
    requires x.Some?
    ensures SlotKeys([x] + rest) == [GetKey(x.value)] + SlotKeys(rest)
  {
  }

  lemma SubsequenceCons<T>(x: T, a: seq<T>, b: seq<T>)
    requires IsSubsequence(a, b)
    ensures IsSubsequence([x] + a, [x] + b)
  {
    assert ([x] + a)[1..] == a;
    assert ([x] + b)[1..] == b;
  }

  lemma SubsequenceSkip<T>(x: T, a: seq<T>, b: seq<T>)
    requires IsSubsequence(a, b)
    ensures IsSubsequence(a, [x] + b)
  {
    assert ([x] + b)[1..] == b;
  }

  // ---------------------------------------------------------------------
  // Identity wrappers restore the hit list

  lemma OrderOfDistinct(hits: seq<Hit>, order: map<string, nat>, i: nat)
    requires ValidOrder(hits, order) && DistinctKeys(hits)
    requires i < |hits| && GetKey(hits[i]) in order
    ensures order[GetKey(hits[i])] == i
  {
  }

  /** Every `wrap` hands back exactly the hits it was given. */
  predicate IdentityWraps(hits: seq<Hit>, wrappers: seq<Wrapper>)
  {
    forall j :: 0 <= j < |wrappers| ==>
      wrappers[j].wrap(Partition(hits, wrappers[j])) == Partition(hits, wrappers[j])
  }

  /** When the hits have distinct keys, every hit is accepted by some
      wrapper and every `wrap` hands back the hits it was given, `items()`
      returns the original hits in their original order, cleaned or not. */
  lemma IdentityWrappersRestoreHits(q: QuerySet, clean: bool)
    requires q.raw.Some? && |q.wrappers| > 0
    requires DistinctKeys(q.raw.value.hits)
    requires forall j :: 0 <= j < |q.raw.value.hits| ==> MatchedBySome(q.raw.value.hits[j], q.wrappers)
    requires IdentityWraps(q.raw.value.hits, q.wrappers)
    ensures Items(q, clean).Ok?
    ensures |Items(q, clean).value| == |q.raw.value.hits|
    ensures forall i :: 0 <= i < |q.raw.value.hits| ==> Items(q, clean).value[i] == Some(q.raw.value.hits[i])
  {
    var hits := q.raw.value.hits;
    var ws := q.wrappers;
    var wrapped := WrappedHits(hits, ws);
    var order := OrderDict(hits, ws, map[]);
    IdentityPlacesAcceptedHits(hits, ws, order);
    EveryHitWrapped(hits, ws);
    var r := RestoredSlots(hits, wrapped, order);
    AllPresent(r);
  }

  lemma IdentityPlacesAcceptedHits(hits: seq<Hit>, ws: seq<Wrapper>, order: map<string, nat>)
    requires IdentityWraps(hits, ws)
    requires order == OrderDict(hits, ws, map[])
    ensures forall h :: h in WrappedHits(hits, ws) ==> h in hits && GetKey(h) in order
  {
    forall h | h in WrappedHits(hits, ws)
      ensures h in hits && GetKey(h) in order
    {
      WrappedOrigin(hits, ws, h);
      var j :| 0 <= j < |ws| && |Partition(hits, ws[j])| > 0 && h in ws[j].wrap(Partition(hits, ws[j]));
      assert h in Partition(hits, ws[j]);
      var m :| 0 <= m < |hits| && hits[m] == h;
      assert MatchedBySome(hits[m], ws);
    }
  }

  lemma EveryHitWrapped(hits: seq<Hit>, ws: seq<Wrapper>)
    requires IdentityWraps(hits, ws)
    requires forall j :: 0 <= j < |hits| ==> MatchedBySome(hits[j], ws)
    ensures forall i :: 0 <= i < |hits| ==> hits[i] in WrappedHits(hits, ws)
  {
    forall i | 0 <= i < |hits|
      ensures hits[i] in WrappedHits(hits, ws)
    {
      var j :| 0 <= j < |ws| && ws[j].matches(hits[i]);
      assert hits[i] in Partition(hits, ws[j]);
      WrappedContains(hits, ws, j, hits[i]);
    }
  }

  lemma RestoredSlots(hits: seq<Hit>, wrapped: seq<Hit>, order: map<string, nat>) returns (r: seq<Option<Hit>>)
    requires ValidOrder(hits, order) && DistinctKeys(hits)
    requires forall h :: h in wrapped ==> h in hits && GetKey(h) in order
    requires forall i :: 0 <= i < |hits| ==> hits[i] in wrapped
    ensures Place(wrapped, order, seq(|hits|, i => None)) == Ok(r)
    ensures |r| == |hits|
    ensures forall i :: 0 <= i < |hits| ==> r[i] == Some(hits[i])
  {
    var placed := Place(wrapped, order, seq(|hits|, i => None));
    assert placed.Ok?;
    r := placed.value;
    forall i | 0 <= i < |hits|
      ensures r[i] == Some(hits[i])
    {
      OrderOfDistinct(hits, order, i);
      var s := r[order[GetKey(hits[i])]];
      assert s.Some? && s.value in wrapped;
      var m :| 0 <= m < |hits| && hits[m] == s.value;
      OrderOfDistinct(hits, order, m);
    }
  }

  lemma {:induction false} AllPresent(slots: seq<Option<Hit>>)
    requires forall i :: 0 <= i < |slots| ==> slots[i].Some?
    ensures Present(slots) == slots
    decreases |slots|
  {
    if |slots| > 0 {
      AllPresent(slots[1..]);
      assert slots == [slots[0]] + slots[1..];
    }
  }
}
