/**
 * The terminal consumers. Each drives an iterator with Next until it
 * reports exhaustion, and its result is a function of the sequence the
 * iterator had left to yield.
 */
module Functions {
  import opened Sequences
  import opened Iterators

  /** Go's Set[T] (a map to empty structs): distinct members, unordered. */
  type Set<V(==)> = set<V>

  /**
   * Calls f once per element, in the order the iterator yields them. The
   * callback's effect is modelled as the sequence of its results.
   */
  method ForEach<T(0), E>(iter: SliceIterator<T>, f: T -> E) returns (effects: seq<E>)
    requires iter.Valid()
    modifies iter
    ensures iter.Valid() && iter.Rest() == []
    ensures effects == Mapped(old(iter.Rest()), f)
  {
    effects := [];
    ghost var done: seq<T> := [];
    var t, ok := iter.Next();
    while ok
      invariant iter.Valid()
      invariant ok ==> old(iter.Rest()) == done + [t] + iter.Rest()
      invariant !ok ==> old(iter.Rest()) == done && iter.Rest() == []
      invariant effects == Mapped(done, f)
      decreases |iter.Rest()| + (if ok then 1 else 0)
    {
      effects := effects + [f(t)];
      MappedAppend(done, [t], f);
      done := done + [t];
      t, ok := iter.Next();
    }
  }

  /**
   * Calls f(i, t) for the i-th yielded element t, counting from 0; the
   * callback's effect is modelled as the sequence of its results.
   */
  method ForEachIndexed<T(0), E>(iter: SliceIterator<T>, f: (int, T) -> E) returns (effects: seq<E>)
    requires iter.Valid()
    modifies iter
    ensures iter.Valid() && iter.Rest() == []
    ensures |effects| == |old(iter.Rest())|
    ensures forall k :: 0 <= k < |effects| ==> effects[k] == f(k, old(iter.Rest())[k])
  {
    effects := [];
    var i := 0;
    ghost var done: seq<T> := [];
    var t, ok := iter.Next();
    while ok
      invariant iter.Valid()
      invariant ok ==> old(iter.Rest()) == done + [t] + iter.Rest()
      invariant !ok ==> old(iter.Rest()) == done && iter.Rest() == []
      invariant i == |done| == |effects|
      invariant forall k :: 0 <= k < i ==> effects[k] == f(k, done[k])
      decreases |iter.Rest()| + (if ok then 1 else 0)
    {
      effects := effects + [f(i, t)];
      i := i + 1;
      done := done + [t];
      t, ok := iter.Next();
    }
  }

  /** Folds the yielded elements from the left, starting from initial. */
  method Reduce<T(0), R>(iter: SliceIterator<T>, initial: R, reducer: (R, T) -> R) returns (r: R)
    requires iter.Valid()
    modifies iter
    ensures iter.Valid() && iter.Rest() == []
    ensures r == FoldLeft(reducer, initial, old(iter.Rest()))
  {
    r := initial;
    ghost var done: seq<T> := [];
    var t, ok := iter.Next();
    while ok
      invariant iter.Valid()
      invariant ok ==> old(iter.Rest()) == done + [t] + iter.Rest()
      invariant !ok ==> old(iter.Rest()) == done && iter.Rest() == []
      invariant r == FoldLeft(reducer, initial, done)
      decreases |iter.Rest()| + (if ok then 1 else 0)
    {
      FoldLeftSnoc(reducer, initial, done, t);
      r := reducer(r, t);
      done := done + [t];
      t, ok := iter.Next();
    }
  }

  /** Collects the yielded elements, in order, by reducing with Append. */
  method ToSlice<T(0)>(iter: SliceIterator<T>) returns (slice: seq<T>)
    requires iter.Valid()
    modifies iter
    ensures iter.Valid() && iter.Rest() == []
    ensures slice == old(iter.Rest())
  {
    ghost var s := iter.Rest();
    slice := Reduce(iter, [], Append);
    FoldLeftAppendCollects([], s);
  }

  /** Collecting a fresh slice iterator gives back the slice. */
  method ToSliceOfSlice<T(0)>(s: seq<T>) returns (r: seq<T>)
    ensures r == s
  {
    var iter := new SliceIterator.OfSlice(s);
    r := ToSlice(iter);
  }

  // -----------------------------------------------------------------------
  // GroupBy

  /**
   * The body of GroupBy's reducer: an absent key first gets an empty set,
   * then v is added to the key's set; every other key is left alone.
   */
  function AddToGroup<K, V>(m: map<K, Set<V>>, k: K, v: V): (r: map<K, Set<V>>)
    ensures r.Keys == m.Keys + {k}
    ensures r[k] == (if k in m then m[k] else {}) + {v}
    ensures forall j :: j in m && j != k ==> r[j] == m[j]
  {
    var m' := if k !in m then m[k := {}] else m;
    m'[k := m'[k] + {v}]
  }

  /** Adding a value a key's set already holds changes nothing. */
  lemma AddToGroupPresent<K, V>(m: map<K, Set<V>>, k: K, v: V)
    requires k in m && v in m[k]
    ensures AddToGroup(m, k, v) == m
  {
    assert AddToGroup(m, k, v)[k] == m[k];
  }

  /** GroupBy's reducer for the given key and value mappers. */
  function GroupStep<T, K, V>(keyMapper: T -> K, valueMapper: T -> V): (map<K, Set<V>>, T) -> map<K, Set<V>>
  {
    (m, t) => AddToGroup(m, keyMapper(t), valueMapper(t))
  }

  /** The keys of the yielded elements. */
  ghost function KeysOf<T, K>(s: seq<T>, keyMapper: T -> K): set<K>
  {
    set x | x in s :: keyMapper(x)
  }

  /** The values of the yielded elements whose key is k. */
  ghost function GroupOf<T, K, V>(s: seq<T>, keyMapper: T -> K, valueMapper: T -> V, k: K): set<V>
  {
    set x | x in s && keyMapper(x) == k :: valueMapper(x)
  }

  /**
   * Maps each key of the yielded elements to the set of their values, by
   * reducing with GroupStep.
   */
  method GroupBy<T(0), K, V>(iter: SliceIterator<T>, keyMapper: T -> K, valueMapper: T -> V)
    returns (groups: map<K, Set<V>>)
    requires iter.Valid()
    modifies iter
    ensures iter.Valid() && iter.Rest() == []
    ensures groups.Keys == KeysOf(old(iter.Rest()), keyMapper)
    ensures forall k :: k in groups ==> groups[k] == GroupOf(old(iter.Rest()), keyMapper, valueMapper, k)
    ensures forall k :: k in groups ==> groups[k] != {}
  {
    ghost var s := iter.Rest();
    groups := Reduce(iter, map[], GroupStep(keyMapper, valueMapper));
    GroupedBySpec(s, keyMapper, valueMapper);
  }

  /** One more element adds its key to the keys. */
  lemma KeysOfSnoc<T, K>(p: seq<T>, x: T, keyMapper: T -> K)
    ensures KeysOf(p + [x], keyMapper) == KeysOf(p, keyMapper) + {keyMapper(x)}
  {
    assert (p + [x])[|p|] == x;
    forall y | y in KeysOf(p + [x], keyMapper) ensures y in KeysOf(p, keyMapper) + {keyMapper(x)} {
      var z :| z in p + [x] && keyMapper(z) == y;
      if z != x { assert z in p; }
    }
  }

  /** One more element adds its value to its own key's group and to no other. */
  lemma GroupOfSnoc<T, K, V>(p: seq<T>, x: T, keyMapper: T -> K, valueMapper: T -> V, k: K)
    ensures GroupOf(p + [x], keyMapper, valueMapper, k)
         == GroupOf(p, keyMapper, valueMapper, k) + (if keyMapper(x) == k then {valueMapper(x)} else {})
  {
    assert (p + [x])[|p|] == x;
    forall y | y in GroupOf(p + [x], keyMapper, valueMapper, k)
      ensures y in GroupOf(p, keyMapper, valueMapper, k) + (if keyMapper(x) == k then {valueMapper(x)} else {})
    {
      var z :| z in p + [x] && keyMapper(z) == k && valueMapper(z) == y;
      if z != x { assert z in p; }
    }
  }

  /**
   * Reducing a sequence with GroupStep from the empty map gives exactly the
   * keys of its elements, each with exactly the values of its elements
   * under that key, so no set is empty.
   */
  lemma {:induction false} GroupedBySpec<T, K, V>(s: seq<T>, keyMapper: T -> K, valueMapper: T -> V)
    ensures var g := FoldLeft(GroupStep(keyMapper, valueMapper), map[], s);
      && g.Keys == KeysOf(s, keyMapper)
      && (forall k :: k in g ==> g[k] == GroupOf(s, keyMapper, valueMapper, k))
      && (forall k :: k in g ==> g[k] != {})
    decreases |s|
  {
    var step := GroupStep(keyMapper, valueMapper);
    if s != [] {
      var p, x := s[..|s| - 1], s[|s| - 1];
      assert s == p + [x];
      GroupedBySpec(p, keyMapper, valueMapper);
      FoldLeftSnoc(step, map[], p, x);
      var g0 := FoldLeft(step, map[], p);
      var g := FoldLeft(step, map[], s);
      assert g == AddToGroup(g0, keyMapper(x), valueMapper(x));
      KeysOfSnoc(p, x, keyMapper);
      forall k | k in g
        ensures g[k] == GroupOf(s, keyMapper, valueMapper, k)
      {
        GroupOfSnoc(p, x, keyMapper, valueMapper, k);
      }
    }
  }
}
