/**
 * Clients that drive the iterators the way the repository's tests do, and
 * whose postconditions are the values those tests expect. Each follows
 * from the contracts of the members it calls alone.
 */
module Scenarios {
  import opened Sequences
  import opened Iterators
  import opened Functions

  /** OfSlice([1..5]) yields 1, 2, 3, 4, 5, then reports exhaustion three more times. */
  method SliceYieldsInOrder() returns (values: seq<int>, allOk: bool, exhaustedThrice: bool)
    ensures values == [1, 2, 3, 4, 5] && allOk && exhaustedThrice
  {
    var s := [1, 2, 3, 4, 5];
    var it := new SliceIterator.OfSlice(s);
    values, allOk := [], true;
    for i := 0 to 5
      invariant it.Valid() && it.Rest() == s[i..]
      invariant values == s[..i] && allOk
    {
      var v, ok := it.Next();
      values, allOk := values + [v], allOk && ok;
    }
    var _, ok1 := it.Next();
    var _, ok2 := it.Next();
    var _, ok3 := it.Next();
    exhaustedThrice := !ok1 && !ok2 && !ok3;
  }

  function Double(i: int): int { 2 * i }

  /** Mapping 1..5 with Double gives 2, 4, 6, 8, 10. */
  lemma DoublesOfOneToFive()
    ensures Mapped([1, 2, 3, 4, 5], Double) == [2, 4, 6, 8, 10]
  {
    var r := Mapped([1, 2, 3, 4, 5], Double);
    assert r[0] == 2 && r[1] == 4 && r[2] == 6 && r[3] == 8 && r[4] == 10;
  }

  /** Map(OfSlice([1..5]), Double) yields 2, 4, 6, 8, 10, then reports exhaustion three more times. */
  method MapDoubles() returns (values: seq<int>, allOk: bool, exhaustedThrice: bool)
    ensures values == [2, 4, 6, 8, 10] && allOk && exhaustedThrice
  {
    var inner := new SliceIterator.OfSlice([1, 2, 3, 4, 5]);
    var it := new MapIterator.Map(inner, Double);
    DoublesOfOneToFive();
    var a, okA := it.Next();
    var b, okB := it.Next();
    var c, okC := it.Next();
    var d, okD := it.Next();
    var e, okE := it.Next();
    var _, ok1 := it.Next();
    var _, ok2 := it.Next();
    var _, ok3 := it.Next();
    values, allOk := [a, b, c, d, e], okA && okB && okC && okD && okE;
    exhaustedThrice := !ok1 && !ok2 && !ok3;
  }

  function Even(i: int): bool { i % 2 == 0 }

  /** Filtering 1..5 with Even keeps 2 and 4. */
  lemma EvensOfOneToFive()
    ensures Filtered([1, 2, 3, 4, 5], Even) == [2, 4]
  {
    FilteredCons(5, [], Even);
    FilteredCons(4, [5], Even);
    FilteredCons(3, [4, 5], Even);
    FilteredCons(2, [3, 4, 5], Even);
    FilteredCons(1, [2, 3, 4, 5], Even);
  }

  /** Filter(OfSlice([1..5]), Even) yields 2, 4, then reports exhaustion three more times. */
  method FilterEvens() returns (values: seq<int>, allOk: bool, exhaustedThrice: bool)
    ensures values == [2, 4] && allOk && exhaustedThrice
  {
    var inner := new SliceIterator.OfSlice([1, 2, 3, 4, 5]);
    var it := new FilterIterator.Filter(inner, Even);
    EvensOfOneToFive();
    var a, okA := it.Next();
    var b, okB := it.Next();
    var _, ok1 := it.Next();
    var _, ok2 := it.Next();
    var _, ok3 := it.Next();
    values, allOk := [a, b], okA && okB;
    exhaustedThrice := !ok1 && !ok2 && !ok3;
  }

  /** Inf() yields 1, 2, 3: what Take(Inf(), 3) pulls from it. */
  method CounterStartsAtOne() returns (values: seq<int>)
    ensures values == [1, 2, 3]
  {
    var it := new InfIterator.Inf();
    values := [];
    for i := 0 to 3
      invariant it.count == i && values == seq(i, k => k + 1)
    {
      var v, ok := it.Next();
      values := values + [v];
    }
  }

  /** Take(OfSlice([1..5]), 3) yields 1, 2, 3, reports exhaustion, and leaves 4, 5 in the inner iterator. */
  method TakeThree() returns (values: seq<int>, allOk: bool, exhausted: bool, left: seq<int>)
    ensures values == [1, 2, 3] && allOk && exhausted
    ensures left == [4, 5]
  {
    var s := [1, 2, 3, 4, 5];
    var inner := new SliceIterator.OfSlice(s);
    var it := new TakeIterator.Take(inner, 3);
    values, allOk := [], true;
    for i := 0 to 3
      invariant it.Valid() && it.iter == inner && it.i == i && inner.Rest() == s[i..]
      invariant values == s[..i] && allOk
    {
      var v, ok := it.Next();
      values, allOk := values + [v], allOk && ok;
    }
    var _, ok := it.Next();
    exhausted := !ok;
    left := ToSlice(inner);
  }

  /** i copies of i (what Take(Repeat(i), i) yields). */
  function Copies(i: int): (r: seq<int>)
    ensures |r| == Max(i, 0) && forall k :: 0 <= k < |r| ==> r[k] == i
  {
    seq(Max(i, 0), _ => i)
  }

  /** Copies of 1 to 5, written out. */
  lemma CopiesUpToFive()
    ensures Copies(1) == [1] && Copies(2) == [2, 2] && Copies(3) == [3, 3, 3]
    ensures Copies(4) == [4, 4, 4, 4] && Copies(5) == [5, 5, 5, 5, 5]
  {
    assert Copies(4) == [4, 4, 4, 4];
    assert Copies(5) == [5, 5, 5, 5, 5];
  }

  /** Flat-mapping 1..5 with Copies gives one 1, two 2s, …, five 5s. */
  lemma CopiesOfOneToFive()
    ensures FlatMapped([1, 2, 3, 4, 5], Copies) == [1, 2, 2, 3, 3, 3, 4, 4, 4, 4, 5, 5, 5, 5, 5]
  {
    CopiesUpToFive();
    FlatMappedCons(5, [], Copies);
    FlatMappedCons(4, [5], Copies);
    FlatMappedCons(3, [4, 5], Copies);
    FlatMappedCons(2, [3, 4, 5], Copies);
    FlatMappedCons(1, [2, 3, 4, 5], Copies);
  }

  /** Calls Next n times on a flat-map iterator that has at least n values left. */
  method PullFlatMapped<T(0), U(0)>(it: FlatMapIterator<T, U>, n: nat) returns (values: seq<U>, allOk: bool)
    requires it.Valid() && n <= |it.Rest()|
    modifies it, it.tIter, it.uIter
    ensures it.Valid() && it.Rest() == old(it.Rest())[n..]
    ensures values == old(it.Rest())[..n] && allOk
    ensures it.uIter != null ==> fresh(it.uIter) || it.uIter == old(it.uIter)
  {
    values, allOk := [], true;
    for i := 0 to n
      invariant it.Valid() && it.Rest() == old(it.Rest())[i..]
      invariant values == old(it.Rest())[..i] && allOk
      invariant it.uIter != null ==> fresh(it.uIter) || it.uIter == old(it.uIter)
    {
      var v, ok := it.Next();
      values, allOk := values + [v], allOk && ok;
    }
  }

  /**
   * FlatMap(OfSlice([1..5]), Copies) yields i copies of each i in turn,
   * then reports exhaustion three more times.
   */
  method FlatMapRepeats() returns (values: seq<int>, allOk: bool, exhaustedThrice: bool)
    ensures values == [1, 2, 2, 3, 3, 3, 4, 4, 4, 4, 5, 5, 5, 5, 5] && allOk && exhaustedThrice
  {
    var outer := new SliceIterator.OfSlice([1, 2, 3, 4, 5]);
    var it := new FlatMapIterator.FlatMap(outer, Copies);
    CopiesOfOneToFive();
    values, allOk := PullFlatMapped(it, 15);
    var _, ok1 := it.Next();
    var _, ok2 := it.Next();
    var _, ok3 := it.Next();
    exhaustedThrice := !ok1 && !ok2 && !ok3;
  }

  /** Reduce(OfSlice([1..5]), 0, +) is 15. */
  method ReduceSums() returns (sum: int)
    ensures sum == 15
  {
    var it := new SliceIterator.OfSlice([1, 2, 3, 4, 5]);
    sum := Reduce(it, 0, (a: int, b: int) => a + b);
  }

  /** Reduce folds from the left: ((0 - 1) - 2) - 3 is -6. */
  method ReduceSubtractsFromTheLeft() returns (r: int)
    ensures r == -6
  {
    var it := new SliceIterator.OfSlice([1, 2, 3]);
    r := Reduce(it, 0, (a: int, b: int) => a - b);
  }

  function Parity(i: int): int { i % 2 }

  function Identity(i: int): int { i }

  /** Grouping 1..5 by parity: keys 0 and 1, holding {2, 4} and {1, 3, 5}. */
  lemma ParityGroupsOfOneToFive()
    ensures KeysOf([1, 2, 3, 4, 5], Parity) == {0, 1}
    ensures GroupOf([1, 2, 3, 4, 5], Parity, Identity, 0) == {2, 4}
    ensures GroupOf([1, 2, 3, 4, 5], Parity, Identity, 1) == {1, 3, 5}
  {
    var s := [1, 2, 3, 4, 5];
    assert s[0] == 1 && s[1] == 2 && s[2] == 3 && s[3] == 4 && s[4] == 5;
    assert Parity(1) == 1 && Parity(2) == 0;
    forall y | y in KeysOf(s, Parity) ensures y in {0, 1} { }
    forall y | y in GroupOf(s, Parity, Identity, 0) ensures y in {2, 4} { }
    forall y | y in GroupOf(s, Parity, Identity, 1) ensures y in {1, 3, 5} { }
    assert Identity(2) in GroupOf(s, Parity, Identity, 0) && Identity(4) in GroupOf(s, Parity, Identity, 0);
    assert Identity(1) in GroupOf(s, Parity, Identity, 1) && Identity(3) in GroupOf(s, Parity, Identity, 1);
    assert Identity(5) in GroupOf(s, Parity, Identity, 1);
  }

  /** GroupBy(OfSlice([1..5]), i % 2, i) is {0: {2, 4}, 1: {1, 3, 5}}. */
  method GroupByParity() returns (groups: map<int, Set<int>>)
    ensures groups == map[0 := {2, 4}, 1 := {1, 3, 5}]
  {
    var it := new SliceIterator.OfSlice([1, 2, 3, 4, 5]);
    groups := GroupBy(it, Parity, Identity);
    ParityGroupsOfOneToFive();
  }
}
