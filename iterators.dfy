/**
 * The iterator adapters of the library. Each Go struct is a class whose
 * Next method changes its private state the way the Go method does.
 *
 * A finite iterator is described by Rest(), the sequence it has still to
 * yield, and every finite iterator's Next keeps the one contract Advanced:
 * it yields the head of Rest() and drops it, or reports exhaustion when
 * Rest() is empty and leaves it empty. The transform adapters drive an
 * inner slice iterator, and Rest() of each is a function of the inner
 * iterator's Rest() (Mapped, Filtered, Prefix, FlatMapped).
 */
module Iterators {
  import opened Sequences

  /**
   * The contract of Iterator.Next for an iterator that had `before` left to
   * yield and has `after` left once the call returned (v, ok).
   */
  ghost predicate Advanced<T>(before: seq<T>, after: seq<T>, v: T, ok: bool)
    ensures Advanced(before, after, v, ok) ==> |after| == Max(|before| - 1, 0)
  {
    && ok == (before != [])
    && (ok ==> v == before[0] && after == before[1..])
    && (!ok ==> after == [])
  }

  /** Once an iterator has reported exhaustion, every later call reports it again. */
  lemma ExhaustionIsPermanent<T>(s0: seq<T>, s1: seq<T>, v1: T, ok1: bool, s2: seq<T>, v2: T, ok2: bool)
    requires Advanced(s0, s1, v1, ok1) && Advanced(s1, s2, v2, ok2)
    ensures !ok1 ==> !ok2 && s2 == []
  {
  }

  /** The counter behind Inf: Next returns 1, 2, 3, … and never exhausts. */
  class InfIterator {
    var count: int

    constructor Inf()
      ensures count == 0
    {
      count := 0;
    }

    method Next() returns (v: int, ok: bool)
      modifies this
      ensures ok
      ensures count == old(count) + 1 && v == count
    {
      count := count + 1;
      return count, true;
    }
  }

  /** Repeat: Next returns the same value forever and changes nothing. */
  class RepeatIterator<T> {
    const t: T

    constructor Repeat(t: T)
      ensures this.t == t
    {
      this.t := t;
    }

    method Next() returns (v: T, ok: bool)
      ensures ok && v == t
    {
      return t, true;
    }
  }

  /** OfSlice: a cursor over a fixed sequence. */
  class SliceIterator<T(0)> {
    const slice: seq<T>
    var index: nat

    ghost predicate Valid()
      reads this
    {
      index <= |slice|
    }

    ghost function Rest(): seq<T>
      reads this
      requires Valid()
    {
      slice[index..]
    }

    constructor OfSlice(slice: seq<T>)
      ensures Valid() && this.slice == slice && index == 0
      ensures Rest() == slice
    {
      this.slice := slice;
      index := 0;
    }

    method Next() returns (v: T, ok: bool)
      requires Valid()
      modifies this
      ensures Valid() && Advanced(old(Rest()), Rest(), v, ok)
      ensures ok == (old(index) < |slice|)
      ensures ok ==> v == slice[old(index)] && index == old(index) + 1
      ensures !ok ==> index == old(index)
    {
      if index < |slice| {
        v := slice[index];
        index := index + 1;
        return v, true;
      }
      var zero: T := *;
      return zero, false;
    }
  }

  /** Map: yields f of each element of the inner iterator. */
  class MapIterator<T(0), U(0)> {
    const iter: SliceIterator<T>
    const f: T -> U

    ghost predicate Valid()
      reads this, iter
    {
      iter.Valid()
    }

    ghost function Rest(): seq<U>
      reads this, iter
      requires Valid()
    {
      Mapped(iter.Rest(), f)
    }

    constructor Map(iter: SliceIterator<T>, f: T -> U)
      requires iter.Valid()
      ensures Valid() && this.iter == iter && this.f == f
      ensures Rest() == Mapped(iter.Rest(), f)
    {
      this.iter := iter;
      this.f := f;
    }

    method Next() returns (v: U, ok: bool)
      requires Valid()
      modifies iter
      ensures Valid() && Advanced(old(Rest()), Rest(), v, ok)
      ensures ok == (old(iter.Rest()) != [])
      ensures ok ==> v == f(old(iter.Rest())[0]) && iter.index == old(iter.index) + 1
      ensures !ok ==> iter.Rest() == [] && iter.index == old(iter.index)
    {
      var t, tok := iter.Next();
      if tok {
        assert Mapped(old(iter.Rest()), f) == [f(t)] + Mapped(iter.Rest(), f);
        return f(t), true;
      }
      var zero: U := *;
      return zero, false;
    }
  }

  /** Filter: yields the elements of the inner iterator that satisfy take. */
  class FilterIterator<T(0)> {
    const iter: SliceIterator<T>
    const take: T -> bool

    ghost predicate Valid()
      reads this, iter
    {
      iter.Valid()
    }

    ghost function Rest(): seq<T>
      reads this, iter
      requires Valid()
    {
      Filtered(iter.Rest(), take)
    }

    constructor Filter(iter: SliceIterator<T>, take: T -> bool)
      requires iter.Valid()
      ensures Valid() && this.iter == iter && this.take == take
      ensures Rest() == Filtered(iter.Rest(), take)
    {
      this.iter := iter;
      this.take := take;
    }

    /**
     * Pulls from the inner iterator until an element satisfies take or the
     * inner iterator is exhausted; the elements pulled before it are dropped.
     */
    method Next() returns (v: T, ok: bool)
      requires Valid()
      modifies iter
      ensures Valid() && Advanced(old(Rest()), Rest(), v, ok)
      ensures ok ==> old(iter.index) < iter.index && v == iter.slice[iter.index - 1] && take(v)
      ensures ok ==> forall k :: old(iter.index) <= k < iter.index - 1 ==> !take(iter.slice[k])
      ensures !ok ==> iter.Rest() == []
      ensures !ok ==> forall k :: old(iter.index) <= k < |iter.slice| ==> !take(iter.slice[k])
    {
      while true
        invariant iter.Valid() && old(iter.index) <= iter.index
        invariant Filtered(iter.Rest(), take) == old(Rest())
        invariant forall k :: old(iter.index) <= k < iter.index ==> !take(iter.slice[k])
        decreases |iter.Rest()|
      {
        ghost var rest := iter.Rest();
        var t, tok := iter.Next();
        if !tok {
          return t, false;
        }
        assert rest == [t] + iter.Rest();
        if take(t) {
          return t, true;
        }
      }
    }
  }

  /** Take: yields at most the first n elements of the inner iterator. */
  class TakeIterator<T(0)> {
    const iter: SliceIterator<T>
    const n: int
    var i: int

    /** i counts the calls made to the inner iterator; it never passes max(n, 0). */
    ghost predicate Valid()
      reads this, iter
    {
      iter.Valid() && 0 <= i <= Max(n, 0)
    }

    ghost function Rest(): seq<T>
      reads this, iter
      requires Valid()
    {
      Prefix(iter.Rest(), n - i)
    }

    constructor Take(iter: SliceIterator<T>, n: int)
      requires iter.Valid()
      ensures Valid() && this.iter == iter && this.n == n && i == 0
      ensures Rest() == Prefix(iter.Rest(), n)
    {
      this.iter := iter;
      this.n := n;
      i := 0;
    }

    method Next() returns (v: T, ok: bool)
      requires Valid()
      modifies this, iter
      ensures Valid() && Advanced(old(Rest()), Rest(), v, ok)
      ensures old(i) < n ==> i == old(i) + 1 && Advanced(old(iter.Rest()), iter.Rest(), v, ok)
      ensures old(i) >= n ==> !ok && i == old(i) && unchanged(iter)
    {
      if i < n {
        i := i + 1;
        v, ok := iter.Next();
        if ok {
          PrefixStep(old(iter.Rest()), n - old(i));
        }
        return v, ok;
      }
      var zero: T := *;
      return zero, false;
    }
  }

  /**
   * FlatMap: for each outer element t, yields everything f(t) yields. The
   * current inner iterator, when there is one, is uIter.
   */
  class FlatMapIterator<T(0), U(0)> {
    const tIter: SliceIterator<T>
    const f: T -> seq<U>
    var uIter: SliceIterator?<U>

    ghost predicate Valid()
      reads this, tIter, uIter
    {
      && tIter.Valid()
      && (uIter != null ==> uIter.Valid() && uIter as object != tIter)
    }

    ghost function Rest(): seq<U>
      reads this, tIter, uIter
      requires Valid()
    {
      (if uIter == null then [] else uIter.Rest()) + FlatMapped(tIter.Rest(), f)
    }

    constructor FlatMap(iter: SliceIterator<T>, f: T -> seq<U>)
      requires iter.Valid()
      ensures Valid() && tIter == iter && this.f == f && uIter == null
      ensures Rest() == FlatMapped(iter.Rest(), f)
    {
      tIter := iter;
      this.f := f;
      uIter := null;
    }

    /**
     * The first half of the loop in Next: when there is no current inner
     * iterator, pulls one outer element t and makes f(t) the current inner
     * iterator; more is false when the outer iterator is exhausted instead.
     */
    method Refill() returns (more: bool)
      requires Valid()
      modifies this, tIter
      ensures Valid() && Rest() == old(Rest())
      ensures uIter != null ==> fresh(uIter) || uIter == old(uIter)
      ensures more == (uIter != null)
      ensures !more ==> Rest() == [] && tIter.Rest() == []
      ensures old(uIter) != null ==> uIter == old(uIter) && unchanged(tIter)
      ensures old(uIter) == null ==> |tIter.Rest()| < |old(tIter.Rest())| || !more
      ensures old(uIter) == null ==> more == (old(tIter.Rest()) != [])
      ensures old(uIter) == null && more ==>
        && tIter.Rest() == old(tIter.Rest())[1..]
        && uIter.Rest() == f(old(tIter.Rest())[0])
    {
      if uIter == null {
        ghost var outer := tIter.Rest();
        var t, tok := tIter.Next();
        if !tok {
          return false;
        }
        assert outer == [t] + tIter.Rest();
        uIter := new SliceIterator.OfSlice(f(t));
      }
      return true;
    }

    /**
     * Pulls the next outer element whenever there is no current inner
     * iterator, and drops an inner iterator once it is exhausted; reports
     * exhaustion only when the outer iterator is exhausted.
     */
    method Next() returns (v: U, ok: bool)
      requires Valid()
      modifies this, tIter, uIter
      ensures Valid() && Advanced(old(Rest()), Rest(), v, ok)
      ensures uIter != null ==> fresh(uIter) || uIter == old(uIter)
      ensures !ok ==> uIter == null && tIter.Rest() == []
    {
      while true
        invariant Valid() && Rest() == old(Rest())
        invariant uIter != null ==> fresh(uIter) || uIter == old(uIter)
        decreases |tIter.Rest()|, if uIter == null then 0 else 1 + |uIter.Rest()|
      {
        var more := Refill();
        if !more {
          var zero: U := *;
          return zero, false;
        }
        ghost var inner := uIter.Rest();
        ghost var outer := tIter.Rest();
        var u, uok := uIter.Next();
        if uok {
          HeadTailOfAppend(inner, FlatMapped(outer, f));
          return u, true;
        }
        uIter := null;
      }
    }
  }
}
