/**
 * The abstract view of an iterator: the finite sequence of values it has
 * still to yield. Every adapter's output is a function of its inner
 * iterator's sequence, and every consumer's result a function of the
 * sequence it drains; those functions, and what is proved about them, are
 * defined here once.
 */
module Sequences {

  function Min(a: int, b: int): int { if a <= b then a else b }

  function Max(a: int, b: int): int { if a <= b then b else a }

  /** f applied to every element, in order (what Map yields). */
  function Mapped<T, U>(s: seq<T>, f: T -> U): (r: seq<U>)
    ensures |r| == |s|
    ensures forall k :: 0 <= k < |s| ==> r[k] == f(s[k])
  {
    if s == [] then [] else [f(s[0])] + Mapped(s[1..], f)
  }

  /** The elements satisfying p, in their original order (what Filter yields). */
  function Filtered<T>(s: seq<T>, p: T -> bool): (r: seq<T>)
    ensures |r| <= |s|
    ensures forall x :: x in r ==> x in s && p(x)
  {
    if s == [] then []
    else (if p(s[0]) then [s[0]] else []) + Filtered(s[1..], p)
  }

  /** The first min(max(n, 0), |s|) elements (what Take yields). */
  function Prefix<T>(s: seq<T>, n: int): (r: seq<T>)
    ensures |r| == Min(Max(n, 0), |s|)
    ensures forall k :: 0 <= k < |r| ==> r[k] == s[k]
    ensures n <= 0 ==> r == []
  {
    s[..Min(Max(n, 0), |s|)]
  }

  /** The sequences f(s[0]), f(s[1]), … concatenated in order (what FlatMap yields). */
  function FlatMapped<T, U>(s: seq<T>, f: T -> seq<U>): (r: seq<U>)
    ensures forall t, x :: t in s && x in f(t) ==> x in r
  {
    if s == [] then [] else f(s[0]) + FlatMapped(s[1..], f)
  }

  /** The left fold g(…g(g(a, s[0]), s[1])…, s[|s|-1]) (what Reduce returns). */
  function FoldLeft<A, T>(g: (A, T) -> A, a: A, s: seq<T>): A
  {
    if s == [] then a else FoldLeft(g, g(a, s[0]), s[1..])
  }

  /** The combining function of ToSlice: append one element. */
  function Append<T>(acc: seq<T>, x: T): (r: seq<T>)
    ensures |r| == |acc| + 1 && r[..|acc|] == acc && r[|acc|] == x
  {
    acc + [x]
  }

  /** The head and tail of a concatenation whose first part is non-empty. */
  lemma HeadTailOfAppend<T>(a: seq<T>, b: seq<T>)
    requires a != []
    ensures (a + b)[0] == a[0] && (a + b)[1..] == a[1..] + b
  {
  }

  // ---------------------------------------------------------------------
  // Mapped

  lemma {:induction false} MappedAppend<T, U>(a: seq<T>, b: seq<T>, f: T -> U)
    ensures Mapped(a + b, f) == Mapped(a, f) + Mapped(b, f)
  {
    var l, r := Mapped(a + b, f), Mapped(a, f) + Mapped(b, f);
    assert |l| == |r|;
    forall k | 0 <= k < |l| ensures l[k] == r[k] {
      if k < |a| { assert (a + b)[k] == a[k]; } else { assert (a + b)[k] == b[k - |a|]; }
    }
  }

  // ---------------------------------------------------------------------
  // Filtered

  /** An element is kept exactly when it occurs in s and satisfies p. */
  lemma {:induction false} FilteredMembers<T>(s: seq<T>, p: T -> bool, x: T)
    ensures x in Filtered(s, p) <==> x in s && p(x)
  {
    if s != [] {
      FilteredMembers(s[1..], p, x);
      assert s == [s[0]] + s[1..];
    }
  }

  /** Filtering distributes over concatenation, so order is preserved. */
  lemma {:induction false} FilteredAppend<T>(a: seq<T>, b: seq<T>, p: T -> bool)
    ensures Filtered(a + b, p) == Filtered(a, p) + Filtered(b, p)
  {
    if a == [] {
      assert a + b == b;
    } else {
      assert (a + b)[0] == a[0];
      assert (a + b)[1..] == a[1..] + b;
      FilteredAppend(a[1..], b, p);
    }
  }

  /** Filtering with p and then with q is filtering once with p && q. */
  lemma {:induction false} FilteredTwice<T>(s: seq<T>, p: T -> bool, q: T -> bool)
    ensures Filtered(Filtered(s, p), q) == Filtered(s, x => p(x) && q(x))
  {
    if s != [] {
      FilteredTwice(s[1..], p, q);
      var head := if p(s[0]) then [s[0]] else [];
      FilteredAppend(head, Filtered(s[1..], p), q);
    }
  }

  /** Filtering a sequence with a known head decides the head, then filters the tail. */
  lemma FilteredCons<T>(x: T, s: seq<T>, p: T -> bool)
    ensures Filtered([x] + s, p) == (if p(x) then [x] else []) + Filtered(s, p)
  {
    assert ([x] + s)[0] == x && ([x] + s)[1..] == s;
  }

  /** A predicate that holds everywhere keeps the whole sequence. */
  lemma {:induction false} FilteredKeepsAll<T>(s: seq<T>, p: T -> bool)
    requires forall k :: 0 <= k < |s| ==> p(s[k])
    ensures Filtered(s, p) == s
  {
    if s != [] {
      assert p(s[0]);
      FilteredKeepsAll(s[1..], p);
    }
  }

  // ---------------------------------------------------------------------
  // Prefix

  /** Taking n from a non-empty sequence yields its head, then n - 1 of its tail. */
  lemma PrefixStep<T>(s: seq<T>, n: int)
    requires s != [] && n > 0
    ensures Prefix(s, n) == [s[0]] + Prefix(s[1..], n - 1)
  {
  }

  // ---------------------------------------------------------------------
  // FlatMapped

  /** Flat-mapping distributes over concatenation of the outer sequence. */
  lemma {:induction false} FlatMappedAppend<T, U>(a: seq<T>, b: seq<T>, f: T -> seq<U>)
    ensures FlatMapped(a + b, f) == FlatMapped(a, f) + FlatMapped(b, f)
  {
    if a == [] {
      assert a + b == b;
    } else {
      assert (a + b)[0] == a[0];
      assert (a + b)[1..] == a[1..] + b;
      FlatMappedAppend(a[1..], b, f);
    }
  }

  /** Flat-mapping a sequence with a known head yields f of the head, then flat-maps the tail. */
  lemma FlatMappedCons<T, U>(x: T, s: seq<T>, f: T -> seq<U>)
    ensures FlatMapped([x] + s, f) == f(x) + FlatMapped(s, f)
  {
    assert ([x] + s)[0] == x && ([x] + s)[1..] == s;
  }

  /** Flat-mapping with singleton sequences is Mapped. */
  lemma {:induction false} FlatMappedSingletons<T, U>(s: seq<T>, f: T -> U)
    ensures FlatMapped(s, x => [f(x)]) == Mapped(s, f)
  {
    if s != [] {
      FlatMappedSingletons(s[1..], f);
    }
  }

  /** Flat-mapping with empty-or-singleton sequences is Filtered. */
  lemma {:induction false} FlatMappedOptional<T>(s: seq<T>, p: T -> bool)
    ensures FlatMapped(s, x => if p(x) then [x] else []) == Filtered(s, p)
  {
    if s != [] {
      FlatMappedOptional(s[1..], p);
    }
  }

  // ---------------------------------------------------------------------
  // FoldLeft

  /** Folding one more element applies g once more, last. */
  lemma {:induction false} FoldLeftSnoc<A, T>(g: (A, T) -> A, a: A, s: seq<T>, x: T)
    ensures FoldLeft(g, a, s + [x]) == g(FoldLeft(g, a, s), x)
  {
    if s == [] {
      assert s + [x] == [x];
    } else {
      assert (s + [x])[0] == s[0];
      assert (s + [x])[1..] == s[1..] + [x];
      FoldLeftSnoc(g, g(a, s[0]), s[1..], x);
    }
  }

  /** Folding with Append collects the sequence after the initial accumulator. */
  lemma {:induction false} FoldLeftAppendCollects<T>(acc: seq<T>, s: seq<T>)
    ensures FoldLeft(Append, acc, s) == acc + s
    decreases |s|
  {
    if s != [] {
      FoldLeftAppendCollects(acc + [s[0]], s[1..]);
      assert acc + [s[0]] + s[1..] == acc + s;
    }
  }
}
