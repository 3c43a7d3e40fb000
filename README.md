# go-itertools in Dafny

A model of go-itertools, a small pull-based iterator library for Go. Its
parts are:

- `Iterator[T]`: an interface with one method, `Next() (T, bool)`. It returns
  the next element and `true`, or a zero value and `false` once the iterator
  is exhausted.
- Three source adapters: `Inf` (counts 1, 2, 3, …), `Repeat` (one value
  forever) and `OfSlice` (the elements of a slice).
- Four transform adapters that wrap an inner iterator: `Map`, `Filter`,
  `FlatMap` and `Take`.
- Terminal consumers that drain an iterator: `ForEach`, `ForEachIndexed`,
  `Reduce`, `ToSlice` and `GroupBy`.

Every Go iterator struct is a Dafny class whose `Next` method updates the
same fields the Go method updates. A finite iterator is described by the
ghost function `Rest()`, the sequence it has still to yield. Every finite
iterator's `Next` is proved to keep one contract, `Iterators.Advanced`: it
yields the head of `Rest()` and drops it, or, when `Rest()` is empty, it
reports exhaustion and leaves it empty.

Each transform adapter's `Rest()` is a function of its inner iterator's
`Rest()`: `Mapped`, `Filtered`, `Prefix` or `FlatMapped`. Each consumer's
result is stated in terms of the sequence it drains:
- `ForEach`'s result is `Mapped` over it.
- `Reduce`'s result is a `FoldLeft` over it, and `ToSlice`'s is the sequence itself.
- `ForEachIndexed`'s result is stated element by element.
- `GroupBy`'s result is stated through the set comprehensions `KeysOf` and `GroupOf`.

These sequence functions live in module `Sequences`, together with the
algebra the library relies on, such as filtering twice or flat-mapping a
concatenation.

Module `Scenarios` drives the classes in the repository's tests' scenarios.
Each postcondition is the outcome the test expects, and it follows from the
contracts of the members the scenario calls. Two tests are not modelled as
written:
- TestTakeIterator takes 3 from `Inf()`. `CounterStartsAtOne` checks only
  Inf's first three values, and `TakeThree` checks Take's cut-off over a
  slice iterator.
- TestFlatMapIterator flat-maps with the closure `i => Take(Repeat(i), i)`.
  `FlatMapRepeats` uses the stand-in sequence `Copies(i)` instead.

Files:

- `sequences.dfy`: the specification functions and their lemmas.
- `iterators.dfy`: the iterator classes, from `iterators.go`.
- `functions.dfy`: the consumers, from `functions.go`.
- `scenarios.dfy`: the test scenarios.

## Model

| member | source | states |
|---|---|---|
| Iterators.Advanced | iterators.go:3-5 | The `Next` contract as a relation between what remained before and after a call that returned (v, ok). `ok` holds exactly when something remained. On `ok`, v is the first remaining element and exactly it is dropped. On exhaustion, nothing remains. Every call consumes exactly one element, or none when nothing remained. |
| Iterators.ExhaustionIsPermanent | iterators.go:3-5 | Once a `Next` that keeps `Advanced` has reported exhaustion, the next call reports it again and nothing remains. |
| Iterators.InfIterator.Inf | iterators.go:15 | A fresh counter starts at 0. |
| Iterators.InfIterator.Next | iterators.go:9-12 | Always succeeds. Increments the counter and returns its new value, so successive calls yield 1, 2, 3, …. |
| Iterators.RepeatIterator.Repeat | iterators.go:21 | Stores the value to repeat. |
| Iterators.RepeatIterator.Next | iterators.go:19 | Always succeeds with the stored value and changes nothing (no `modifies`). |
| Iterators.SliceIterator.OfSlice | iterators.go:38 | The cursor starts at index 0, so the whole slice remains. |
| Iterators.SliceIterator.Next | iterators.go:28-36 | Keeps `Advanced`. Succeeds exactly when `index < len(slice)`, yielding `slice[index]` and moving the index by one. When exhausted, the index stays put. |
| Iterators.MapIterator.Map | iterators.go:64-66 | What remains is f applied to every remaining inner element. |
| Iterators.MapIterator.Next | iterators.go:56-62 | Keeps `Advanced` over the mapped sequence. Succeeds exactly when the inner iterator has elements left, yielding f of the inner head after exactly one inner call. |
| Iterators.FilterIterator.Filter | iterators.go:113-115 | What remains is the remaining inner elements that satisfy `take`, in order. |
| Iterators.FilterIterator.Next | iterators.go:101-111 | Keeps `Advanced` over the filtered sequence. On success, the yielded element is the last one pulled, it satisfies `take`, and every element pulled before it in the call fails `take`. On exhaustion, the inner iterator is drained and every element it had left fails `take`. |
| Iterators.TakeIterator.Take | iterators.go:132-134 | The call count starts at 0. What remains is the first `min(max(n, 0), len)` inner elements. |
| Iterators.TakeIterator.Next | iterators.go:123-131 | Keeps `Advanced` over the prefix, with the count never above `max(n, 0)`. Below `n`, it counts the call and forwards it, so the result is exactly the inner `Next`'s result. At `n` or beyond, it reports exhaustion without touching the inner iterator. |
| Iterators.FlatMapIterator.FlatMap | iterators.go:92-94 | Starts with no current inner iterator. What remains is the concatenation of f over the remaining outer elements. |
| Iterators.FlatMapIterator.Refill | iterators.go:76-83 | With no current inner iterator, it answers true exactly when the outer iterator had elements left. In that case it pulls exactly one outer element t and makes a fresh iterator over f(t) current. With a current inner iterator, it changes nothing and answers true. The remaining sequence is unchanged either way, and a false answer means nothing remains. |
| Iterators.FlatMapIterator.Next | iterators.go:74-90 | Keeps `Advanced` over the concatenation. It drops drained inner iterators and reports exhaustion only once the outer iterator is exhausted and no inner iterator is left. |
| Sequences.Mapped | iterators.go:56-62 | Same length as the input, and element k is f of input element k. |
| Sequences.Filtered | iterators.go:101-111 | No longer than the input, and every element kept occurs in the input and satisfies p. |
| Sequences.Prefix | iterators.go:123-131 | Length is `min(max(n, 0), len)`, it agrees with the input element by element, and it is empty for `n <= 0`. |
| Sequences.FlatMapped | iterators.go:74-90 | What FlatMap yields: f of each outer element, concatenated in outer order. Every element of every f(t), for t in the input, occurs in the result. |
| Sequences.FoldLeft | functions.go:26-32 | What Reduce returns: the reducer applied to the accumulator and each element in turn, from the first element to the last. |
| Sequences.Append | functions.go:38 | ToSlice's reducer: the result is one longer than the accumulator, starts with the whole accumulator, and ends with x. |
| Sequences.MappedAppend | iterators.go:56-62 | Mapping distributes over concatenation. |
| Sequences.FilteredMembers | iterators.go:101-111 | An element is kept if and only if it occurs in the input and satisfies p. |
| Sequences.FilteredAppend | iterators.go:101-111 | Filtering distributes over concatenation, so relative order is kept. |
| Sequences.FilteredTwice | iterators.go:101-111 | Filtering with p and then with q equals filtering once with `p && q`. |
| Sequences.FilteredCons | iterators.go:103-109 | Proof step for one pull of `Filter`: filtering decides the head and then filters the tail. |
| Sequences.FilteredKeepsAll | iterators.go:107-108 | A predicate that holds for every element keeps the whole sequence. |
| Sequences.PrefixStep | iterators.go:124-126 | Proof step for one forwarded call of `Take`: taking n > 0 from a non-empty sequence yields its head, then n - 1 from its tail. |
| Sequences.FlatMappedAppend | iterators.go:74-90 | Flat-mapping `a + b` is flat-mapping a, then flat-mapping b: outer order is kept. |
| Sequences.FlatMappedCons | iterators.go:77-78 | Proof step for one outer pull of `FlatMap`: flat-mapping yields f of the head, then flat-maps the tail. |
| Sequences.FlatMappedSingletons | iterators.go:74-90 | Flat-mapping with `x => [f(x)]` equals `Mapped` with f. |
| Sequences.FlatMappedOptional | iterators.go:74-90 | Flat-mapping with `x => if p(x) then [x] else []` equals `Filtered` with p. |
| Sequences.FoldLeftSnoc | functions.go:26-32 | Folding one more element applies the reducer once more, last. |
| Sequences.FoldLeftAppendCollects | functions.go:34-40 | Folding with append from `acc` gives `acc` followed by the whole sequence. |
| Functions.ForEach | functions.go:3-7 | Drains the iterator. The callback's results are f of every element it had left, in order. |
| Functions.ForEachIndexed | functions.go:9-15 | Drains the iterator. There is one callback per element, and the k-th call receives index k and the k-th remaining element. |
| Functions.Reduce | functions.go:26-32 | Drains the iterator. The result is the left fold of the reducer over the remaining elements, starting from the initial value. |
| Functions.ToSlice | functions.go:34-40 | Drains the iterator. The slice is exactly the elements it had left, in order. |
| Functions.ToSliceOfSlice | functions_test.go:28-32 | Collecting a fresh `OfSlice(s)` gives back s. |
| Functions.Set | functions.go:42-43 | Go's `Set[T]`, a map to empty structs: a Dafny `set`, with distinct members and no order. |
| Functions.GroupStep | functions.go:49-57 | GroupBy's reducer closure: for element t, it adds the value mapper's value for t to the group of the key mapper's key for t, with `AddToGroup`. |
| Functions.AddToGroup | functions.go:49-57 | The keys become the old keys plus k. k's set gains v, starting from the empty set when k was absent. Every other key's set is unchanged. |
| Functions.AddToGroupPresent | functions.go:52-55 | Adding a value that a key's set already holds leaves the map unchanged. |
| Functions.KeysOfSnoc | functions.go:50-54 | One more element adds exactly its key to the set of keys. |
| Functions.GroupOfSnoc | functions.go:50-55 | One more element adds its value to its own key's group and to no other group. |
| Functions.GroupedBySpec | functions.go:45-59 | Reducing from the empty map produces exactly the keys of the elements. Each key maps to exactly the values of the elements with that key, so no group is empty. |
| Functions.GroupBy | functions.go:45-59 | Drains the iterator. The result has the keys of the remaining elements, each mapped to the set of values of the elements with that key, and no group is empty. |
| Scenarios.SliceYieldsInOrder | iterators_test.go:10-21 | `OfSlice([1..5])` yields 1 to 5 in order, then reports exhaustion three times. |
| Scenarios.DoublesOfOneToFive | iterators_test.go:43-50 | Mapping 1..5 with doubling gives 2, 4, 6, 8, 10. |
| Scenarios.MapDoubles | iterators_test.go:43-55 | `Map(OfSlice([1..5]), double)` yields 2, 4, 6, 8, 10, then reports exhaustion three times. |
| Scenarios.EvensOfOneToFive | iterators_test.go:75-82 | Filtering 1..5 for even numbers gives 2, 4. |
| Scenarios.FilterEvens | iterators_test.go:75-87 | `Filter(OfSlice([1..5]), even)` yields 2 and 4, then reports exhaustion three times. |
| Scenarios.CounterStartsAtOne | iterators_test.go:89-95 | `Inf()` yields 1, 2, 3. This covers only Inf's part of the test: the test's `Take` over `Inf` and the three exhaustions are not modelled. |
| Scenarios.TakeThree | iterators.go:123-131 | `Take(OfSlice([1..5]), 3)` yields 1, 2, 3 and then reports exhaustion. The inner iterator still holds 4 and 5. |
| Scenarios.Copies | iterators_test.go:59-61 | A stand-in sequence for the test's closure `Take(Repeat(i), i)`: i copies of i, and empty for i <= 0. It is written out directly, not derived from `RepeatIterator` or `TakeIterator`. |
| Scenarios.CopiesUpToFive | iterators_test.go:59-61 | The copies of 1 to 5, written out. |
| Scenarios.CopiesOfOneToFive | iterators_test.go:57-68 | Flat-mapping 1..5 with `Copies` gives one 1, two 2s, …, five 5s. |
| Scenarios.PullFlatMapped | iterators_test.go:62-68 | n calls to `Next` on a flat-map iterator that has at least n elements left all succeed and yield its first n elements. |
| Scenarios.FlatMapRepeats | iterators_test.go:57-73 | `FlatMap(OfSlice([1..5]), Copies)`, with `Copies` standing in for the test's closure, yields i copies of each i in turn, then reports exhaustion three times. |
| Scenarios.ReduceSums | functions_test.go:22-26 | `Reduce` with `+` over 1..5 from 0 is 15. |
| Scenarios.ReduceSubtractsFromTheLeft | functions.go:26-32 | `Reduce` with `-` over 1, 2, 3 from 0 is `((0 - 1) - 2) - 3 = -6`, so it folds from the left. |
| Scenarios.ParityGroupsOfOneToFive | functions_test.go:34-41 | The keys of 1..5 under `i % 2` are {0, 1}. Their groups are {2, 4} and {1, 3, 5}. |
| Scenarios.GroupByParity | functions_test.go:34-41 | `GroupBy(OfSlice([1..5]), i % 2, i)` is `{0: {2, 4}, 1: {1, 3, 5}}`. |

## Left out

- The `Iterator[T]` interface and its dynamic dispatch. The model has no common iterator type.
  - Each Go struct is its own class, and every transform adapter and every consumer drives a `SliceIterator` as its inner iterator.
  - Adapters over adapters, and `Take` over `Inf` or `Repeat`, are therefore not composed directly.
  - Over a finite source each adapter is observationally its `Rest()` sequence, and all of them keep the same `Advanced` contract.
  - TestTakeIterator (`Take(Inf(), 3)` yields 1, 2, 3, then reports exhaustion three times) is not modelled as written. `CounterStartsAtOne` checks only Inf's first three values, and `TakeThree` checks Take's cut-off over a slice iterator. No member states the composition.
- FlatMap's function returns a sequence, not an `Iterator[U]`, because a Dafny function cannot allocate.
  - Where Go calls f, the model wraps f(t) in a new `SliceIterator`.
  - TestFlatMapIterator's closure `Take(Repeat(i), i)` is replaced by the sequence `Copies(i)`, written out directly. No member relates `Copies` to `RepeatIterator` or `TakeIterator`.
- `chanIterator`/`OfChan` and `ToChan` are not modelled. They need Go channels and goroutines, and the model has no concurrency.
- The model's counters are unbounded integers. Go's `Inf` counter (iterators.go:10) wraps to a negative value after `MaxInt` calls; `MaxInt` is 2^63 - 1 on 64-bit platforms and 2^31 - 1 on 32-bit ones. `Take`'s counter is incremented only while it is below n (iterators.go:124-125), so it stops at n and cannot overflow.
- Filter or FlatMap over an infinite source can run forever in Go. That is not modelled, because every transform adapter here has a finite inner iterator.
- Callbacks are pure Dafny functions, and their side effects are not modelled.
  - `ForEach` and `ForEachIndexed` return the sequence of the callback's results instead.
  - `ForEachIndexed` and `Reduce` run their own `Next` loop, keeping the index or the accumulator in a loop variable. In Go they pass a closure over that variable to `ForEach` (functions.go:11-14 and 28-30). `ToSlice` and `GroupBy` call `Reduce`, as in Go.
- Go slices and maps are reference values; the model uses values, so it does not capture aliasing.
  - `OfSlice` sees later writes to the caller's backing array in Go, but not here.
  - `GroupBy` updates its map in place, whereas here each step returns a new map.
  - Go's `Set[V]` (a map to empty structs) is a Dafny `set`.
- Iterators.SliceIterator.Next: on exhaustion the returned value is left unspecified, not stated to be Go's zero value, because a Dafny type parameter has no zero value.
- Iterators.MapIterator.Next: on exhaustion the returned value is left unspecified, for the same reason.
- Iterators.FilterIterator.Next: on exhaustion the returned value is left unspecified, for the same reason.
- Iterators.TakeIterator.Next: on exhaustion the returned value is left unspecified, for the same reason.
- Iterators.FlatMapIterator.Next: on exhaustion the returned value is left unspecified, for the same reason.
- `Take` counts every call made while its count is below n, including a call to an exhausted inner iterator, as iterators.go:124-126 does, not only successful advances. The elements yielded are the same either way.
