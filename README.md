# MapBuilder in Dafny

A model of `MapBuilder<K, V>` from the `org.mcemperor.util.collection`
package. The builder stages key/value pairs in a `LinkedHashMap`. It also
remembers an ordering mode: `NONE` (the default), `NATURAL`, `COMPARATOR` or
`INSERTION`. After `sortedOrder` it also keeps that comparator, until the next
`sortedOrder`; the other mode selectors leave it in place. `build()`
copies the staged pairs into a map of the matching kind and returns a
read-only view of it:

- a `HashMap` for `NONE`;
- a `TreeMap` in natural key order for `NATURAL`;
- a `TreeMap` ordered by the stored comparator for `COMPARATOR`;
- a `LinkedHashMap` for `INSERTION`.

Modules:

- `Wrappers`: `Option`, which stands for a Java reference that may be null.
- `Comparators`: a Java `Comparator` as a function `(K, K) -> int`.
  - `IsValidComparator`: the comparator contract (zero exactly on equal keys, swapping the arguments flips the sign, transitivity).
  - `CompareStrings`: `String.compareTo`.
  - `Reverse`: `Comparator.reverseOrder`.
- `Entries`: the staging `LinkedHashMap` as a sequence of pairs with unique keys.
  - `PutEntry`: its `put`.
  - `ToMap`: the dictionary the pairs describe, built by copying them one by one.
  - `PutAll`: a run of `put` calls.
  - `FirstOccurrences`: an independent description of the key order that a run of `put` calls leaves.
- `TreeMaps`: a `TreeMap` as the sequence of its entries in ascending key order.
  - `TreePut`: `TreeMap.put`.
  - `TreeOf`: a `TreeMap` filled from the staged pairs in iteration order.
  - Lemmas: the result is strictly sorted, holds the same pairs, is a permutation, and is the only such arrangement.
- `Builder`:
  - the `Order` enum;
  - `ResultMap`: `Ordered` pairs for `LinkedHashMap` and `TreeMap` results, an `Unordered` dictionary for a `HashMap`;
  - `Promised`: what `build` promises in each mode;
  - the `MapBuilder` class, with fields `order`, `comparator` and `entries`.
- `Scenarios`: the builder's unit-test scenarios, written as client methods and lemmas whose assertions the verifier checks.

The keys' natural ordering (their `Comparable` implementation) cannot be
derived from a Dafny type. It is therefore given to the constructor and
kept in the constant field `natural`. A built map is a Dafny value, so no
later call on the builder can change it, and nothing can write to it. That
is what `Collections.unmodifiableMap` over a fresh copy provides.

## Model

| member | source | states |
|---|---|---|
| Builder.Promised | src/main/java/org/mcemperor/util/collection/MapBuilder.java:117-126 | the promise of `build` in each mode, as the `switch` chooses the map: `NONE` an unordered map with the staged pairs; `NATURAL` and `COMPARATOR` a sorted copy (`SortedCopy`) under the comparator in use; `INSERTION` the staged pairs in staging order. `BuildFrom` and `MapBuilder.Build` ensure it |
| Builder.TreeComparator | src/main/java/org/mcemperor/util/collection/MapBuilder.java:121 | the ordering of `new TreeMap<>(comparator)`: the stored comparator, or natural order when it is null. It has no contract of its own; `BuildFrom`'s `ensures` and `NullComparatorSortsNaturally` cover it |
| Entries.PutEntry | src/main/java/org/mcemperor/util/collection/MapBuilder.java:71 | `LinkedHashMap.put` on the staging area. It is specified by `PutEntryKeys`, `PutEntryUnique` and `PutEntryToMap` |
| Entries.ToMap | src/main/java/org/mcemperor/util/collection/MapBuilder.java:118 | the dictionary a map copied from the pairs holds, a later pair overriding an earlier one (`new HashMap<>(entries)`). Specified by `ToMapKeys` and `PutEntryToMap`; it is also the reference that `PutAllValues` and `TreeOfSorted` compare against |
| Entries.PutAll | src/main/java/org/mcemperor/util/collection/MapBuilder.java:70-73 | the staging area after a run of `put` calls. Specified by `PutAllUnique`, `PutAllKeys` and `PutAllValues` |
| TreeMaps.TreePut | src/main/java/org/mcemperor/util/collection/MapBuilder.java:119-122 | `TreeMap.put`: a smaller key goes before the first larger one; a key comparing equal keeps the stored key and takes the new value. Specified by `TreePutSorted`, `TreePutToMap` and `TreePutNew` |
| TreeMaps.TreeOf | src/main/java/org/mcemperor/util/collection/MapBuilder.java:119-122 | `new TreeMap` filled by `putAll` from the staged pairs in iteration order. Specified by `TreeOfSorted`, `TreeOfPermutation` and `SortedIsUnique` |
| Comparators.CompareStrings | src/test/java/org/mcemperor/util/collection/MapBuilderTest.java:54-68 | `String.compareTo`, the natural order of the tests' `String` keys: the difference of the first differing characters, otherwise the difference of the lengths. Specified by `CompareStringsZero`, `CompareStringsSwap`, `CompareStringsTransitive` and `CompareStringsValid` |
| Comparators.Reverse | src/test/java/org/mcemperor/util/collection/MapBuilderTest.java:41 | `Comparator.reverseOrder()`: the arguments swapped. Specified by `ReverseValid` |
| Builder.MapBuilder.constructor | src/main/java/org/mcemperor/util/collection/MapBuilder.java:43-61 | a new builder is in mode `NONE`, has no comparator (null) and an empty staging area |
| Builder.MapBuilder.Put | src/main/java/org/mcemperor/util/collection/MapBuilder.java:63-73 | only the staging area changes: a new key goes to the end, a key already present keeps its position and takes the new value; keys stay unique; the staged dictionary becomes the old one with `key` mapped to `value` |
| Builder.MapBuilder.InsertionOrder | src/main/java/org/mcemperor/util/collection/MapBuilder.java:80-83 | only the mode changes, to `INSERTION`; the comparator and the pairs stay as they were |
| Builder.MapBuilder.SortedOrder | src/main/java/org/mcemperor/util/collection/MapBuilder.java:91-95 | the mode becomes `COMPARATOR` and the given comparator, which may be null, is stored; the pairs are untouched |
| Builder.MapBuilder.NaturalOrder | src/main/java/org/mcemperor/util/collection/MapBuilder.java:105-108 | only the mode changes, to `NATURAL`; a comparator stored earlier is kept |
| Builder.MapBuilder.Build | src/main/java/org/mcemperor/util/collection/MapBuilder.java:110-129 | `build` reads the builder and changes nothing; the result satisfies `Promised` for the current mode, comparator and pairs |
| Builder.BuildFrom | src/main/java/org/mcemperor/util/collection/MapBuilder.java:116-129 | `NONE`: an unordered map with exactly the staged pairs. `NATURAL` or `COMPARATOR` with a valid comparator: keys strictly ascending, hence unique; the same pairs as the staging area; a permutation of it when the staged keys are unique, which `MapBuilder.Valid()` guarantees. A null comparator means natural order. `INSERTION`: the staged pairs in staging order |
| Builder.BuildHoldsStagedPairs | src/main/java/org/mcemperor/util/collection/MapBuilder.java:110-129 | in every mode the built map holds exactly the staged key/value pairs, none lost and none added |
| Builder.StaleComparatorIgnored | src/main/java/org/mcemperor/util/collection/MapBuilder.java:117-126 | outside `COMPARATOR` mode, any comparator left by an earlier `sortedOrder` has no effect on the result |
| Builder.SortedCopyIsTheSort | src/main/java/org/mcemperor/util/collection/MapBuilder.java:119-124 | what the sorted modes promise fixes the result: a sorted copy of pairs with distinct keys equals every strictly ascending permutation of them |
| Builder.NaturalBuildIsTheSort | src/main/java/org/mcemperor/util/collection/MapBuilder.java:119 | in `NATURAL` mode the result equals every strictly ascending permutation of the staged pairs, so the order is fully determined |
| Builder.ComparatorBuildIsTheSort | src/main/java/org/mcemperor/util/collection/MapBuilder.java:120-124 | in `COMPARATOR` mode the result equals every permutation of the staged pairs that is strictly ascending under the comparator |
| Builder.InsertionBuildAfterPuts | src/main/java/org/mcemperor/util/collection/MapBuilder.java:125 | after any run of `put` calls on a new builder, the `INSERTION` result lists each key once, in the order of its first `put`, with the value of its last `put` |
| Entries.FindKey | src/main/java/org/mcemperor/util/collection/MapBuilder.java:71 | the index found holds the key, no earlier index holds it, and the length of the sequence means the key is absent |
| Entries.PutEntryKeys | src/main/java/org/mcemperor/util/collection/MapBuilder.java:53-56 | `put` appends a new key at the end and leaves the key order unchanged when the key is present |
| Entries.PutEntryUnique | src/main/java/org/mcemperor/util/collection/MapBuilder.java:64 | `put` keeps each key at most once in the staging area |
| Entries.PutEntryToMap | src/main/java/org/mcemperor/util/collection/MapBuilder.java:64 | `put` overwrites the value of an existing key and touches no other key |
| Entries.ToMapKeys | src/main/java/org/mcemperor/util/collection/MapBuilder.java:118 | copying the staged pairs into a map gives a key exactly when some pair carries it |
| Entries.FirstOccurrencesMember | src/main/java/org/mcemperor/util/collection/MapBuilder.java:53-56 | the reference key order contains exactly the keys that were put |
| Entries.PutAllUnique | src/main/java/org/mcemperor/util/collection/MapBuilder.java:53-56 | a run of `put` calls from an empty builder never stages a key twice |
| Entries.PutAllKeys | src/main/java/org/mcemperor/util/collection/MapBuilder.java:53-56 | a run of `put` calls stages the keys in the order of their first `put` |
| Entries.PutAllValues | src/main/java/org/mcemperor/util/collection/MapBuilder.java:63-64 | a run of `put` calls stages each key with the value of its last `put` |
| Comparators.ReverseValid | src/test/java/org/mcemperor/util/collection/MapBuilderTest.java:41 | `Comparator.reverseOrder` of a valid comparator is valid, and it puts `a` before `b` exactly when the original puts `b` before `a` |
| Comparators.CompareStringsZero | src/main/java/org/mcemperor/util/collection/MapBuilder.java:27-30 | `String.compareTo` is zero exactly on equal strings |
| Comparators.CompareStringsSwap | src/main/java/org/mcemperor/util/collection/MapBuilder.java:27-30 | swapping the arguments of `String.compareTo` negates the result |
| Comparators.CompareStringsTransitive | src/main/java/org/mcemperor/util/collection/MapBuilder.java:27-30 | `String.compareTo` is transitive on "less than" |
| Comparators.CompareStringsValid | src/main/java/org/mcemperor/util/collection/MapBuilder.java:27-30 | the natural order of strings satisfies the comparator contract, so `NATURAL` mode sorts `String` keys |
| TreeMaps.TreePutSorted | src/main/java/org/mcemperor/util/collection/MapBuilder.java:119-122 | `TreeMap.put` keeps the keys strictly ascending under a valid comparator |
| TreeMaps.TreePutToMap | src/main/java/org/mcemperor/util/collection/MapBuilder.java:119-122 | `TreeMap.put` maps the key to the new value and leaves every other key as it was |
| TreeMaps.TreePutNew | src/main/java/org/mcemperor/util/collection/MapBuilder.java:119-122 | putting a key the tree lacks adds exactly that one pair |
| TreeMaps.TreeOfSorted | src/main/java/org/mcemperor/util/collection/MapBuilder.java:119-122 | a `TreeMap` filled from the staged pairs is strictly ascending and holds the same key/value pairs |
| TreeMaps.TreeOfPermutation | src/main/java/org/mcemperor/util/collection/MapBuilder.java:119-122 | when the staged keys are unique, that `TreeMap` is a permutation of the staged pairs |
| TreeMaps.SortedIsUnique | src/main/java/org/mcemperor/util/collection/MapBuilder.java:119-124 | two strictly ascending arrangements of the same pairs are equal |
| Scenarios.NaturalTreeExample | src/test/java/org/mcemperor/util/collection/MapBuilderTest.java:54-68 | one, two, three in natural `String` order iterate as one, three, two |
| Scenarios.ReverseTreeExample | src/test/java/org/mcemperor/util/collection/MapBuilderTest.java:38-52 | one, two, three under `Comparator.reverseOrder()` iterate as two, three, one |
| Scenarios.NaturalResultIs | src/test/java/org/mcemperor/util/collection/MapBuilderTest.java:54-68 | any result meeting the `NATURAL` promise for the staged one, two, three is exactly one, three, two |
| Scenarios.ReverseStringsValid | src/test/java/org/mcemperor/util/collection/MapBuilderTest.java:41 | `Comparator.reverseOrder()` on strings meets the comparator contract |
| Scenarios.ReverseResultIs | src/test/java/org/mcemperor/util/collection/MapBuilderTest.java:38-52 | any result meeting the `COMPARATOR` promise under `Comparator.reverseOrder()` for the staged one, two, three is exactly two, three, one |

The `Scenarios` methods follow the unit tests. They carry no contract of
their own. Each asserts what the test expects of the built map, and the
verifier derives that from the builder's contracts. In the sorted modes
this goes through `Promised`: it shows the expected sequence is strictly
ascending and a permutation of the staged pairs, then applies
`SortedCopyIsTheSort`:

- `PutAddsEntry`: MapBuilderTest.java:11-18.
- `InsertionOrderKept`: MapBuilderTest.java:20-36.
- `ReverseComparatorOrder`: MapBuilderTest.java:38-52 and 103-119.
- `NaturalOrderSorted`: MapBuilderTest.java:54-68 and 85-101.
- `DefaultModeUnordered`: MapBuilderTest.java:70-83.
- `InsertionOrderOneTwoThree`: MapBuilderTest.java:121-137.
- `BuiltMapIsASnapshot`: MapBuilder.java:116-129. `build` copies the staged pairs, so later calls on the builder leave an earlier result as it was.
- `LastSelectorWins` and `NullComparatorSortsNaturally`: the `build` switch at MapBuilder.java:117-126.

## Left out

- `Collections.unmodifiableMap` and its `UnsupportedOperationException` are not modelled. A `ResultMap` is an immutable value, so no mutator exists to reject.
- The iteration order of the `HashMap` built in `NONE` mode is not modelled. The result is an unordered dictionary, because Java promises no order there.
- The `ClassCastException` for keys that are not `Comparable` is not modelled. The natural ordering is a constructor argument, so every key type has one.
- Comparators that break the comparator contract, or that are inconsistent with `equals`, are not modelled. With such a comparator a `TreeMap` merges distinct keys or is left undefined by Java. The sorted-mode clauses of `Builder.Promised` and the lemmas require `IsValidComparator`.
- Builder.BuildFrom: the sorted-mode guarantee is conditional on `IsValidComparator` of the comparator in use. For an invalid comparator the model inserts by a linear scan from the smallest key. That need not match the tree search `TreeMap` does from its root, and the model promises nothing about the result.
- The red-black tree inside `TreeMap` is not modelled. Only its observable behaviour under a valid comparator is: the entry sequence in key order, where a comparison of zero keeps the stored key and replaces the value.
- Null keys and null values are not modelled. Keys and values are ordinary Dafny values, which are never null.
- `return this` method chaining is not modelled. The mutators are methods with no result, and chained client code becomes consecutive calls.
- `String.compareTo` compares UTF-16 code units. `CompareStrings` compares Dafny `char` values, which agree on the characters the tests use.
- Thread safety is not modelled. The builder is not synchronised, and the model is sequential.
- The JUnit and AssertJ machinery of the tests is not modelled. Only the scenarios' expected results are.
