/**
 * The builder's test scenarios, written as clients of `MapBuilder` whose
 * assertions Dafny checks from the builder's contracts.
 */
module Scenarios {
  import opened Comparators
  import opened Entries
  import opened TreeMaps
  import opened Builder
  import Wrappers

  /** A single `put` shows up in the built map. */
  method PutAddsEntry() {
    var b := new MapBuilder<string, int>(CompareStrings);
    b.Put("one", 1);
    var m := b.Build();
    assert "one" in m.Contents() && m.Contents()["one"] == 1;
  }

  /** Insertion order is kept: three, one, two, four. */
  method InsertionOrderKept() {
    var b := new MapBuilder<string, int>(CompareStrings);
    b.InsertionOrder();
    b.Put("three", 3);
    b.Put("one", 1);
    assert b.entries == [("three", 3), ("one", 1)];
    b.Put("two", 2);
    assert b.entries == [("three", 3), ("one", 1), ("two", 2)];
    b.Put("four", 4);
    var m := b.Build();
    assert m == Ordered([("three", 3), ("one", 1), ("two", 2), ("four", 4)]);
  }

  /** `TreeOf`'s own computation on the natural-order test: one, two, three give one, three, two. */
  lemma NaturalTreeExample()
    ensures TreeOf(CompareStrings, [("one", 1), ("two", 2), ("three", 3)])
            == [("one", 1), ("three", 3), ("two", 2)]
  {
    var c: Comparator<string> := CompareStrings;
    var e: seq<(string, int)> := [("one", 1), ("two", 2), ("three", 3)];
    assert c("two", "one") > 0 && c("three", "one") > 0 && c("three", "two") < 0;
    assert e[..2][..1] == e[..1] && |e[..1][..0]| == 0;
    assert TreeOf(c, e[..1]) == [("one", 1)];
    assert TreePut(c, [("one", 1)], ("two", 2)) == [("one", 1), ("two", 2)];
    assert TreeOf(c, e[..2]) == [("one", 1), ("two", 2)];
    assert TreePut(c, [("two", 2)], ("three", 3)) == [("three", 3), ("two", 2)];
    assert TreePut(c, [("one", 1), ("two", 2)], ("three", 3)) == [("one", 1)] + TreePut(c, [("two", 2)], ("three", 3));
    assert TreeOf(c, e) == TreePut(c, TreeOf(c, e[..2]), e[2]);
  }

  /** `TreeOf`'s own computation on the reverse-order test: one, two, three give two, three, one. */
  lemma ReverseTreeExample()
    ensures TreeOf(Reverse(CompareStrings), [("one", 1), ("two", 2), ("three", 3)])
            == [("two", 2), ("three", 3), ("one", 1)]
  {
    var c: Comparator<string> := Reverse(CompareStrings);
    var e: seq<(string, int)> := [("one", 1), ("two", 2), ("three", 3)];
    assert CompareStrings("one", "two") < 0 && CompareStrings("one", "three") < 0;
    assert CompareStrings("two", "three") > 0;
    assert c("two", "one") < 0 && c("three", "one") < 0 && c("three", "two") > 0;
    assert e[..2][..1] == e[..1] && |e[..1][..0]| == 0;
    assert TreeOf(c, e[..1]) == [("one", 1)];
    assert TreePut(c, [("one", 1)], ("two", 2)) == [("two", 2), ("one", 1)];
    assert TreeOf(c, e[..2]) == [("two", 2), ("one", 1)];
    assert TreePut(c, [("one", 1)], ("three", 3)) == [("three", 3), ("one", 1)];
    assert TreePut(c, [("two", 2), ("one", 1)], ("three", 3)) == [("two", 2)] + TreePut(c, [("one", 1)], ("three", 3));
    assert TreeOf(c, e) == TreePut(c, TreeOf(c, e[..2]), e[2]);
  }

  /** Reverse string order meets the comparator contract. */
  lemma ReverseStringsValid()
    ensures IsValidComparator(Reverse(CompareStrings))
  {
    CompareStringsValid();
    ReverseValid(CompareStrings);
  }

  /** Two, three, one is strictly ascending in reverse string order. */
  lemma ReverseSorted()
    ensures StrictlySorted(Reverse(CompareStrings), [("two", 2), ("three", 3), ("one", 1)])
  {
    var c: Comparator<string> := Reverse(CompareStrings);
    assert CompareStrings("three", "two") < 0 && CompareStrings("one", "two") < 0;
    assert CompareStrings("one", "three") < 0;
    assert Less(c, "two", "three") && Less(c, "two", "one") && Less(c, "three", "one");
  }

  /** Any sorted copy of one, two, three in reverse string order is two, three, one. */
  lemma ReverseResultIs(entries: seq<(string, int)>, m: ResultMap<string, int>)
    requires entries == [("one", 1), ("two", 2), ("three", 3)]
    requires IsValidComparator(Reverse(CompareStrings)) ==> SortedCopy(Reverse(CompareStrings), entries, m)
    ensures m == Ordered([("two", 2), ("three", 3), ("one", 1)])
  {
    var c: Comparator<string> := Reverse(CompareStrings);
    var expected: seq<(string, int)> := [("two", 2), ("three", 3), ("one", 1)];
    assert UniqueKeys(entries);
    assert multiset(expected) == multiset(entries);
    ReverseSorted();
    ReverseStringsValid();
    SortedCopyIsTheSort(c, entries, m, expected);
  }

  /** Reverse natural order: one, two, three become two, three, one. */
  method ReverseComparatorOrder() {
    var b := new MapBuilder<string, int>(CompareStrings);
    b.SortedOrder(Wrappers.Some(Reverse(CompareStrings)));
    b.Put("one", 1);
    b.Put("two", 2);
    assert b.entries == [("one", 1), ("two", 2)];
    b.Put("three", 3);
    var m := b.Build();
    assert b.entries == [("one", 1), ("two", 2), ("three", 3)];
    ReverseResultIs(b.entries, m);
    assert m == Ordered([("two", 2), ("three", 3), ("one", 1)]);
  }


  /** One, three, two is strictly ascending in natural string order. */
  lemma NaturalSorted()
    ensures StrictlySorted(CompareStrings, [("one", 1), ("three", 3), ("two", 2)])
  {
    assert CompareStrings("one", "three") < 0 && CompareStrings("three", "two") < 0;
    assert CompareStrings("one", "two") < 0;
  }

  /** Any sorted copy of one, two, three in natural string order is one, three, two. */
  lemma NaturalResultIs(entries: seq<(string, int)>, m: ResultMap<string, int>)
    requires entries == [("one", 1), ("two", 2), ("three", 3)]
    requires SortedCopy(CompareStrings, entries, m)
    ensures m == Ordered([("one", 1), ("three", 3), ("two", 2)])
  {
    var expected: seq<(string, int)> := [("one", 1), ("three", 3), ("two", 2)];
    assert UniqueKeys(entries);
    assert multiset(expected) == multiset(entries);
    NaturalSorted();
    CompareStringsValid();
    SortedCopyIsTheSort(CompareStrings, entries, m, expected);
  }

  /** Natural order of strings: one, two, three become one, three, two. */
  method NaturalOrderSorted() {
    var b := new MapBuilder<string, int>(CompareStrings);
    b.NaturalOrder();
    b.Put("one", 1);
    b.Put("two", 2);
    assert b.entries == [("one", 1), ("two", 2)];
    b.Put("three", 3);
    var m := b.Build();
    assert b.entries == [("one", 1), ("two", 2), ("three", 3)];
    CompareStringsValid();
    NaturalResultIs(b.entries, m);
    assert m == Ordered([("one", 1), ("three", 3), ("two", 2)]);
  }


  /** Default mode: exactly the pairs one and two, in no promised order. */
  method DefaultModeUnordered() {
    var b := new MapBuilder<string, int>(CompareStrings);
    b.Put("one", 1);
    b.Put("two", 2);
    var m := b.Build();
    assert m.Unordered?;
    assert m.Contents() == map["one" := 1, "two" := 2];
  }

  /** A result already built is a value: later calls on the builder leave it alone. */
  method BuiltMapIsASnapshot() {
    var b := new MapBuilder<string, int>(CompareStrings);
    b.InsertionOrder();
    b.Put("one", 1);
    var first := b.Build();
    b.Put("two", 2);
    b.Put("one", 10);
    var second := b.Build();
    assert first == Ordered([("one", 1)]);
    assert second == Ordered([("one", 10), ("two", 2)]);
  }

  /** The last mode selector wins; the stale comparator is ignored. */
  method LastSelectorWins() {
    var b := new MapBuilder<string, int>(CompareStrings);
    b.SortedOrder(Wrappers.Some(Reverse(CompareStrings)));
    b.InsertionOrder();
    b.Put("two", 2);
    b.Put("one", 1);
    var m := b.Build();
    assert b.comparator.Some?;
    assert m == Ordered([("two", 2), ("one", 1)]);
  }

  /** A null comparator sorts like natural order, as a `TreeMap` made with one does. */
  method NullComparatorSortsNaturally() {
    var b := new MapBuilder<string, int>(CompareStrings);
    b.SortedOrder(Wrappers.None);
    b.Put("one", 1);
    b.Put("two", 2);
    assert b.entries == [("one", 1), ("two", 2)];
    b.Put("three", 3);
    var m := b.Build();
    assert b.entries == [("one", 1), ("two", 2), ("three", 3)];
    assert TreeComparator(b.comparator, b.natural) == CompareStrings;
    CompareStringsValid();
    NaturalResultIs(b.entries, m);
    assert m == Ordered([("one", 1), ("three", 3), ("two", 2)]);
  }


  /** Insertion order one, two, three is kept as it was staged. */
  method InsertionOrderOneTwoThree() {
    var b := new MapBuilder<string, int>(CompareStrings);
    b.InsertionOrder();
    b.Put("one", 1);
    b.Put("two", 2);
    assert b.entries == [("one", 1), ("two", 2)];
    b.Put("three", 3);
    var m := b.Build();
    assert m == Ordered([("one", 1), ("two", 2), ("three", 3)]);
  }
}
