/**
 * `MapBuilder<K, V>`: stages key/value pairs, remembers an ordering mode and
 * an optional comparator, and builds a read-only map from them.
 */
module Builder {
  import opened Comparators
  import opened Entries
  import opened TreeMaps
  import Wrappers

  /** The ordering the built map will have; `None` is the default. */
  datatype Order = None | Natural | ByComparator | Insertion

  /**
   * What `build` returns. A Dafny value cannot be changed, which is what the
   * unmodifiable wrapper guarantees.
   */
  datatype ResultMap<K, V> =
    | Ordered(pairs: seq<(K, V)>)  // a LinkedHashMap or a TreeMap: iteration order fixed
    | Unordered(table: map<K, V>)  // a HashMap: no iteration order promised
  {
    /** The key/value pairs the map holds. */
    function Contents(): map<K, V> {
      match this
      case Ordered(pairs) => ToMap(pairs)
      case Unordered(table) => table
    }
  }

  /**
   * `r` is a sorted copy of `entries` under `c`: keys strictly ascending
   * (so no key twice), the same pairs as the staging area, a permutation of
   * it when its keys are distinct.
   */
  ghost predicate SortedCopy<K(!new), V>(c: Comparator<K>, entries: seq<(K, V)>, r: ResultMap<K, V>) {
    && r.Ordered?
    && StrictlySorted(c, r.pairs)
    && UniqueKeys(r.pairs)
    && r.Contents() == ToMap(entries)
    && (UniqueKeys(entries) ==> multiset(r.pairs) == multiset(entries))
  }

  /** The ordering of a `TreeMap` made with `comparator`: a null one means natural order. */
  function TreeComparator<K>(comparator: Wrappers.Option<Comparator<K>>, natural: Comparator<K>): Comparator<K> {
    if comparator.Some? then comparator.value else natural
  }

  /** What `build` promises in each mode. */
  ghost predicate Promised<K(!new), V>(order: Order, comparator: Wrappers.Option<Comparator<K>>,
                                       natural: Comparator<K>, entries: seq<(K, V)>, r: ResultMap<K, V>) {
    match order
    case None => r.Unordered? && r.Contents() == ToMap(entries)
    case Natural => IsValidComparator(natural) ==> SortedCopy(natural, entries, r)
    case ByComparator =>
      var c := TreeComparator(comparator, natural);
      IsValidComparator(c) ==> SortedCopy(c, entries, r)
    case Insertion => r == Ordered(entries)
  }

  lemma TreeCopyFacts<K(!new), V>(c: Comparator<K>, entries: seq<(K, V)>)
    ensures IsValidComparator(c) ==> SortedCopy(c, entries, Ordered(TreeOf(c, entries)))
  {
    if IsValidComparator(c) {
      TreeOfSorted(c, entries);
      SortedUniqueKeys(c, TreeOf(c, entries));
      if UniqueKeys(entries) {
        TreeOfPermutation(c, entries);
      }
    }
  }

  /** `build` on the given state. */
  function BuildFrom<K(==,!new), V>(order: Order, comparator: Wrappers.Option<Comparator<K>>,
                                    natural: Comparator<K>, entries: seq<(K, V)>): (r: ResultMap<K, V>)
    ensures Promised(order, comparator, natural, entries, r)
  {
    match order
    case None => Unordered(ToMap(entries))
    case Natural =>
      TreeCopyFacts(natural, entries);
      Ordered(TreeOf(natural, entries))
    case ByComparator =>
      var c := TreeComparator(comparator, natural);
      TreeCopyFacts(c, entries);
      Ordered(TreeOf(c, entries))
    case Insertion => Ordered(entries)
  }

  /** In every mode the built map holds exactly the staged pairs. */
  lemma BuildHoldsStagedPairs<K(!new), V>(order: Order, comparator: Wrappers.Option<Comparator<K>>,
                                             natural: Comparator<K>, entries: seq<(K, V)>)
    requires order == Natural ==> IsValidComparator(natural)
    requires order == ByComparator ==> IsValidComparator(TreeComparator(comparator, natural))
    ensures BuildFrom(order, comparator, natural, entries).Contents() == ToMap(entries)
  {
  }

  /** A comparator left behind by an earlier `sortedOrder` matters only in `ByComparator` mode. */
  lemma StaleComparatorIgnored<K(!new), V>(order: Order, c1: Wrappers.Option<Comparator<K>>,
                                              c2: Wrappers.Option<Comparator<K>>,
                                              natural: Comparator<K>, entries: seq<(K, V)>)
    requires order != ByComparator
    ensures BuildFrom(order, c1, natural, entries) == BuildFrom(order, c2, natural, entries)
  {
  }

  /** A sorted copy is fixed by its entries: it is any strictly ascending permutation of them. */
  lemma SortedCopyIsTheSort<K(!new), V>(c: Comparator<K>, entries: seq<(K, V)>,
                                          r: ResultMap<K, V>, sorted: seq<(K, V)>)
    requires IsValidComparator(c) && UniqueKeys(entries) && SortedCopy(c, entries, r)
    requires StrictlySorted(c, sorted) && multiset(sorted) == multiset(entries)
    ensures r == Ordered(sorted)
  {
    SortedIsUnique(c, r.pairs, sorted);
  }

  /**
   * In `Natural` mode `build` gives the one strictly ascending arrangement of
   * the staged pairs: any reference sort of them gives the same sequence.
   */
  lemma NaturalBuildIsTheSort<K(!new), V>(comparator: Wrappers.Option<Comparator<K>>, natural: Comparator<K>,
                                             entries: seq<(K, V)>, sorted: seq<(K, V)>)
    requires IsValidComparator(natural) && UniqueKeys(entries)
    requires StrictlySorted(natural, sorted) && multiset(sorted) == multiset(entries)
    ensures BuildFrom(Natural, comparator, natural, entries) == Ordered(sorted)
  {
    var r := BuildFrom(Natural, comparator, natural, entries);
    SortedIsUnique(natural, r.pairs, sorted);
  }

  /** Likewise in `ByComparator` mode, under the stored comparator. */
  lemma ComparatorBuildIsTheSort<K(!new), V>(c: Comparator<K>, natural: Comparator<K>,
                                                entries: seq<(K, V)>, sorted: seq<(K, V)>)
    requires IsValidComparator(c) && UniqueKeys(entries)
    requires StrictlySorted(c, sorted) && multiset(sorted) == multiset(entries)
    ensures BuildFrom(ByComparator, Wrappers.Some(c), natural, entries) == Ordered(sorted)
  {
    var r := BuildFrom(ByComparator, Wrappers.Some(c), natural, entries);
    SortedIsUnique(c, r.pairs, sorted);
  }

  /**
   * After a run of `put` calls, `Insertion` mode lists each key once, in the
   * order of its first `put`, with the value of its last `put`.
   */
  lemma InsertionBuildAfterPuts<K(!new), V>(comparator: Wrappers.Option<Comparator<K>>, natural: Comparator<K>,
                                               puts: seq<(K, V)>)
    ensures var r := BuildFrom(Insertion, comparator, natural, PutAll([], puts));
            && r.Ordered?
            && UniqueKeys(r.pairs)
            && Keys(r.pairs) == FirstOccurrences(Keys(puts))
            && r.Contents() == ToMap(puts)
  {
    PutAllUnique(puts);
    PutAllKeys(puts);
    PutAllValues(puts);
  }

  class MapBuilder<K(==,!new), V> {
    /** The keys' natural ordering (their `Comparable` implementation). */
    const natural: Comparator<K>
    var order: Order
    var comparator: Wrappers.Option<Comparator<K>>
    var entries: seq<(K, V)>

    ghost predicate Valid()
      reads this`entries
    {
      UniqueKeys(entries)
    }

    constructor (natural: Comparator<K>)
      ensures Valid()
      ensures this.natural == natural
      ensures order == None && comparator == Wrappers.None && entries == []
    {
      this.natural := natural;
      order := None;
      comparator := Wrappers.None;
      entries := [];
    }

    /** Stages `key` with `value`: a new key at the end, a known key in place. */
    method Put(key: K, value: V)
      requires Valid()
      modifies this`entries
      ensures Valid()
      ensures entries == PutEntry(old(entries), key, value)
      ensures ToMap(entries) == ToMap(old(entries))[key := value]
    {
      PutEntryUnique(entries, key, value);
      PutEntryToMap(entries, key, value);
      entries := PutEntry(entries, key, value);
    }

    method InsertionOrder()
      modifies this`order
      ensures order == Insertion
    {
      order := Insertion;
    }

    /** Selects sorting by `c`; `Wrappers.None` stands for a null comparator. */
    method SortedOrder(c: Wrappers.Option<Comparator<K>>)
      modifies this`order, this`comparator
      ensures order == ByComparator && comparator == c
    {
      order := ByComparator;
      comparator := c;
    }

    method NaturalOrder()
      modifies this`order
      ensures order == Natural
    {
      order := Natural;
    }

    /** A fresh read-only map from the current state; the builder is left as it was. */
    function Build(): (r: ResultMap<K, V>)
      reads this
      ensures Promised(order, comparator, natural, entries, r)
    {
      BuildFrom(order, comparator, natural, entries)
    }
  }
}
