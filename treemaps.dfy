/**
 * A `TreeMap` built with a comparator: its entries as a sequence kept in
 * ascending key order, filled by one `put` per staged pair.
 */
module TreeMaps {
  import opened Comparators
  import opened Entries

  /** Keys strictly ascending under `c`. */
  ghost predicate StrictlySorted<K, V>(c: Comparator<K>, s: seq<(K, V)>) {
    forall i, j :: 0 <= i < j < |s| ==> Less(c, s[i].0, s[j].0)
  }

  /**
   * `TreeMap.put`: walk past the smaller keys; a key comparing equal to the
   * new one keeps its place and takes the new value; otherwise the pair goes
   * in before the first larger key.
   */
  function TreePut<K, V>(c: Comparator<K>, s: seq<(K, V)>, e: (K, V)): seq<(K, V)> {
    if s == [] then [e]
    else if c(e.0, s[0].0) < 0 then [e] + s
    else if c(e.0, s[0].0) == 0 then [(s[0].0, e.1)] + s[1..]
    else [s[0]] + TreePut(c, s[1..], e)
  }

  /** `new TreeMap<>(c)` followed by `putAll(entries)`, pairs taken in order. */
  function TreeOf<K, V>(c: Comparator<K>, entries: seq<(K, V)>): seq<(K, V)> {
    if entries == [] then []
    else
      var n := |entries| - 1;
      TreePut(c, TreeOf(c, entries[..n]), entries[n])
  }

  /** Every key of a sorted sequence sorts after a key below its first one. */
  lemma BelowFirst<K(!new), V>(c: Comparator<K>, k: K, s: seq<(K, V)>)
    requires IsValidComparator(c) && StrictlySorted(c, s) && s != [] && Less(c, k, s[0].0)
    ensures forall i :: 0 <= i < |s| ==> Less(c, k, s[i].0) && k != s[i].0
  {
  }

  lemma SortedCons<K, V>(c: Comparator<K>, x: (K, V), t: seq<(K, V)>)
    requires StrictlySorted(c, t)
    requires forall i :: 0 <= i < |t| ==> c(x.0, t[i].0) < 0
    ensures StrictlySorted(c, [x] + t)
  {
  }

  /** A lower bound of the tree's keys and of the new key bounds the result. */
  lemma {:induction false} TreePutAbove<K(!new), V>(c: Comparator<K>, s: seq<(K, V)>, e: (K, V), lo: K)
    requires IsValidComparator(c)
    requires forall i :: 0 <= i < |s| ==> c(lo, s[i].0) < 0
    requires c(lo, e.0) < 0
    ensures forall i :: 0 <= i < |TreePut(c, s, e)| ==> c(lo, TreePut(c, s, e)[i].0) < 0
  {
    if s != [] && c(e.0, s[0].0) > 0 {
      TreePutAbove(c, s[1..], e, lo);
    }
  }

  /** `put` keeps the tree sorted. */
  lemma {:induction false} TreePutSorted<K(!new), V>(c: Comparator<K>, s: seq<(K, V)>, e: (K, V))
    requires IsValidComparator(c) && StrictlySorted(c, s)
    ensures StrictlySorted(c, TreePut(c, s, e))
  {
    if s != [] {
      if c(e.0, s[0].0) < 0 {
        BelowFirst(c, e.0, s);
        SortedCons(c, e, s);
      } else if c(e.0, s[0].0) > 0 {
        TreePutSorted(c, s[1..], e);
        TreePutAbove(c, s[1..], e, s[0].0);
        SortedCons(c, s[0], TreePut(c, s[1..], e));
      }
    }
  }

  lemma ToMapCons<K, V>(x: (K, V), t: seq<(K, V)>)
    ensures ToMap([x] + t) == map[x.0 := x.1] + ToMap(t)
  {
    ToMapAppend([x], t);
    assert ToMap([x]) == ToMap([])[x.0 := x.1];
  }

  lemma MapUpdateUnion<K, V>(a: map<K, V>, b: map<K, V>, k: K, v: V)
    ensures (a + b)[k := v] == a + b[k := v]
  {
  }

  /** The first key of a sorted sequence is not among the later ones. */
  lemma FirstKeyFresh<K(!new), V>(c: Comparator<K>, s: seq<(K, V)>)
    requires IsValidComparator(c) && StrictlySorted(c, s) && s != []
    ensures s[0].0 !in ToMap(s[1..])
  {
    var t := s[1..];
    ToMapKeys(t, s[0].0);
    forall i | 0 <= i < |t| ensures Keys(t)[i] != s[0].0 {
      assert c(s[0].0, s[i + 1].0) < 0;
    }
  }

  lemma TreePutToMapBelow<K(!new), V>(c: Comparator<K>, s: seq<(K, V)>, e: (K, V))
    requires IsValidComparator(c) && StrictlySorted(c, s) && s != [] && c(e.0, s[0].0) < 0
    ensures ToMap(TreePut(c, s, e)) == ToMap(s)[e.0 := e.1]
  {
    assert e.0 !in ToMap(s) by {
      BelowFirst(c, e.0, s);
      ToMapKeys(s, e.0);
    }
    ToMapCons(e, s);
  }

  lemma TreePutToMapEqual<K(!new), V>(c: Comparator<K>, s: seq<(K, V)>, e: (K, V))
    requires IsValidComparator(c) && StrictlySorted(c, s) && s != [] && c(e.0, s[0].0) == 0
    ensures ToMap(TreePut(c, s, e)) == ToMap(s)[e.0 := e.1]
  {
    var x, t := s[0], s[1..];
    assert s == [x] + t;
    FirstKeyFresh(c, s);
    ToMapCons(x, t);
    ToMapCons((x.0, e.1), t);
  }

  /** `put` sets the key's value and touches no other key. */
  lemma {:induction false} TreePutToMap<K(!new), V>(c: Comparator<K>, s: seq<(K, V)>, e: (K, V))
    requires IsValidComparator(c) && StrictlySorted(c, s)
    ensures ToMap(TreePut(c, s, e)) == ToMap(s)[e.0 := e.1]
  {
    if s == [] {
    } else if c(e.0, s[0].0) < 0 {
      TreePutToMapBelow(c, s, e);
    } else if c(e.0, s[0].0) == 0 {
      TreePutToMapEqual(c, s, e);
    } else {
      var x, t := s[0], s[1..];
      assert s == [x] + t;
      TreePutToMap(c, t, e);
      FirstKeyFresh(c, s);
      assert TreePut(c, s, e) == [x] + TreePut(c, t, e);
      ToMapCons(x, t);
      ToMapCons(x, TreePut(c, t, e));
      MapUpdateUnion(map[x.0 := x.1], ToMap(t), e.0, e.1);
    }
  }

  /** A key absent from a sequence is absent from its tail. */
  lemma AbsentFromTail<K, V>(s: seq<(K, V)>, k: K)
    requires s != [] && k !in ToMap(s)
    ensures k !in ToMap(s[1..]) && k != s[0].0
  {
    ToMapKeys(s, k);
    ToMapKeys(s[1..], k);
    assert Keys(s) == [s[0].0] + Keys(s[1..]);
  }

  /** A key not yet in the tree adds exactly its pair. */
  lemma {:induction false} TreePutNew<K(!new), V>(c: Comparator<K>, s: seq<(K, V)>, e: (K, V))
    requires IsValidComparator(c) && e.0 !in ToMap(s)
    ensures multiset(TreePut(c, s, e)) == multiset(s) + multiset{e}
  {
    if s != [] {
      AbsentFromTail(s, e.0);
      assert s == [s[0]] + s[1..];
      if c(e.0, s[0].0) > 0 {
        TreePutNew(c, s[1..], e);
        assert TreePut(c, s, e) == [s[0]] + TreePut(c, s[1..], e);
      }
    }
  }

  /** Strictly ascending keys are distinct keys. */
  lemma SortedUniqueKeys<K(!new), V>(c: Comparator<K>, s: seq<(K, V)>)
    requires IsValidComparator(c) && StrictlySorted(c, s)
    ensures UniqueKeys(s)
  {
  }

  /** The tree is sorted and holds what copying the entries into a map holds. */
  lemma {:induction false} TreeOfSorted<K(!new), V>(c: Comparator<K>, entries: seq<(K, V)>)
    requires IsValidComparator(c)
    ensures StrictlySorted(c, TreeOf(c, entries))
    ensures ToMap(TreeOf(c, entries)) == ToMap(entries)
  {
    if entries != [] {
      var n := |entries| - 1;
      TreeOfSorted(c, entries[..n]);
      TreePutSorted(c, TreeOf(c, entries[..n]), entries[n]);
      TreePutToMap(c, TreeOf(c, entries[..n]), entries[n]);
    }
  }

  /** Built from entries with distinct keys, the tree is a permutation of them. */
  lemma {:induction false} TreeOfPermutation<K(!new), V>(c: Comparator<K>, entries: seq<(K, V)>)
    requires IsValidComparator(c) && UniqueKeys(entries)
    ensures multiset(TreeOf(c, entries)) == multiset(entries)
  {
    if entries != [] {
      var n := |entries| - 1;
      var before, e := entries[..n], entries[n];
      assert UniqueKeys(before);
      TreeOfPermutation(c, before);
      var t := TreeOf(c, before);
      assert TreeOf(c, entries) == TreePut(c, t, e);
      TreeOfSorted(c, before);
      assert e.0 !in ToMap(before) by {
        ToMapKeys(before, e.0);
        forall i | 0 <= i < n ensures Keys(before)[i] != e.0 {
          assert Keys(before)[i] == entries[i].0;
        }
      }
      TreePutNew(c, t, e);
      assert entries == before + [e];
    }
  }

  lemma SortedTail<K, V>(c: Comparator<K>, s: seq<(K, V)>)
    requires StrictlySorted(c, s) && s != []
    ensures StrictlySorted(c, s[1..])
  {
    forall i, j | 0 <= i < j < |s| - 1 ensures Less(c, s[1..][i].0, s[1..][j].0) {
      assert s[1..][i] == s[i + 1] && s[1..][j] == s[j + 1];
    }
  }

  /** Sorted sequences holding the same pairs start with the same pair. */
  lemma SortedSameFirst<K(!new), V>(c: Comparator<K>, a: seq<(K, V)>, b: seq<(K, V)>)
    requires IsValidComparator(c) && StrictlySorted(c, a) && StrictlySorted(c, b)
    requires multiset(a) == multiset(b) && a != []
    ensures b != [] && a[0] == b[0]
  {
    assert a[0] in multiset(b);
    var j :| 0 <= j < |b| && b[j] == a[0];
    assert b[0] in multiset(a);
    var i :| 0 <= i < |a| && a[i] == b[0];
  }

  /**
   * Two sequences sorted strictly by key under the same valid comparator
   * and holding the same pairs are equal: there is one sorted order.
   */
  lemma {:induction false} SortedIsUnique<K(!new), V>(c: Comparator<K>, a: seq<(K, V)>, b: seq<(K, V)>)
    requires IsValidComparator(c) && StrictlySorted(c, a) && StrictlySorted(c, b)
    requires multiset(a) == multiset(b)
    ensures a == b
  {
    if a == [] {
      assert |multiset(b)| == |b|;
    } else {
      SortedSameFirst(c, a, b);
      var x := a[0];
      assert a == [x] + a[1..] && b == [x] + b[1..];
      assert multiset(a[1..]) == multiset(a) - multiset{x};
      assert multiset(b[1..]) == multiset(b) - multiset{x};
      SortedTail(c, a);
      SortedTail(c, b);
      SortedIsUnique(c, a[1..], b[1..]);
    }
  }
}
