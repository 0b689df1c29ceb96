/**
 * The builder's staging area, a `LinkedHashMap`: a sequence of key/value
 * pairs in insertion order, keys unique.
 */
module Entries {

  /** The keys of `s`, in order. */
  function Keys<K, V>(s: seq<(K, V)>): seq<K> {
    seq(|s|, i requires 0 <= i < |s| => s[i].0)
  }

  ghost predicate UniqueKeys<K, V>(s: seq<(K, V)>) {
    forall i, j :: 0 <= i < j < |s| ==> s[i].0 != s[j].0
  }

  lemma KeysSnoc<K, V>(s: seq<(K, V)>, e: (K, V))
    ensures Keys(s + [e]) == Keys(s) + [e.0]
  {
  }

  /**
   * The dictionary that copying `s` pair by pair into an empty map yields
   * (a later pair overrides an earlier one with the same key).
   */
  function ToMap<K, V>(s: seq<(K, V)>): map<K, V> {
    if s == [] then map[] else ToMap(s[..|s| - 1])[s[|s| - 1].0 := s[|s| - 1].1]
  }

  /** The position of the pair holding `k`, or `|s|` when there is none. */
  function FindKey<K(==), V>(s: seq<(K, V)>, k: K): (i: nat)
    ensures i <= |s|
    ensures i < |s| ==> s[i].0 == k
    ensures forall j :: 0 <= j < i ==> s[j].0 != k
  {
    if s == [] then 0
    else if s[0].0 == k then 0
    else 1 + FindKey(s[1..], k)
  }

  /**
   * `LinkedHashMap.put`: a key already present keeps its position and takes
   * the new value; a new key goes to the end.
   */
  function PutEntry<K(==), V>(s: seq<(K, V)>, k: K, v: V): seq<(K, V)> {
    var i := FindKey(s, k);
    if i < |s| then s[i := (k, v)] else s + [(k, v)]
  }

  /** `put` appends a new key and leaves the key order alone otherwise. */
  lemma PutEntryKeys<K, V>(s: seq<(K, V)>, k: K, v: V)
    ensures Keys(PutEntry(s, k, v)) == if k in Keys(s) then Keys(s) else Keys(s) + [k]
  {
    var i := FindKey(s, k);
    if i < |s| {
      assert Keys(s)[i] == k;
      assert Keys(PutEntry(s, k, v)) == Keys(s);
    } else {
      assert k !in Keys(s);
      KeysSnoc(s, (k, v));
    }
  }

  /** `put` keeps the staged keys unique. */
  lemma PutEntryUnique<K, V>(s: seq<(K, V)>, k: K, v: V)
    requires UniqueKeys(s)
    ensures UniqueKeys(PutEntry(s, k, v))
  {
    var r := PutEntry(s, k, v);
    PutEntryKeys(s, k, v);
    forall i, j | 0 <= i < j < |r| ensures r[i].0 != r[j].0 {
      assert Keys(r)[i] == r[i].0 && Keys(r)[j] == r[j].0;
      if j < |s| {
        assert Keys(s)[i] == s[i].0 && Keys(s)[j] == s[j].0;
      } else {
        assert Keys(s)[i] == s[i].0;
      }
    }
  }

  /** A key is in the copied dictionary exactly when some pair carries it. */
  lemma {:induction false} ToMapKeys<K, V>(s: seq<(K, V)>, k: K)
    ensures k in ToMap(s) <==> k in Keys(s)
  {
    if s != [] {
      var n := |s| - 1;
      ToMapKeys(s[..n], k);
      assert s == s[..n] + [s[n]];
      KeysSnoc(s[..n], s[n]);
    }
  }

  /** Copying a concatenation is copying both parts, the second overriding. */
  lemma {:induction false} ToMapAppend<K, V>(a: seq<(K, V)>, b: seq<(K, V)>)
    ensures ToMap(a + b) == ToMap(a) + ToMap(b)
  {
    if b == [] {
      assert a + b == a;
    } else {
      var n := |b| - 1;
      ToMapAppend(a, b[..n]);
      assert (a + b)[..|a + b| - 1] == a + b[..n];
      assert (a + b)[|a + b| - 1] == b[n];
    }
  }

  /** Replacing the value of one pair sets that key's value in the copy. */
  lemma {:induction false} ToMapUpdate<K, V>(s: seq<(K, V)>, i: nat, v: V)
    requires UniqueKeys(s) && i < |s|
    ensures ToMap(s[i := (s[i].0, v)]) == ToMap(s)[s[i].0 := v]
  {
    var n := |s| - 1;
    var t := s[i := (s[i].0, v)];
    assert t[..n] == if i == n then s[..n] else s[..n][i := (s[i].0, v)];
    if i < n {
      ToMapUpdate(s[..n], i, v);
      assert s[n].0 != s[i].0;
    }
  }

  /** `put` on a staging area with unique keys sets exactly that key's value. */
  lemma PutEntryToMap<K, V>(s: seq<(K, V)>, k: K, v: V)
    requires UniqueKeys(s)
    ensures ToMap(PutEntry(s, k, v)) == ToMap(s)[k := v]
  {
    var i := FindKey(s, k);
    if i < |s| {
      ToMapUpdate(s, i, v);
    } else {
      assert (s + [(k, v)])[..|s|] == s;
    }
  }

  /** The staging area after the given `put` calls, in call order, from `s`. */
  function PutAll<K(==), V>(s: seq<(K, V)>, puts: seq<(K, V)>): seq<(K, V)> {
    if puts == [] then s
    else
      var n := |puts| - 1;
      PutEntry(PutAll(s, puts[..n]), puts[n].0, puts[n].1)
  }

  /** Each key of `ks` once, at the position where it first appears. */
  function FirstOccurrences<K(==)>(ks: seq<K>): seq<K> {
    if ks == [] then []
    else
      var n := |ks| - 1;
      var d := FirstOccurrences(ks[..n]);
      if ks[n] in d then d else d + [ks[n]]
  }

  lemma {:induction false} FirstOccurrencesMember<K>(ks: seq<K>, k: K)
    ensures k in FirstOccurrences(ks) <==> k in ks
  {
    if ks != [] {
      var n := |ks| - 1;
      FirstOccurrencesMember(ks[..n], k);
      assert ks == ks[..n] + [ks[n]];
    }
  }

  lemma {:induction false} PutAllUnique<K, V>(puts: seq<(K, V)>)
    ensures UniqueKeys(PutAll([], puts))
  {
    if puts != [] {
      var n := |puts| - 1;
      PutAllUnique(puts[..n]);
      PutEntryUnique(PutAll([], puts[..n]), puts[n].0, puts[n].1);
    }
  }

  /**
   * A run of `put` calls on an empty builder stages each key once, at the
   * position of its first `put` ...
   */
  lemma {:induction false} PutAllKeys<K, V>(puts: seq<(K, V)>)
    ensures Keys(PutAll([], puts)) == FirstOccurrences(Keys(puts))
  {
    if puts != [] {
      var n := |puts| - 1;
      var before := PutAll([], puts[..n]);
      PutAllKeys(puts[..n]);
      var k, ks := puts[n].0, Keys(puts);
      assert ks[..n] == Keys(puts[..n]);
      var d := FirstOccurrences(ks[..n]);
      assert d == Keys(before);
      assert FirstOccurrences(ks) == if k in d then d else d + [k];
      assert PutAll([], puts) == PutEntry(before, k, puts[n].1);
      PutEntryKeys(before, k, puts[n].1);
    }
  }

  /** ... with the value of its last `put`. */
  lemma {:induction false} PutAllValues<K, V>(puts: seq<(K, V)>)
    ensures ToMap(PutAll([], puts)) == ToMap(puts)
  {
    if puts != [] {
      var n := |puts| - 1;
      PutAllValues(puts[..n]);
      PutAllUnique(puts[..n]);
      PutEntryToMap(PutAll([], puts[..n]), puts[n].0, puts[n].1);
    }
  }
}
