/**
 * Java's `Comparator<K>`: `compare(a, b)` is negative, zero or positive as `a`
 * sorts before, together with, or after `b`.
 */
module Comparators {

  type Comparator<!K> = (K, K) -> int

  /** `a` sorts strictly before `b` under `c`. */
  predicate Less<K>(c: Comparator<K>, a: K, b: K) {
    c(a, b) < 0
  }

  /**
   * The contract of `Comparator.compare`, strengthened to consistency with
   * equality: zero exactly on equal keys, the sign flips when the arguments
   * are swapped, and "sorts before" is transitive.
   */
  ghost predicate IsValidComparator<K(!new)>(c: Comparator<K>) {
    && (forall a, b :: c(a, b) == 0 <==> a == b)
    && (forall a, b :: c(a, b) < 0 <==> c(b, a) > 0)
    && (forall a, b, d :: Less(c, a, b) && Less(c, b, d) ==> Less(c, a, d))
  }

  /** `Collections.reverseOrder(c)`: compares with the arguments swapped. */
  function Reverse<K>(c: Comparator<K>): Comparator<K> {
    (a, b) => c(b, a)
  }

  lemma ReverseValid<K(!new)>(c: Comparator<K>)
    requires IsValidComparator(c)
    ensures IsValidComparator(Reverse(c))
    ensures forall a, b :: Less(Reverse(c), a, b) <==> Less(c, b, a)
  {
    forall a, b, d | Less(Reverse(c), a, b) && Less(Reverse(c), b, d)
      ensures Less(Reverse(c), a, d)
    {
      assert Less(c, d, b) && Less(c, b, a);
    }
  }

  /**
   * `String.compareTo`: the difference of the first differing characters,
   * or else the difference of the lengths.
   */
  function CompareStrings(a: string, b: string): int
    decreases |a|
  {
    if a == [] || b == [] then |a| - |b|
    else if a[0] != b[0] then a[0] as int - b[0] as int
    else CompareStrings(a[1..], b[1..])
  }

  lemma {:induction false} CompareStringsZero(a: string, b: string)
    ensures CompareStrings(a, b) == 0 <==> a == b
  {
    if a != [] && b != [] && a[0] == b[0] {
      CompareStringsZero(a[1..], b[1..]);
      assert a == [a[0]] + a[1..] && b == [b[0]] + b[1..];
    }
  }

  lemma {:induction false} CompareStringsSwap(a: string, b: string)
    ensures CompareStrings(a, b) == -CompareStrings(b, a)
  {
    if a != [] && b != [] && a[0] == b[0] {
      CompareStringsSwap(a[1..], b[1..]);
    }
  }

  lemma {:induction false} CompareStringsTransitive(a: string, b: string, d: string)
    requires CompareStrings(a, b) < 0 && CompareStrings(b, d) < 0
    ensures CompareStrings(a, d) < 0
  {
    if a != [] && b != [] && d != [] && a[0] == b[0] && b[0] == d[0] {
      CompareStringsTransitive(a[1..], b[1..], d[1..]);
    }
  }

  /** `String.compareTo` is a valid comparator, consistent with equality. */
  lemma CompareStringsValid()
    ensures IsValidComparator(CompareStrings)
  {
    forall a: string, b: string ensures CompareStrings(a, b) == 0 <==> a == b {
      CompareStringsZero(a, b);
    }
    forall a: string, b: string ensures CompareStrings(a, b) < 0 <==> CompareStrings(b, a) > 0 {
      CompareStringsSwap(a, b);
    }
    forall a: string, b: string, d: string | Less(CompareStrings, a, b) && Less(CompareStrings, b, d)
      ensures Less(CompareStrings, a, d)
    {
      CompareStringsTransitive(a, b, d);
    }
  }
}
