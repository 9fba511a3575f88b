/**
 * The equality comparators a controller uses to decide whether a newly
 * projected value counts as a change (src/select-state.ts,
 * src/select-controller.ts and src/selector-controller.ts).
 *
 * JavaScript's `===` is modelled as Dafny equality on the value type;
 * arrays are sequences and plain objects are maps from their own keys.
 */
module Comparators {

  /** `defaultCompare`: the two values are `===`. */
  predicate DefaultCompare<V(==)>(a: V, b: V)
  {
    a == b
  }

  /**
   * `compareArrays`: equal lengths, and `a.every((value, idx) => value === b[idx])`.
   * The `&&` short-circuits, so the walk only happens at equal lengths.
   */
  predicate CompareArrays<V(==)>(a: seq<V>, b: seq<V>)
  {
    |a| == |b| && EveryFrom(a, b, 0)
  }

  /** The walk of `Array.prototype.every` over `a`, starting at index `idx`. */
  predicate EveryFrom<V(==)>(a: seq<V>, b: seq<V>, idx: nat)
    requires |a| == |b| && idx <= |a|
    decreases |a| - idx
  {
    idx == |a| || (DefaultCompare(a[idx], b[idx]) && EveryFrom(a, b, idx + 1))
  }

  /**
   * `compareObjects`: the own-key counts agree, and every own key of `o1`
   * is an own key of `o2` whose value is `===` to the one in `o1`.
   */
  predicate CompareObjects<V(==)>(o1: map<string, V>, o2: map<string, V>)
  {
    && |o1.Keys| == |o2.Keys|
    && forall key | key in o1.Keys :: key in o2 && DefaultCompare(o1[key], o2[key])
  }

  /** The walk from `idx` succeeds exactly when the suffixes agree elementwise. */
  lemma {:induction false} EveryFromIff<V>(a: seq<V>, b: seq<V>, idx: nat)
    requires |a| == |b| && idx <= |a|
    ensures EveryFrom(a, b, idx) <==> forall j | idx <= j < |a| :: a[j] == b[j]
    decreases |a| - idx
  {
    if idx < |a| {
      EveryFromIff(a, b, idx + 1);
    }
  }

  /** `compareArrays` holds iff the lengths agree and the elements agree index by index. */
  lemma CompareArraysIff<V>(a: seq<V>, b: seq<V>)
    ensures CompareArrays(a, b) <==> |a| == |b| && forall i | 0 <= i < |a| :: a[i] == b[i]
  {
    if |a| == |b| {
      EveryFromIff(a, b, 0);
    }
  }

  /** `compareArrays` is exactly sequence equality. */
  lemma CompareArraysIsEquality<V>(a: seq<V>, b: seq<V>)
    ensures CompareArrays(a, b) <==> a == b
  {
    CompareArraysIff(a, b);
  }

  /** Arrays of different lengths never compare equal, whatever their elements. */
  lemma CompareArraysLengthMismatch<V>(a: seq<V>, b: seq<V>)
    requires |a| != |b|
    ensures !CompareArrays(a, b)
  {
  }

  /** `compareArrays` is symmetric. */
  lemma CompareArraysSymmetric<V>(a: seq<V>, b: seq<V>)
    ensures CompareArrays(a, b) == CompareArrays(b, a)
  {
    CompareArraysIsEquality(a, b);
    CompareArraysIsEquality(b, a);
  }

  /** A subset of a finite set with as many elements is the whole set. */
  lemma SubsetOfSameSize<K>(small: set<K>, big: set<K>)
    requires small <= big && |small| == |big|
    ensures small == big
  {
    assert |big - small| == |big| - |small|;
  }

  /**
   * `compareObjects` is exactly map equality: equal key counts plus key
   * containment force the key sets to coincide.
   */
  lemma CompareObjectsIsEquality<V>(o1: map<string, V>, o2: map<string, V>)
    ensures CompareObjects(o1, o2) <==> o1 == o2
  {
    if CompareObjects(o1, o2) {
      assert o1.Keys <= o2.Keys;
      SubsetOfSameSize(o1.Keys, o2.Keys);
      assert forall key | key in o2 :: key in o1 && o1[key] == o2[key];
    }
  }

  /** `compareObjects` is symmetric. */
  lemma CompareObjectsSymmetric<V>(o1: map<string, V>, o2: map<string, V>)
    ensures CompareObjects(o1, o2) == CompareObjects(o2, o1)
  {
    CompareObjectsIsEquality(o1, o2);
    CompareObjectsIsEquality(o2, o1);
  }

  /** `compareObjects` fails as soon as one own key of `o1` is missing from `o2`. */
  lemma CompareObjectsMissingKey<V>(o1: map<string, V>, o2: map<string, V>, key: string)
    requires key in o1 && key !in o2
    ensures !CompareObjects(o1, o2)
  {
  }

  /** The comparator examples: `[1,2,3]` = `[1,2,3]`, `[1,2]` ≠ `[1,2,3]`, `{a:1,b:2}` = `{a:1,b:2}`, `{a:1}` ≠ `{a:1,b:2}`. */
  lemma ComparatorExamples()
    ensures CompareArrays([1, 2, 3], [1, 2, 3])
    ensures !CompareArrays([1, 2], [1, 2, 3])
    ensures CompareObjects(map["a" := 1, "b" := 2], map["a" := 1, "b" := 2])
    ensures !CompareObjects(map["a" := 1], map["a" := 1, "b" := 2])
  {
    CompareArraysIsEquality([1, 2, 3], [1, 2, 3]);
    CompareObjectsIsEquality(map["a" := 1, "b" := 2], map["a" := 1, "b" := 2]);
    CompareObjectsIsEquality(map["a" := 1], map["a" := 1, "b" := 2]);
    assert map["a" := 1] != map["a" := 1, "b" := 2] by {
      assert "b" !in map["a" := 1];
    }
  }
}
