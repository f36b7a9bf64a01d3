/** Facts about how many keys a map has, stated for any key type. */
module Counting {
  /** A map whose keys are those of `a` plus one key `a` lacks has one key more. */
  lemma AddsOneKey<K, V, W>(a: map<K, V>, b: map<K, W>, k: K)
    requires k !in a
    requires forall x :: x in b <==> x in a || x == k
    ensures |b| == |a| + 1
  {
    assert b.Keys == a.Keys + {k};
  }

  /** Two maps with the same keys have as many keys. */
  lemma SameKeys<K, V, W>(a: map<K, V>, b: map<K, W>)
    requires forall x :: x in b <==> x in a
    ensures |b| == |a|
  {
    assert b.Keys == a.Keys;
  }
}
