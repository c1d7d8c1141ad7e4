/** Witnesses for sets and maps: an element of a non-empty set, a key on which two maps differ. */
module Collections {

  lemma Member<T>(s: set<T>) returns (x: T)
    requires s != {}
    ensures x in s
  {
    x :| x in s;
  }

  lemma Difference<T>(a: set<T>, b: set<T>) returns (x: T)
    requires a != b
    ensures x in a <==> x !in b
  {
    if !(a <= b) { x :| x in a && x !in b; } else { x :| x in b && x !in a; }
  }

  lemma MapDifference<K, V>(a: map<K, V>, b: map<K, V>) returns (k: K)
    requires a != b
    ensures (k in a <==> k !in b) || (k in a && k in b && a[k] != b[k])
  {
    if a.Keys != b.Keys { k := Difference(a.Keys, b.Keys); } else { k :| k in a && a[k] != b[k]; }
  }

  lemma SubsetCount<T>(a: set<T>, b: set<T>)
    requires a <= b
    ensures |a| <= |b|
  {
    assert b == a + (b - a);
  }
}
