/** Small facts about finite collections. */
module Collections {

  function Members<T(==, !new)>(s: seq<T>): (members: set<T>)
    ensures forall x :: x in members <==> x in s
  {
    set x | x in s
  }

  lemma SubsetIsSmaller<T>(a: set<T>, b: set<T>)
    requires a <= b
    ensures |a| <= |b|
  {
    assert b == a + (b - a);
  }
}
