/** Counting the members of sets of indices. */
module Counts {

  function One(b: bool): nat {
    if b then 1 else 0
  }

  lemma SubsetBound(a: set<nat>, b: set<nat>)
    requires a <= b
    ensures |a| <= |b|
  {
    assert b == a + (b - a);
  }

  lemma DiffersAt(a: set<nat>, b: set<nat>, i: nat)
    requires forall j | j != i :: j in a <==> j in b
    ensures |b| + One(i in a) == |a| + One(i in b)
  {
    if i in a && i !in b {
      assert a == b + {i};
    } else if i in b && i !in a {
      assert b == a + {i};
    } else {
      assert a == b;
    }
  }
}
