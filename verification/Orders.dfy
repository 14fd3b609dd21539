// Visiting orders: a Go map is ranged over in any order, each key once.
module Orders {
  import opened Arith

  ghost predicate Distinct(order: seq<U32>) {
    forall i, j :: 0 <= i < j < |order| ==> order[i] != order[j]
  }

  // order visits every member of pids exactly once.
  ghost predicate Listing(order: seq<U32>, pids: set<U32>) {
    Distinct(order) && forall p :: p in pids <==> p in order
  }

  lemma ListingAppend(order: seq<U32>, pids: set<U32>, pid: U32)
    requires Listing(order, pids) && pid !in pids
    ensures Listing(order + [pid], pids + {pid})
  {
  }

  lemma DistinctInit(order: seq<U32>, pid: U32)
    requires order != [] && Distinct(order)
    ensures var init, last := order[..|order| - 1], order[|order| - 1];
            Distinct(init) && last !in init && (pid in order <==> pid in init || pid == last)
  {
  }

  lemma SubsetSize<T>(a: set<T>, b: set<T>)
    requires a <= b
    ensures |a| <= |b|
  {
    assert b == a + (b - a);
  }
}
