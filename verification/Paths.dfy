/** Paths through an arbitrary edge relation. */
module Paths {
  ghost predicate IsPath<N>(edge: (N, N) -> bool, h: seq<N>) {
    |h| > 0 && forall i :: 0 < i < |h| ==> edge(h[i-1], h[i])
  }

  /** If every edge from outside a region comes from one gate node, then a path inside the
      region has passed the gate and has not left the region since its last visit there. */
  lemma {:induction false} LastEntry<N(!new)>(edge: (N, N) -> bool, h: seq<N>, region: N -> bool, gate: N, j: nat)
      returns (p: nat)
    requires IsPath(edge, h) && j < |h| && region(h[j]) && !region(h[0])
    requires forall a, b :: edge(a, b) && region(b) && !region(a) ==> a == gate
    ensures p < j && h[p] == gate && forall k :: p < k <= j ==> region(h[k])
  {
    assert edge(h[j-1], h[j]);
    if region(h[j-1]) {
      p := LastEntry(edge, h, region, gate, j - 1);
    } else {
      p := j - 1;
    }
  }

  /** A region without outgoing edges is never left. */
  lemma {:induction false} NeverLeft<N(!new)>(edge: (N, N) -> bool, h: seq<N>, region: N -> bool, i: nat, j: nat)
    requires IsPath(edge, h) && i <= j < |h| && region(h[i])
    requires forall a, b :: edge(a, b) && region(a) ==> region(b)
    ensures region(h[j])
  {
    if i < j {
      NeverLeft(edge, h, region, i, j - 1);
      assert edge(h[j-1], h[j]);
    }
  }
}
