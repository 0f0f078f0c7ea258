/** Being linked by identity edges: the least equivalence that contains them. */
module IdentityClusters {
  type Edge = (string, string)

  // No edge, read in either direction, leaves the set.
  predicate Closed(edges: set<Edge>, s: set<string>) {
    forall e :: e in edges ==> (e.0 in s <==> e.1 in s)
  }

  ghost predicate Linked(edges: set<Edge>, a: string, b: string) {
    forall s: set<string> :: Closed(edges, s) && a in s ==> b in s
  }

  ghost function Nodes(edges: set<Edge>): set<string> {
    (set e | e in edges :: e.0) + (set e | e in edges :: e.1)
  }

  /** The cluster of an entity: all that is linked to it. */
  ghost function Cluster(edges: set<Edge>, a: string): (c: set<string>)
    ensures a in c && Closed(edges, c)
    ensures forall b :: b in c <==> Linked(edges, a, b)
  {
    ClusterFacts(edges, a);
    set b | b in Nodes(edges) + {a} && Linked(edges, a, b)
  }

  lemma ClusterFacts(edges: set<Edge>, a: string)
    ensures var c := set b | b in Nodes(edges) + {a} && Linked(edges, a, b);
      Closed(edges, c) && forall b :: b in c <==> Linked(edges, a, b)
  {
  }

  lemma EdgeLinks(edges: set<Edge>, e: Edge, a: string)
    requires e in edges
    ensures Linked(edges, a, e.0) <==> Linked(edges, a, e.1)
  {
  }

  /** Being linked is an equivalence. */
  lemma LinkedIsEquivalence(edges: set<Edge>, a: string, b: string, c: string)
    ensures Linked(edges, a, a)
    ensures Linked(edges, a, b) ==> Linked(edges, b, a)
    ensures Linked(edges, a, b) && Linked(edges, b, c) ==> Linked(edges, a, c)
  {
    if Linked(edges, a, b) {
      // Without a in b's cluster, a's cluster minus b's would be closed, contain a and miss b.
      var rest := Cluster(edges, a) - Cluster(edges, b);
      assert Closed(edges, rest);
      assert b !in rest;
      assert a !in rest;
    }
  }

  /** Linked entities have the same cluster, and clusters that meet are equal. */
  lemma ClustersPartition(edges: set<Edge>, a: string, b: string)
    ensures Linked(edges, a, b) ==> Cluster(edges, a) == Cluster(edges, b)
    ensures Cluster(edges, a) != Cluster(edges, b) ==> Cluster(edges, a) !! Cluster(edges, b)
  {
    forall x | x in Cluster(edges, a) && x in Cluster(edges, b) ensures Cluster(edges, a) == Cluster(edges, b) {
      forall y ensures y in Cluster(edges, a) <==> y in Cluster(edges, b) {
        LinkedIsEquivalence(edges, a, x, y);
        LinkedIsEquivalence(edges, x, a, y);
        LinkedIsEquivalence(edges, b, x, y);
        LinkedIsEquivalence(edges, x, b, y);
      }
    }
    if Linked(edges, a, b) { assert b in Cluster(edges, a) && b in Cluster(edges, b); }
  }

  /** Fewer edges link less. */
  lemma LinkedMonotone(few: set<Edge>, many: set<Edge>, a: string, b: string)
    requires few <= many && Linked(few, a, b)
    ensures Linked(many, a, b)
  {
  }

  /** One more edge joins the two clusters it touches and no others. */
  lemma MergeJoinsTwo(edges: set<Edge>, p: string, q: string, a: string, b: string)
    requires Linked(edges + {(p, q)}, a, b)
    ensures Linked(edges, a, b) || (a in Cluster(edges, p) && b in Cluster(edges, q))
                                || (a in Cluster(edges, q) && b in Cluster(edges, p))
  {
    var more := edges + {(p, q)};
    var left, right := Cluster(edges, p), Cluster(edges, q);
    if a in left + right {
      assert Closed(more, left + right);
      assert b in left + right;
      LinkedIsEquivalence(edges, p, a, b);
      LinkedIsEquivalence(edges, q, a, b);
      LinkedIsEquivalence(edges, a, p, b);
      LinkedIsEquivalence(edges, a, q, b);
    } else {
      LinkedIsEquivalence(edges, a, p, p);
      LinkedIsEquivalence(edges, a, q, q);
      assert Closed(more, Cluster(edges, a));
      assert b in Cluster(edges, a);
    }
  }
}
