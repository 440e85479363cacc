// What a client resolves a path from: the header, the internal nodes and the leaf chain.
// The hot path never changes it.
module Structure {
  import opened Base
  import opened NodeViews
  import opened Shapes
  import opened Engine

  ghost predicate SameNode(v: NodeView, w: NodeView) {
    if v.Leaf? then w.Leaf? && w.next == v.next else w == v
  }

  ghost predicate SameNodes(a: Store, b: Store) {
    a.Keys == b.Keys && forall x | x in a :: SameNode(a[x], b[x])
  }

  // Only the entries of leaves may differ.
  ghost predicate SameStructure(a: State, b: State) {
    SameNodes(a.nodes, b.nodes) && b == a.(nodes := b.nodes)
  }

  // No node is past its slots at rest.
  ghost predicate Roomy(s: State) {
    forall x | x in s.nodes :: Count(s.nodes[x]) <= s.fanout + 1
  }

  lemma SameTrans(a: State, b: State, c: State)
    requires SameStructure(a, b) && SameStructure(b, c)
    ensures SameStructure(a, c)
  {
    forall x | x in a.nodes ensures SameNode(a.nodes[x], c.nodes[x]) {
      assert x in b.nodes.Keys;
      assert SameNode(a.nodes[x], b.nodes[x]) && SameNode(b.nodes[x], c.nodes[x]);
    }
  }

  // A walk from the root gives the same answer, and the same error, on the same structure.
  lemma {:induction false} DescendSame(a: State, b: State, path: seq<nat>, key: Key, lvl: nat, want: nat)
    requires lvl < |path| && AllShaped(a.nodes) && AllShaped(b.nodes)
    requires SameStructure(a, b) && Roomy(a) && Roomy(b)
    ensures Descend(a, path, key, lvl, want) == Descend(b, path, key, lvl, want)
    decreases |path| - lvl
  {
    assert path[lvl] in a.nodes.Keys <==> path[lvl] in b.nodes.Keys;
    if path[lvl] in a.nodes {
      var v := a.nodes[path[lvl]];
      assert SameNode(v, b.nodes[path[lvl]]);
      if v.Inner? && lvl < |path| - 1 {
        DescendSame(a, b, path, key, lvl + 1, v.kids[Route(v.keys, key)]);
      }
    }
  }

  lemma {:induction false} DescendLeftmostSame(a: State, b: State, path: seq<nat>, lvl: nat, want: nat)
    requires lvl < |path| && AllShaped(a.nodes) && AllShaped(b.nodes)
    requires SameStructure(a, b) && Roomy(a) && Roomy(b)
    ensures DescendLeftmost(a, path, lvl, want) == DescendLeftmost(b, path, lvl, want)
    decreases |path| - lvl
  {
    assert path[lvl] in a.nodes.Keys <==> path[lvl] in b.nodes.Keys;
    if path[lvl] in a.nodes {
      var v := a.nodes[path[lvl]];
      assert SameNode(v, b.nodes[path[lvl]]);
      if v.Inner? && lvl < |path| - 1 {
        DescendLeftmostSame(a, b, path, lvl + 1, v.kids[0]);
      }
    }
  }

  lemma FastLeafSame(a: State, b: State, path: seq<nat>, key: Key)
    requires AllShaped(a.nodes) && AllShaped(b.nodes)
    requires SameStructure(a, b) && Roomy(a) && Roomy(b)
    ensures FastLeaf(a, path, key) == FastLeaf(b, path, key)
  {
    if |path| > 0 && |path| == a.height {
      DescendSame(a, b, path, key, 0, a.root);
    }
  }

  // One leaf rewritten in place.
  lemma LeafRewritten(s: State, leaf: nat, es: seq<Entry>)
    requires leaf in s.nodes && s.nodes[leaf].Leaf? && Roomy(s) && |es| <= s.fanout + 1 && AllShaped(s.nodes)
    ensures var s' := s.Set(leaf, Leaf(es, s.nodes[leaf].next));
            SameStructure(s, s') && Roomy(s') && AllShaped(s'.nodes)
  {
    var s' := s.Set(leaf, Leaf(es, s.nodes[leaf].next));
    assert s'.nodes.Keys == s.nodes.Keys;
  }

  lemma Reflexive(s: State)
    ensures SameStructure(s, s)
  {
  }
}
