// What the in-place code needs of a node: sorted contents within its slots.
module Tidy {
  import opened Base
  import opened NodeViews
  import opened Shapes
  import opened Engine
  import opened Represent
  import opened MapModel

  ghost predicate TidyNode(v: NodeView, fanout: nat) {
    && Shaped(v) && Count(v) <= fanout
    && match v
       case Leaf(es, _) => EntriesIn(es, 0, KEY_LIMIT)
       case Inner(keys, _) => Ascending(keys)
  }

  ghost predicate TidyState(s: State) {
    forall x | x in s.nodes :: TidyNode(s.nodes[x], s.fanout)
  }

  lemma TidyShaped(s: State)
    requires TidyState(s)
    ensures AllShaped(s.nodes)
  {
  }

  lemma EntriesAscend(es: seq<Entry>, lo: int, hi: int)
    requires EntriesIn(es, lo, hi)
    ensures Ascending(KeysOf(es))
  {
  }

  lemma {:induction false} TidyTree(st: Store, t: Tree, h: nat, lo: int, hi: int, c: Occ)
    requires Rep(st, t) && WFNode(t, h, lo, hi, c) && 0 <= lo && hi <= KEY_LIMIT
    ensures forall x | x in Ids(t) :: x in st && TidyNode(st[x], c.fanout)
    decreases t, 1
  {
    if t.TNode? {
      WFKidsSorted(t.keys, t.kids, h - 1, lo, hi, c);
      TidyTrees(st, t.keys, t.kids, h - 1, lo, hi, c);
    }
  }

  lemma {:induction false} TidyTrees(st: Store, keys: seq<Key>, kids: seq<Tree>, h: nat, lo: int, hi: int, c: Occ)
    requires RepAll(st, kids) && WFKids(keys, kids, h, lo, hi, c) && 0 <= lo && hi <= KEY_LIMIT
    ensures |kids| == |keys| + 1
    ensures forall x | x in IdsOf(kids) :: x in st && TidyNode(st[x], c.fanout)
    decreases kids, 0
  {
    if |keys| == 0 {
      TidyTree(st, kids[0], h, lo, hi, c);
      assert kids == [kids[0]];
      FlattenOne(kids[0]);
    } else {
      TidyTree(st, kids[0], h, lo, keys[0], c);
      TidyTrees(st, keys[1..], kids[1..], h, keys[0], hi, c);
    }
  }

  lemma ValidTidy(s: State)
    requires Valid(s)
    ensures TidyState(s) && AllShaped(s.nodes)
  {
    if s.height > 0 {
      var t := TreeOf(s);
      TidyTree(s.nodes, t, s.height, 0, KEY_LIMIT, Occ(s.fanout, 0));
      hide TidyNode, Rep, WFNode, Chain;
      forall x | x in s.nodes ensures x in Ids(t) {
        assert x in multiset(s.nodes.Keys);
      }
    }
    TidyShaped(s);
  }
}
