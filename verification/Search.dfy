// The unique search path of a key, and what the engine's descent accepts.
module Search {
  import opened Base
  import opened NodeViews
  import opened Shapes
  import opened Engine
  import opened Represent

  // The child a key is routed to covers the key's range.
  lemma RouteRange(keys: seq<Key>, kids: seq<Tree>, key: Key, h: nat, lo: int, hi: int, c: Occ)
    requires WFKids(keys, kids, h, lo, hi, c)
    requires lo <= key < hi
    ensures |kids| == |keys| + 1
    ensures LoAt(keys, lo, Route(keys, key)) <= key < HiAt(keys, hi, Route(keys, key))
  {
    WFKidsSorted(keys, kids, h, lo, hi, c);
  }

  // Where the separator of a split child belongs.
  lemma SepPosition(keys: seq<Key>, kids: seq<Tree>, sep: Key, j: nat, h: nat, lo: int, hi: int, c: Occ)
    requires WFKids(keys, kids, h, lo, hi, c)
    requires j <= |keys| && LoAt(keys, lo, j) < sep < HiAt(keys, hi, j)
    ensures LowerBound(keys, sep) == j
  {
    WFKidsSorted(keys, kids, h, lo, hi, c);
  }

  ghost function KidFor(t: Tree, key: Key): Tree
    requires t.TNode? && |t.kids| == |t.keys| + 1
  {
    t.kids[Route(t.keys, key)]
  }

  // Node indices from the root of `t` down to the leaf that covers `key`.
  ghost function PathIn(t: Tree, key: Key): seq<nat>
    decreases t
  {
    if t.TLeaf? || |t.kids| != |t.keys| + 1 then [t.idx] else [t.idx] + PathIn(KidFor(t, key), key)
  }

  // The leaf that covers `key`.
  ghost function LeafFor(t: Tree, key: Key): Tree
    decreases t
  {
    if t.TLeaf? || |t.kids| != |t.keys| + 1 then t else LeafFor(KidFor(t, key), key)
  }

  lemma {:induction false} PathLength(t: Tree, key: Key, h: nat, lo: int, hi: int, c: Occ)
    requires WFNode(t, h, lo, hi, c)
    requires lo <= key < hi
    ensures |PathIn(t, key)| == h && PathIn(t, key)[h - 1] == LeafFor(t, key).idx
    ensures LeafFor(t, key).TLeaf?
    decreases t
  {
    if t.TNode? {
      RouteRange(t.keys, t.kids, key, h - 1, lo, hi, c);
      var j := Route(t.keys, key);
      WFKid(t.keys, t.kids, j, h - 1, lo, hi, c);
      PathLength(t.kids[j], key, h - 1, LoAt(t.keys, lo, j), HiAt(t.keys, hi, j), c);
    }
  }

  // On a well-formed subtree the descent accepts the search path and nothing else.
  lemma {:induction false} DescendIff(s: State, t: Tree, path: seq<nat>, key: Key, lvl: nat, h: nat, lo: int, hi: int, c: Occ)
    requires AllShaped(s.nodes) && Rep(s.nodes, t)
    requires WFNode(t, h, lo, hi, c) && c.fanout == s.fanout && lo <= key < hi
    requires |path| - lvl == h
    ensures Descend(s, path, key, lvl, t.idx).Ok? <==> path[lvl..] == PathIn(t, key)
    decreases t
  {
    PathLength(t, key, h, lo, hi, c);
    var p := PathIn(t, key);
    if t.TLeaf? {
      assert path[lvl..] == [path[lvl]];
    } else {
      RouteRange(t.keys, t.kids, key, h - 1, lo, hi, c);
      var j := Route(t.keys, key);
      WFKid(t.keys, t.kids, j, h - 1, lo, hi, c);
      var k := t.kids[j];
      assert Rep(s.nodes, k);
      DescendIff(s, k, path, key, lvl + 1, h - 1, LoAt(t.keys, lo, j), HiAt(t.keys, hi, j), c);
      assert path[lvl..] == [path[lvl]] + path[lvl + 1..];
      assert p == [t.idx] + PathIn(k, key);
      if path[lvl..] == p {
        assert path[lvl..][1..] == p[1..];
      }
    }
  }

  lemma {:induction false} ShapedIn(st: Store, t: Tree, h: nat, lo: int, hi: int, c: Occ)
    requires Rep(st, t) && WFNode(t, h, lo, hi, c)
    ensures forall x | x in Ids(t) :: x in st && Shaped(st[x]) && Count(st[x]) <= c.fanout
    decreases t, 1
  {
    if t.TNode? {
      ShapedInAll(st, t.keys, t.kids, h - 1, lo, hi, c);
    }
  }

  lemma {:induction false} ShapedInAll(st: Store, keys: seq<Key>, kids: seq<Tree>, h: nat, lo: int, hi: int, c: Occ)
    requires RepAll(st, kids) && WFKids(keys, kids, h, lo, hi, c)
    ensures |kids| == |keys| + 1
    ensures forall x | x in IdsOf(kids) :: x in st && Shaped(st[x]) && Count(st[x]) <= c.fanout
    decreases kids, 0
  {
    if |keys| == 0 {
      ShapedIn(st, kids[0], h, lo, hi, c);
      assert kids == [kids[0]];
      FlattenOne(kids[0]);
    } else {
      ShapedIn(st, kids[0], h, lo, keys[0], c);
      ShapedInAll(st, keys[1..], kids[1..], h, keys[0], hi, c);
    }
  }

  // No node ever overflows its slots, and child pointers match separators.
  lemma RepresentsShaped(s: State, t: Tree, lm: nat)
    requires Represents(s, t, lm)
    ensures AllShaped(s.nodes)
    ensures forall x | x in s.nodes :: Count(s.nodes[x]) <= s.fanout
  {
    ShapedIn(s.nodes, t, s.height, 0, KEY_LIMIT, Occ(s.fanout, lm));
    forall x | x in s.nodes ensures x in Ids(t) {
      assert x in multiset(s.nodes.Keys);
    }
  }
}
