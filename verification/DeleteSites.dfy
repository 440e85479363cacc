// What each level of Delete's cascade finds in the accounts it touches.
module DeleteSites {
  import opened Base
  import opened NodeViews
  import opened Shapes
  import opened Engine
  import opened Represent
  import opened Search
  import opened Edits
  import opened InsertProof
  import opened InsertTheorem
  import opened DeleteProof
  import opened DeleteTheorem
  import opened MapModel
  import opened BatchTheorems

  // Node and parent are live and different; the parent and the node's siblings are still as
  // they were before the instruction, and the siblings are of the node's kind.
  ghost predicate RepairSite(s: State, d: State, node: nat, par: nat) {
    && node in d.nodes && par in d.nodes && node != par && Shaped(d.nodes[node])
    && par in s.nodes && d.nodes[par] == s.nodes[par] && d.nodes[par].Inner? && Shaped(d.nodes[par])
    && IndexOf(d.nodes[par].kids, node) < |d.nodes[par].kids|
    && forall i | 0 <= i < |d.nodes[par].kids| && i != IndexOf(d.nodes[par].kids, node) :: Sibling(s, d, d.nodes[par].kids[i], node, par)
  }

  ghost predicate Sibling(s: State, d: State, k: nat, node: nat, par: nat)
    requires node in d.nodes
  {
    && k in d.nodes && k in s.nodes && d.nodes[k] == s.nodes[k] && k != par && k != node
    && d.nodes[k].Leaf? == d.nodes[node].Leaf?
  }

  lemma KindByHeight(st: Store, t: Tree, h: nat, lo: int, hi: int, c: Occ)
    requires WFNode(t, h, lo, hi, c) && Rep(st, t)
    ensures t.idx in st && Shaped(st[t.idx]) && (st[t.idx].Leaf? <==> h == 1)
  {
    if t.TNode? {
      assert WFKids(t.keys, t.kids, h - 1, lo, hi, c);
    }
  }

  // An account outside the repaired subtree is untouched.
  lemma OutsideKept(s: State, d: Fall, k: Tree, k': Tree, e: Entry, minus: multiset<nat>, h: nat, lo: int, hi: int, c: Occ, nx: nat, x: nat)
    requires Fallen(s, d, k, k', e, minus, h, lo, hi, c, nx) && x in s.nodes && x !in Ids(k)
    ensures x in d.s.nodes && d.s.nodes[x] == s.nodes[x]
  {
    hide Flat, FallShape, FallHeader, RepAll, Chain, Ids, IdsOf, LeafIdsOf;
    FlattenOne(k);
    assert x !in IdsOf([k]) + multiset{};
  }

  lemma FallenHeld(s: State, d: Fall, k: Tree, k': Tree, e: Entry, minus: multiset<nat>, h: nat, lo: int, hi: int, c: Occ, nx: nat)
    requires Fallen(s, d, k, k', e, minus, h, lo, hi, c, nx)
    ensures Rep(d.s.nodes, k') && WFNode(k', h, lo, hi, c) && k'.idx == k.idx
  {
    assert Rep(d.s.nodes, [k'][0]);
  }

  lemma SiblingHeld(s: State, t: Tree, j: nat, i: nat, h: nat, lo: int, hi: int, c: Occ, nx: nat)
    requires Ready(s, t, h, lo, hi, c, nx) && t.TNode? && j < |t.kids| && i < |t.kids| && i != j
    ensures var k := t.kids[i].idx;
            k in s.nodes && k !in Ids(t.kids[j]) && k != t.idx && (s.nodes[k].Leaf? <==> h == 2) && k != t.kids[j].idx
  {
    hide Ready, Chain, LeafIds, Ids, IdsOf, WFNode, Rep, NoDup;
    ReadyNode(s, t, h, lo, hi, c, nx);
    KidWF(t.keys, t.kids, i, h - 1, lo, hi, c);
    RepKid(s.nodes, t.kids, i);
    KindByHeight(s.nodes, t.kids[i], h - 1, LoAt(t.keys, lo, i), HiAt(t.keys, hi, i), c);
    TopInIds(t.kids[i]);
    TopInIds(t.kids[j]);
    IdsOfMember(t.kids, i);
    if i < j {
      Shared(t.kids, i, j);
    } else {
      Shared(t.kids, j, i);
    }
  }

  lemma SiteHere(s: State, t: Tree, j: nat, d: Fall, k': Tree, e: Entry, minus: multiset<nat>, h: nat, lo: int, hi: int, c: Occ, nx: nat)
    requires Ready(s, t, h, lo, hi, c, nx) && t.TNode? && j <= |t.keys| && |t.kids| == |t.keys| + 1 && h > 1
    requires Fallen(s, d, t.kids[j], k', e, minus, h - 1, LoAt(t.keys, lo, j), HiAt(t.keys, hi, j), c, FirstOr(LeafIdsOf(t.kids[j + 1..]), nx))
    ensures RepairSite(s, d.s, t.kids[j].idx, t.idx)
  {
    hide Ready, Fallen, Ids, IdsOf, LeafIdsOf, WFNode, WFKids, Rep, RepAll, Chain, NoDup, FirstOr;
    var lo', hi', nx' := LoAt(t.keys, lo, j), HiAt(t.keys, hi, j), FirstOr(LeafIdsOf(t.kids[j + 1..]), nx);
    ReadyNode(s, t, h, lo, hi, c, nx);
    FallenHeld(s, d, t.kids[j], k', e, minus, h - 1, lo', hi', c, nx');
    KindByHeight(d.s.nodes, k', h - 1, lo', hi', c);
    IdsOfMember(t.kids, j);
    TopInIds(t.kids[j]);
    OutsideKept(s, d, t.kids[j], k', e, minus, h - 1, lo', hi', c, nx', t.idx);
    forall i | 0 <= i < |t.kids| && i != j ensures Tops(t.kids)[i] != t.kids[j].idx && Sibling(s, d.s, Tops(t.kids)[i], t.kids[j].idx, t.idx) {
      SiblingHeld(s, t, j, i, h, lo, hi, c, nx);
      OutsideKept(s, d, t.kids[j], k', e, minus, h - 1, lo', hi', c, nx', t.kids[i].idx);
    }
    FirstIndex(Tops(t.kids), t.kids[j].idx, j);
  }

  lemma {:induction false} SiteAt(s: State, rq: DeleteRq, m: nat, l: nat, t: Tree, h: nat, lo: int, hi: int, c: Occ, nx: nat)
    requires RqOk(rq) && m < l < |rq.path| && rq.path[m..] == PathIn(t, rq.key)
    requires Ready(s, t, h, lo, hi, c, nx) && lo <= rq.key < hi && DeleteUp(s, rq, l).Ok?
    ensures RepairSite(s, DeleteUp(s, rq, l).value.s, rq.path[l], rq.path[l - 1])
    decreases l - m
  {
    hide Ready, DeleteUp, RepairSite, Fallen, LeafIdsOf, FirstOr, HasKey, SidesGood;
    assert |rq.path[m..]| >= 2;
    assert t.TNode? by { LongPath(t, rq.key); }
    hide PathIn;
    var j := StepDown(s, rq.path, rq.key, m, t, h, lo, hi, c, nx);
    var lo', hi', nx' := LoAt(t.keys, lo, j), HiAt(t.keys, hi, j), FirstOr(LeafIdsOf(t.kids[j + 1..]), nx);
    if l == m + 1 {
      var e, k', minus := DeleteUpFalls(s, rq, l, t.kids[j], h - 1, lo', hi', c, nx');
      SiteHere(s, t, j, DeleteUp(s, rq, l).value, k', e, minus, h, lo, hi, c, nx);
    } else {
      SiteAt(s, rq, m + 1, l, t.kids[j], h - 1, lo', hi', c, nx');
    }
  }

  lemma LongPath(t: Tree, key: Key)
    requires |PathIn(t, key)| >= 2
    ensures t.TNode?
  {
  }

  // On a valid state, at every level the cascade reaches.
  lemma SiteOfLevel(s: State, rq: DeleteRq, l: nat)
    requires Valid(s) && AllShaped(s.nodes) && RqOk(rq) && s.height > 0 && |rq.path| == s.height
    requires Descend(s, rq.path, rq.key, 0, s.root).Ok?
    requires 0 < l < |rq.path| && DeleteUp(s, rq, l).Ok?
    ensures RepairSite(s, DeleteUp(s, rq, l).value.s, rq.path[l], rq.path[l - 1])
  {
    var t := TreeOf(s);
    AcceptedPath(s, t, 0, rq.path, rq.key);
    TopReady(s, t, 0);
    assert rq.path[0..] == rq.path;
    hide DeleteUp, RepairSite, Ready, Represents, Descend;
    SiteAt(s, rq, 0, l, t, s.height, 0, KEY_LIMIT, Occ(s.fanout, 0), 0);
  }
}
