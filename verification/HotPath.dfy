// Instructions that write one leaf and nothing else.
module HotPath {
  import opened Base
  import opened NodeViews
  import opened Shapes
  import opened Engine
  import opened Represent
  import opened Search
  import opened Edits
  import opened TopProof
  import opened InsertProof
  import opened DeleteProof

  // Tree `t` with other entries in the leaf that covers `key`.
  ghost function SetLeaf(t: Tree, key: Key, es: seq<Entry>): Tree
    decreases t
  {
    if t.TLeaf? then TLeaf(t.idx, es)
    else if |t.kids| != |t.keys| + 1 then t
    else var j := Route(t.keys, key); TNode(t.idx, t.keys, t.kids[j := SetLeaf(t.kids[j], key, es)])
  }

  // Entries `es'` fit wherever `es` and `key` do.
  ghost predicate Fits(es: seq<Entry>, es': seq<Entry>, key: Key) {
    forall lo: int, hi: int :: EntriesIn(es, lo, hi) && lo <= key < hi ==> EntriesIn(es', lo, hi)
  }

  lemma {:induction false} SetLeafShape(t: Tree, key: Key, es: seq<Entry>, h: nat, lo: int, hi: int, c: Occ)
    requires WFNode(t, h, lo, hi, c) && lo <= key < hi
    requires LeafFor(t, key).TLeaf? && Fits(LeafFor(t, key).es, es, key)
    requires |es| <= c.fanout && (|es| >= c.leafMin || h == 1)
    ensures WFNode(SetLeaf(t, key, es), h, lo, hi, c)
    ensures SetLeaf(t, key, es).idx == t.idx && SetLeaf(t, key, es).TNode? == t.TNode?
    ensures t.TNode? ==> Size(SetLeaf(t, key, es)) == Size(t)
    decreases t
  {
    if t.TNode? {
      RouteRange(t.keys, t.kids, key, h - 1, lo, hi, c);
      var j := Route(t.keys, key);
      var plo, phi := LoAt(t.keys, lo, j), HiAt(t.keys, hi, j);
      WFKid(t.keys, t.kids, j, h - 1, lo, hi, c);
      SetLeafShape(t.kids[j], key, es, h - 1, plo, phi, c);
      var k' := SetLeaf(t.kids[j], key, es);
      assert WF(k', h - 1, plo, phi, c);
      hide WFKids, WF, Fits;
      KidShape(t.keys, t.kids, j, k', h - 1, lo, hi, c);
      ReplacedOne(t.kids, j, k');
    }
  }

  lemma {:induction false} SetLeafFlat(t: Tree, key: Key, es: seq<Entry>, cut: seq<Entry>, put: seq<Entry>, h: nat, lo: int, hi: int, c: Occ)
    requires WFNode(t, h, lo, hi, c) && lo <= key < hi
    requires LeafFor(t, key).TLeaf? && Edited(LeafFor(t, key).es, es, cut, put)
    ensures Edited(Entries(t), Entries(SetLeaf(t, key, es)), cut, put)
    ensures LeafIds(SetLeaf(t, key, es)) == LeafIds(t) && Ids(SetLeaf(t, key, es)) == Ids(t)
    decreases t
  {
    if t.TNode? {
      RouteRange(t.keys, t.kids, key, h - 1, lo, hi, c);
      var j := Route(t.keys, key);
      KidWF(t.keys, t.kids, j, h - 1, lo, hi, c);
      SetLeafFlat(t.kids[j], key, es, cut, put, h - 1, LoAt(t.keys, lo, j), HiAt(t.keys, hi, j), c);
      hide Edited, EntriesOf, LeafIdsOf, IdsOf, WFKids;
      SetKidFlat(t.kids, j, SetLeaf(t.kids[j], key, es), cut, put);
    }
  }

  lemma SetKidFlat(kids: seq<Tree>, j: nat, k': Tree, cut: seq<Entry>, put: seq<Entry>)
    requires j < |kids| && Edited(Entries(kids[j]), Entries(k'), cut, put)
    requires LeafIds(k') == LeafIds(kids[j]) && Ids(k') == Ids(kids[j])
    ensures Edited(EntriesOf(kids), EntriesOf(kids[j := k']), cut, put)
    ensures LeafIdsOf(kids[j := k']) == LeafIdsOf(kids) && IdsOf(kids[j := k']) == IdsOf(kids)
  {
    hide EntriesOf, Entries, LeafIdsOf, LeafIds, IdsOf, Ids, Edited;
    var a, c := kids[..j], kids[j + 1..];
    assert kids[j..j + 1] == [kids[j]] && kids[j := k'] == a + [k'] + c;
    FlattenCut(kids, j, j + 1);
    FlattenJoin(a, [k'], c);
    FlattenOne(kids[j]);
    FlattenOne(k');
    EditedContext(EntriesOf(a), Entries(kids[j]), Entries(k'), EntriesOf(c), cut, put);
  }

  lemma KidRewritten(st: Store, kids: seq<Tree>, j: nat, k': Tree, x: nat, v: NodeView)
    requires j < |kids| && RepAll(st, kids) && NoDup(IdsOf(kids))
    requires x in Ids(kids[j]) && Rep(st[x := v], k')
    ensures RepAll(st[x := v], kids[j := k'])
  {
    hide Ids, IdsOf, NoDup, RepAll, Rep;
    assert kids[j..j + 1] == [kids[j]];
    FlattenOne(kids[j]);
    PartsDisjoint(kids, j, j + 1);
    RepAllParts(st, kids, j, j + 1);
    RewriteUnused(st, x, v, kids[..j]);
    RewriteUnused(st, x, v, kids[j + 1..]);
    RepSetKid(st[x := v], kids, j, k');
  }

  lemma {:induction false} SetLeafRep(st: Store, t: Tree, key: Key, v: NodeView, h: nat, lo: int, hi: int, c: Occ)
    requires WFNode(t, h, lo, hi, c) && lo <= key < hi
    requires Rep(st, t) && NoDup(Ids(t)) && v.Leaf?
    ensures LeafFor(t, key).TLeaf? && LeafFor(t, key).idx in Ids(t)
    ensures Rep(st[LeafFor(t, key).idx := v], SetLeaf(t, key, v.es))
    decreases t
  {
    if t.TNode? {
      RouteRange(t.keys, t.kids, key, h - 1, lo, hi, c);
      var j := Route(t.keys, key);
      KidWF(t.keys, t.kids, j, h - 1, lo, hi, c);
      NoDupKids(t);
      IdsOfMember(t.kids, j);
      NoDupPart(Ids(t.kids[j]), IdsOf(t.kids));
      hide WFKids, IdsOf, NoDup, RepAll;
      RepKid(st, t.kids, j);
      SetLeafRep(st, t.kids[j], key, v, h - 1, LoAt(t.keys, lo, j), HiAt(t.keys, hi, j), c);
      var k' := SetLeaf(t.kids[j], key, v.es);
      SetTop(t.kids[j], key, v.es);
      TopsKept(t.kids, j, k');
      KidRewritten(st, t.kids, j, k', LeafFor(t, key).idx, v);
    }
  }

  lemma NoDupPart(a: multiset<nat>, b: multiset<nat>)
    requires a <= b && NoDup(b)
    ensures NoDup(a)
  {
    forall x: nat ensures a[x] <= 1 {
      assert a[x] <= b[x] <= 1;
    }
  }

  lemma SetTop(t: Tree, key: Key, es: seq<Entry>)
    ensures SetLeaf(t, key, es).idx == t.idx
  {
  }

  lemma RepSetKid(st: Store, kids: seq<Tree>, j: nat, k': Tree)
    requires j < |kids| && RepAll(st, kids[..j]) && RepAll(st, kids[j + 1..]) && Rep(st, k')
    ensures RepAll(st, kids[j := k'])
  {
    hide Rep;
    var ks := kids[j := k'];
    forall i | 0 <= i < |ks| ensures Rep(st, ks[i]) {
      if i < j {
        assert ks[i] == kids[..j][i];
      } else if i > j {
        assert ks[i] == kids[j + 1..][i - j - 1];
      }
    }
  }

  // Writing another run of entries into the leaf that covers `key`.
  lemma LeafWritten(s: State, t: Tree, lm: nat, key: Key, es: seq<Entry>, cut: seq<Entry>, put: seq<Entry>)
    requires Represents(s, t, lm)
    requires LeafFor(t, key).TLeaf?
    requires Fits(LeafFor(t, key).es, es, key) && Edited(LeafFor(t, key).es, es, cut, put)
    requires |es| <= s.fanout && (|es| >= lm || s.height == 1)
    ensures var x := LeafFor(t, key).idx;
            && x in s.nodes && s.nodes[x].Leaf? && s.nodes[x].es == LeafFor(t, key).es
            && Represents(s.Set(x, Leaf(es, s.nodes[x].next)), SetLeaf(t, key, es), lm)
            && Edited(Entries(t), Entries(SetLeaf(t, key, es)), cut, put)
  {
    var c := Occ(s.fanout, lm);
    hide Rep, WFNode, Ids, LeafIds, Edited, Fits, Chain, SetLeaf, LeafFor, NoDup;
    KeysDistinct(s.nodes, Ids(t));
    LeafHeld(s.nodes, t, key, s.height, 0, KEY_LIMIT, c);
    var x := LeafFor(t, key).idx;
    var v := Leaf(es, s.nodes[x].next);
    SetLeafShape(t, key, es, s.height, 0, KEY_LIMIT, c);
    SetLeafFlat(t, key, es, cut, put, s.height, 0, KEY_LIMIT, c);
    SetLeafRep(s.nodes, t, key, v, s.height, 0, KEY_LIMIT, c);
    ChainKept(s.nodes, x, v, LeafIds(t), 0);
    assert s.nodes[x := v].Keys == s.nodes.Keys;
  }

  lemma {:induction false} LeafHeld(st: Store, t: Tree, key: Key, h: nat, lo: int, hi: int, c: Occ)
    requires WFNode(t, h, lo, hi, c) && lo <= key < hi && Rep(st, t)
    ensures LeafFor(t, key).TLeaf?
    ensures var x := LeafFor(t, key).idx; x in st && st[x].Leaf? && st[x].es == LeafFor(t, key).es
    decreases t
  {
    if t.TNode? {
      RouteRange(t.keys, t.kids, key, h - 1, lo, hi, c);
      var j := Route(t.keys, key);
      KidWF(t.keys, t.kids, j, h - 1, lo, hi, c);
      LeafHeld(st, t.kids[j], key, h - 1, LoAt(t.keys, lo, j), HiAt(t.keys, hi, j), c);
    }
  }

  lemma ChainKept(st: Store, x: nat, v: NodeView, ids: seq<nat>, nx: nat)
    requires Chain(st, ids, nx) && x in st && st[x].Leaf? && v.Leaf? && v.next == st[x].next
    ensures Chain(st[x := v], ids, nx)
  {
  }

  // ---- the three leaf edits fit ----

  lemma InsertFits(es: seq<Entry>, e: Entry)
    requires !Holds(es, e.key)
    ensures Fits(es, Inserted(es, e), e.key)
  {
    forall lo: int, hi: int | EntriesIn(es, lo, hi) && lo <= e.key < hi ensures EntriesIn(Inserted(es, e), lo, hi) {
      InsertedIn(es, e, lo, hi);
    }
  }

  lemma RemoveFits(es: seq<Entry>, key: Key)
    requires Holds(es, key)
    ensures Fits(es, Removed(es, key), key)
  {
    forall lo: int, hi: int | EntriesIn(es, lo, hi) && lo <= key < hi ensures EntriesIn(Removed(es, key), lo, hi) {
      RemovedIn(es, key, lo, hi);
    }
  }

  lemma UpdateFits(es: seq<Entry>, e: Entry)
    requires Holds(es, e.key)
    ensures Fits(es, Updated(es, e), e.key)
    ensures Edited(es, Updated(es, e), [es[Pos(es, e.key)]], [e]) && |Updated(es, e)| == |es|
  {
    var p := Pos(es, e.key);
    assert es[p..p + 1] == [es[p]];
    assert Updated(es, e) == es[..p] + [e] + es[p + 1..];
    assert EditAt(es, Updated(es, e), [es[p]], [e], p);
  }
}
