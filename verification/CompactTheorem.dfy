// CompactLeaf: an emptied leftmost leaf goes, and the map does not change.
module CompactTheorem {
  import opened Base
  import opened NodeViews
  import opened Shapes
  import opened Engine
  import opened Represent
  import opened Edits
  import opened TopProof
  import opened InsertProof
  import opened DeleteProof
  import opened MapModel

  // The all-leftmost path of a tree.
  ghost function LeftPath(t: Tree): seq<nat>
    decreases t
  {
    if t.TLeaf? || |t.kids| == 0 then [t.idx] else [t.idx] + LeftPath(t.kids[0])
  }

  lemma {:induction false} DescendLeftmostIff(s: State, t: Tree, path: seq<nat>, lvl: nat, h: nat, lo: int, hi: int, c: Occ)
    requires AllShaped(s.nodes) && Rep(s.nodes, t)
    requires WFNode(t, h, lo, hi, c) && c.fanout == s.fanout
    requires |path| - lvl == h
    ensures |LeftPath(t)| == h
    ensures DescendLeftmost(s, path, lvl, t.idx).Ok? <==> path[lvl..] == LeftPath(t)
    decreases t
  {
    var p := LeftPath(t);
    if t.TLeaf? {
      assert path[lvl..] == [path[lvl]];
    } else {
      KidWF(t.keys, t.kids, 0, h - 1, lo, hi, c);
      var k := t.kids[0];
      assert Rep(s.nodes, k);
      DescendLeftmostIff(s, k, path, lvl + 1, h - 1, lo, HiAt(t.keys, hi, 0), c);
      assert path[lvl..] == [path[lvl]] + path[lvl + 1..];
      assert p == [t.idx] + LeftPath(k);
      if path[lvl..] == p {
        assert path[lvl..][1..] == p[1..];
      }
    }
  }

  lemma {:induction false} WidenLow(keys: seq<Key>, kids: seq<Tree>, h: nat, lo: int, lo': int, hi: int, c: Occ)
    requires WFKids(keys, kids, h, lo, hi, c) && lo' <= lo
    ensures WFKids(keys, kids, h, lo', hi, c)
    decreases kids, 0
  {
    WidenLowTree(kids[0], h, lo, lo', if |keys| == 0 then hi else keys[0], c);
  }

  lemma {:induction false} WidenLowTree(t: Tree, h: nat, lo: int, lo': int, hi: int, c: Occ)
    requires WF(t, h, lo, hi, c) && lo' <= lo
    ensures WF(t, h, lo', hi, c)
    decreases t, 1
  {
    if t.TNode? {
      WidenLow(t.keys, t.kids, h - 1, lo, lo', hi, c);
    }
  }

  // The tree without its leftmost leaf.
  ghost function DropFirst(t: Tree): Tree
    decreases t
  {
    if t.TLeaf? || |t.kids| == 0 || |t.keys| == 0 then t
    else if t.kids[0].TLeaf? then TNode(t.idx, t.keys[1..], t.kids[1..])
    else TNode(t.idx, t.keys, [DropFirst(t.kids[0])] + t.kids[1..])
  }

  ghost function FirstLeaf(t: Tree): Tree
    decreases t
  {
    if t.TLeaf? || |t.kids| == 0 then t else FirstLeaf(t.kids[0])
  }

  // The parent of the leftmost leaf.
  ghost function FirstParent(t: Tree): Tree
    decreases t
  {
    if t.TLeaf? || |t.kids| == 0 || t.kids[0].TLeaf? then t else FirstParent(t.kids[0])
  }

  lemma {:induction false} DropShape(t: Tree, h: nat, lo: int, hi: int, c: Occ)
    requires WFNode(t, h, lo, hi, c) && h > 1
    requires FirstParent(t).TNode? && |FirstParent(t).keys| > c.fanout / 2
    ensures WFNode(DropFirst(t), h, lo, hi, c)
    ensures DropFirst(t).idx == t.idx && DropFirst(t).TNode?
    ensures |DropFirst(t).keys| >= |t.keys| || |DropFirst(t).keys| >= c.fanout / 2
    decreases t
  {
    if t.kids[0].TLeaf? {
      assert t.TNode? && |t.keys| > 0;
      WFKidsCut(t.keys, t.kids, 0, h - 1, lo, hi, c);
      WidenLow(t.keys[1..], t.kids[1..], h - 1, t.keys[0], lo, hi, c);
    } else {
      WFKid(t.keys, t.kids, 0, h - 1, lo, hi, c);
      var k := t.kids[0];
      DropShape(k, h - 1, lo, HiAt(t.keys, hi, 0), c);
      if |t.keys| > 0 {
        assert WF(DropFirst(k), h - 1, lo, HiAt(t.keys, hi, 0), c);
        hide WFKids, WF;
        KidShape(t.keys, t.kids, 0, DropFirst(k), h - 1, lo, hi, c);
        assert Replaced(t.kids, 0, 1, [DropFirst(k)]) == [DropFirst(k)] + t.kids[1..];
      }
    }
  }

  // Enough separators on the way for the leftmost leaf to have a neighbour.
  ghost predicate Wide(t: Tree, h: nat, lo: int, hi: int, c: Occ) {
    WFNode(t, h, lo, hi, c) && h > 1 && |t.keys| >= 1 && c.fanout >= 4
  }

  lemma WideKid(t: Tree, h: nat, lo: int, hi: int, c: Occ)
    requires Wide(t, h, lo, hi, c)
    ensures t.TNode? && |t.kids| == |t.keys| + 1 && |t.kids| >= 2
    ensures t.kids[0].TLeaf? <==> h == 2
    ensures h > 2 ==> Wide(t.kids[0], h - 1, lo, HiAt(t.keys, hi, 0), c)
  {
    WFKid(t.keys, t.kids, 0, h - 1, lo, hi, c);
  }

  lemma HeadFlat(kids: seq<Tree>)
    requires |kids| > 0
    ensures EntriesOf(kids) == Entries(kids[0]) + EntriesOf(kids[1..])
    ensures LeafIdsOf(kids) == LeafIds(kids[0]) + LeafIdsOf(kids[1..])
    ensures IdsOf(kids) == Ids(kids[0]) + IdsOf(kids[1..])
  {
    hide *;
    FlattenCons(kids[0], kids[1..]);
    assert [kids[0]] + kids[1..] == kids;
  }

  lemma HeadReplaced(k: Tree, k': Tree, rest: seq<Tree>, x: nat, es: seq<Entry>)
    requires LeafIds(k) == [x] + LeafIds(k') && Ids(k) == Ids(k') + multiset{x} && Entries(k) == es + Entries(k')
    ensures LeafIdsOf([k] + rest) == [x] + LeafIdsOf([k'] + rest)
    ensures IdsOf([k] + rest) == IdsOf([k'] + rest) + multiset{x}
    ensures EntriesOf([k] + rest) == es + EntriesOf([k'] + rest)
  {
    hide *;
    FlattenCons(k, rest);
    FlattenCons(k', rest);
  }

  lemma HeadDropped(k: Tree, rest: seq<Tree>)
    requires k.TLeaf?
    ensures LeafIdsOf([k] + rest) == [k.idx] + LeafIdsOf(rest)
    ensures IdsOf([k] + rest) == IdsOf(rest) + multiset{k.idx}
    ensures EntriesOf([k] + rest) == k.es + EntriesOf(rest)
  {
    hide LeafIdsOf, IdsOf, EntriesOf;
    FlattenCons(k, rest);
  }

  lemma {:induction false} DropFlat(t: Tree, h: nat, lo: int, hi: int, c: Occ)
    requires Wide(t, h, lo, hi, c)
    ensures FirstLeaf(t).TLeaf? && FirstParent(t).TNode?
    ensures LeafIds(t) == [FirstLeaf(t).idx] + LeafIds(DropFirst(t))
    ensures Ids(t) == Ids(DropFirst(t)) + multiset{FirstLeaf(t).idx}
    ensures Entries(t) == FirstLeaf(t).es + Entries(DropFirst(t))
    decreases t
  {
    WideKid(t, h, lo, hi, c);
    var k, rest := t.kids[0], t.kids[1..];
    assert [k] + rest == t.kids;
    if h > 2 {
      DropFlat(k, h - 1, lo, HiAt(t.keys, hi, 0), c);
      hide Wide, EntriesOf, LeafIdsOf, IdsOf;
      HeadReplaced(k, DropFirst(k), rest, FirstLeaf(k).idx, FirstLeaf(k).es);
      assert FirstLeaf(t) == FirstLeaf(k) && FirstParent(t) == FirstParent(k);
    } else {
      hide Wide, EntriesOf, LeafIdsOf, IdsOf;
      HeadDropped(k, rest);
    }
  }

  lemma {:induction false} LeftPathEnds(t: Tree, h: nat, lo: int, hi: int, c: Occ)
    requires Wide(t, h, lo, hi, c)
    ensures var p := LeftPath(t);
            |p| == h && p[h - 1] == FirstLeaf(t).idx && p[h - 2] == FirstParent(t).idx
    decreases t
  {
    WideKid(t, h, lo, hi, c);
    if h > 2 {
      LeftPathEnds(t.kids[0], h - 1, lo, HiAt(t.keys, hi, 0), c);
    }
  }

  // Rewriting one account and closing another, neither of them used by `ts`.
  lemma BothUnused(st: Store, p: nat, v: NodeView, l: nat, ts: seq<Tree>)
    requires RepAll(st, ts) && p !in IdsOf(ts) && l !in IdsOf(ts)
    ensures RepAll(st[p := v] - {l}, ts)
  {
    RepAllIds(st, ts);
    hide RepAll, IdsOf;
    RepAllFrame(st, st[p := v] - {l}, ts);
  }

  lemma {:induction false} FirstsInIds(t: Tree, h: nat, lo: int, hi: int, c: Occ)
    requires Wide(t, h, lo, hi, c)
    ensures FirstParent(t).idx in Ids(t) && FirstLeaf(t).idx in Ids(t)
    decreases t
  {
    WideKid(t, h, lo, hi, c);
    HeadFlat(t.kids);
    if h > 2 {
      FirstsInIds(t.kids[0], h - 1, lo, HiAt(t.keys, hi, 0), c);
    }
    hide IdsOf;
  }

  lemma HeadDisjoint(kids: seq<Tree>)
    requires |kids| > 0 && NoDup(IdsOf(kids))
    ensures NoDup(Ids(kids[0]))
    ensures forall x: nat :: x in Ids(kids[0]) ==> x !in IdsOf(kids[1..])
    ensures forall x: nat :: x in Ids(kids[0]) ==> x in IdsOf(kids)
  {
    hide Ids, IdsOf, NoDup;
    assert kids[0..1] == [kids[0]];
    FlattenOne(kids[0]);
    PartsDisjoint(kids, 0, 1);
  }

  lemma {:induction false} DropRep(st: Store, t: Tree, h: nat, lo: int, hi: int, c: Occ)
    requires Wide(t, h, lo, hi, c) && Rep(st, t) && NoDup(Ids(t))
    ensures var p, l := FirstParent(t), FirstLeaf(t);
            && p.TNode? && |p.keys| >= 1 && |p.kids| == |p.keys| + 1
            && p.idx in st && st[p.idx] == Inner(p.keys, Tops(p.kids))
            && Rep(st[p.idx := Inner(p.keys[1..], Tops(p.kids)[1..])] - {l.idx}, DropFirst(t))
    decreases t
  {
    WideKid(t, h, lo, hi, c);
    FirstsInIds(t, h, lo, hi, c);
    NoDupKids(t);
    HeadDisjoint(t.kids);
    var k, rest := t.kids[0], t.kids[1..];
    RepAllParts(st, t.kids, 1, 1);
    hide Wide, IdsOf, NoDup;
    if h > 2 {
      FirstsInIds(k, h - 1, lo, HiAt(t.keys, hi, 0), c);
      DropRep(st, k, h - 1, lo, HiAt(t.keys, hi, 0), c);
      var p, l := FirstParent(k), FirstLeaf(k);
      var v := Inner(p.keys[1..], Tops(p.kids)[1..]);
      BothUnused(st, p.idx, v, l.idx, rest);
      DropTop(k);
      RepHead(st[p.idx := v] - {l.idx}, DropFirst(k), rest);
      assert Tops([DropFirst(k)] + rest) == Tops(t.kids);
    } else {
      BothUnused(st, t.idx, Inner(t.keys[1..], Tops(t.kids)[1..]), k.idx, rest);
      assert Tops(rest) == Tops(t.kids)[1..];
    }
  }

  lemma DropTop(t: Tree)
    ensures DropFirst(t).idx == t.idx
  {
  }

  lemma RepHead(st: Store, t: Tree, ts: seq<Tree>)
    requires Rep(st, t) && RepAll(st, ts)
    ensures RepAll(st, [t] + ts)
  {
    hide Rep;
    var a := [t] + ts;
    forall i | 0 <= i < |a| ensures Rep(st, a[i]) {
      if i > 0 { assert a[i] == ts[i - 1]; }
    }
  }

  // What the chain says about the two leftmost leaves.
  lemma FirstLinks(st: Store, x: nat, ids: seq<nat>)
    requires Chain(st, [x] + ids, 0) && ids != []
    ensures x in st && st[x].Leaf? && st[x].next == ids[0]
    ensures Chain(st, ids, 0) && LastOf([x] + ids) == LastOf(ids)
  {
    ChainConcat(st, [x], ids, 0);
    assert LeafTo(st, [x][0], After([x], 0, FirstOr(ids, 0)));
  }

  lemma ChainKeptBeside(st: Store, p: nat, v: NodeView, l: nat, ids: seq<nat>)
    requires Chain(st, ids, 0)
    requires p in st && st[p].Inner? && l !in ids
    ensures Chain(st[p := v] - {l}, ids, 0)
  {
  }

  lemma IdsDropped(st: Store, ids: multiset<nat>, ids': multiset<nat>, p: nat, v: NodeView, l: nat)
    requires multiset(st.Keys) == ids && ids == ids' + multiset{l} && p in st
    ensures multiset((st[p := v] - {l}).Keys) == ids' && l !in ids'
  {
    KeysDistinct(st, ids);
    forall x: nat ensures multiset((st[p := v] - {l}).Keys)[x] == ids'[x] {
      assert ids[x] == ids'[x] + (if x == l then 1 else 0) && ids[x] <= 1;
    }
    assert ids[l] == ids'[l] + 1;
  }

  // Dropping the leftmost leaf, in the store.
  lemma DropStore(st: Store, t: Tree, h: nat, c: Occ)
    requires Wide(t, h, 0, KEY_LIMIT, c) && Rep(st, t) && multiset(st.Keys) == Ids(t) && Chain(st, LeafIds(t), 0)
    ensures var p, l, ids := FirstParent(t), FirstLeaf(t).idx, LeafIds(DropFirst(t));
            && p.TNode? && |p.keys| >= 1 && |p.kids| == |p.keys| + 1 && p.idx in st
            && var st' := st[p.idx := Inner(p.keys[1..], Tops(p.kids)[1..])] - {l};
            && Rep(st', DropFirst(t)) && multiset(st'.Keys) == Ids(DropFirst(t)) && Chain(st', ids, 0)
            && (ids != [] ==> l in st && st[l].Leaf? && st[l].next == ids[0] && LastOf(LeafIds(t)) == LastOf(ids))
  {
    hide Rep, WFNode, Ids, LeafIds, Chain, Wide, DropFirst, FirstParent, FirstLeaf, NoDup, Tops;
    var t', p, l := DropFirst(t), FirstParent(t), FirstLeaf(t).idx;
    KeysDistinct(st, Ids(t));
    DropFlat(t, h, 0, KEY_LIMIT, c);
    DropRep(st, t, h, 0, KEY_LIMIT, c);
    var v := Inner(p.keys[1..], Tops(p.kids)[1..]);
    IdsDropped(st, Ids(t), Ids(t'), p.idx, v, l);
    LeafIdsInIds(t');
    DropChain(st, p.idx, v, l, LeafIds(t'));
  }

  lemma DropChain(st: Store, p: nat, v: NodeView, l: nat, ids: seq<nat>)
    requires Chain(st, [l] + ids, 0) && p in st && st[p].Inner? && l !in ids
    ensures Chain(st[p := v] - {l}, ids, 0)
    ensures ids != [] ==> l in st && st[l].Leaf? && st[l].next == ids[0] && LastOf([l] + ids) == LastOf(ids)
  {
    if ids != [] {
      FirstLinks(st, l, ids);
    }
    ChainConcat(st, [l], ids, 0);
    ChainKeptBeside(st, p, v, l, ids);
  }

  // Dropping the leftmost leaf, on the whole state.
  lemma DropRepresents(s: State, t: Tree, lm: nat, p: Tree, l: nat)
    requires Represents(s, t, lm) && s.height >= 2
    requires p == FirstParent(t) && l == FirstLeaf(t).idx && p.TNode? && |p.keys| > s.fanout / 2 && |p.kids| > 0
    requires l in s.nodes && s.nodes[l].Leaf?
    ensures Represents(s.Set(p.idx, Inner(p.keys[1..], Tops(p.kids)[1..])).(leftmost := s.nodes[l].next).Bumped().Close(l),
                       DropFirst(t), lm)
  {
    var c := Occ(s.fanout, lm);
    assert Wide(t, s.height, 0, KEY_LIMIT, c);
    DropShape(t, s.height, 0, KEY_LIMIT, c);
    LeafIdsNonEmpty(DropFirst(t), s.height, 0, KEY_LIMIT, c);
    hide Rep, WFNode, Ids, LeafIds, Chain, Wide, DropFirst, FirstParent, FirstLeaf, Tops;
    DropStore(s.nodes, t, s.height, c);
  }

  lemma FirstHeld(st: Store, t: Tree, h: nat, lo: int, hi: int, c: Occ)
    requires Wide(t, h, lo, hi, c) && Rep(st, t)
    ensures FirstLeaf(t).TLeaf? && FirstLeaf(t).idx in st && st[FirstLeaf(t).idx].Leaf? && st[FirstLeaf(t).idx].es == FirstLeaf(t).es
    ensures FirstParent(t).TNode? && FirstParent(t).idx in st
    ensures |FirstParent(t).kids| > 0 && st[FirstParent(t).idx] == Inner(FirstParent(t).keys, Tops(FirstParent(t).kids))
    decreases t
  {
    WideKid(t, h, lo, hi, c);
    assert Rep(st, t.kids[0]);
    hide Wide;
    if h > 2 {
      FirstHeld(st, t.kids[0], h - 1, lo, HiAt(t.keys, hi, 0), c);
    }
  }

  // CompactLeaf is accepted on the leftmost path alone, when that leaf is empty and its
  // parent keeps its occupancy without it. The map is the same before and after.
  lemma CompactStep(s: State, t: Tree, lm: nat, path: seq<nat>)
    requires Represents(s, t, lm) && AllShaped(s.nodes)
    ensures CompactLeaf(s, path).Ok? <==>
            s.height >= 2 && path == LeftPath(t) && FirstLeaf(t).TLeaf? && FirstLeaf(t).es == []
            && FirstParent(t).TNode? && |FirstParent(t).keys| > s.Min()
    ensures CompactLeaf(s, path).Ok? ==>
            Represents(CompactLeaf(s, path).value, DropFirst(t), lm) && Entries(DropFirst(t)) == Entries(t)
  {
    var c := Occ(s.fanout, lm);
    if s.height >= 2 {
      assert Wide(t, s.height, 0, KEY_LIMIT, c);
      hide Wide, DropFirst;
      FirstHeld(s.nodes, t, s.height, 0, KEY_LIMIT, c);
      DropFlat(t, s.height, 0, KEY_LIMIT, c);
      LeftPathEnds(t, s.height, 0, KEY_LIMIT, c);
      if |path| == s.height {
        assert path[0..] == path;
        DescendLeftmostIff(s, t, path, 0, s.height, 0, KEY_LIMIT, c);
      }
      CompactCase(s, t, lm, path);
    }
  }

  lemma CompactCase(s: State, t: Tree, lm: nat, path: seq<nat>)
    requires Represents(s, t, lm) && AllShaped(s.nodes) && s.height >= 2
    requires FirstLeaf(t).TLeaf? && FirstLeaf(t).idx in s.nodes && s.nodes[FirstLeaf(t).idx].Leaf? && s.nodes[FirstLeaf(t).idx].es == FirstLeaf(t).es
    requires FirstParent(t).TNode? && FirstParent(t).idx in s.nodes && |FirstParent(t).kids| > 0
    requires s.nodes[FirstParent(t).idx] == Inner(FirstParent(t).keys, Tops(FirstParent(t).kids))
    requires LeafIds(t) == [FirstLeaf(t).idx] + LeafIds(DropFirst(t)) && Entries(t) == FirstLeaf(t).es + Entries(DropFirst(t))
    requires var p := LeftPath(t); |p| == s.height && p[s.height - 1] == FirstLeaf(t).idx && p[s.height - 2] == FirstParent(t).idx
    requires |path| == s.height ==> (DescendLeftmost(s, path, 0, s.root).Ok? <==> path == LeftPath(t))
    ensures CompactLeaf(s, path).Ok? <==>
            path == LeftPath(t) && FirstLeaf(t).es == [] && |FirstParent(t).keys| > s.Min()
    ensures CompactLeaf(s, path).Ok? ==>
            Represents(CompactLeaf(s, path).value, DropFirst(t), lm) && Entries(DropFirst(t)) == Entries(t)
  {
    assert s.leftmost == FirstLeaf(t).idx;
    hide Represents, DescendLeftmost, LeftPath, FirstLeaf, FirstParent, DropFirst, Tops, Entries, LeafIds, Rep;
    if CompactLeaf(s, path).Ok? {
      DropRepresents(s, t, lm, FirstParent(t), FirstLeaf(t).idx);
    }
  }

  // The path a keeper supplies, and what it reclaims.
  ghost function LeftmostPath(s: State): seq<nat>
    requires Valid(s) && s.height > 0
  {
    LeftPath(TreeOf(s))
  }

  lemma CompactCorrect(s: State, lm: nat, path: seq<nat>)
    requires ValidWith(s, lm) && Valid(s) && AllShaped(s.nodes)
    ensures CompactLeaf(s, path).Ok? <==>
            s.height >= 2 && path == LeftmostPath(s) && FirstLeaf(TreeOf(s)).TLeaf? && FirstLeaf(TreeOf(s)).es == []
            && FirstParent(TreeOf(s)).TNode? && |FirstParent(TreeOf(s)).keys| > s.fanout / 2
    ensures CompactLeaf(s, path).Ok? ==>
            var s' := CompactLeaf(s, path).value;
            && ValidWith(s', lm) && Valid(s')
            && StateEntries(s') == StateEntries(s) && Contents(s') == Contents(s)
            && LeafIds(TreeOf(s)) == [s.leftmost] + LeafIds(TreeOf(s'))
  {
    if s.height > 0 {
      var t :| Represents(s, t, lm);
      TreeOfIs(s, t, lm);
      CompactStep(s, t, lm, path);
      if CompactLeaf(s, path).Ok? {
        TreeOfIs(CompactLeaf(s, path).value, DropFirst(t), lm);
        CompactHead(s, t, lm);
      }
    }
    hide CompactLeaf, FirstLeaf, FirstParent, LeftPath, Represents, Valid;
  }

  lemma CompactHead(s: State, t: Tree, lm: nat)
    requires Represents(s, t, lm) && s.height >= 2
    ensures LeafIds(t) == [s.leftmost] + LeafIds(DropFirst(t))
  {
    var c := Occ(s.fanout, lm);
    assert Wide(t, s.height, 0, KEY_LIMIT, c);
    DropFlat(t, s.height, 0, KEY_LIMIT, c);
  }
}
