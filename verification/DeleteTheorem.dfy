// Delete as a whole: exactly one binding goes, and the tree stays well formed.
module DeleteTheorem {
  import opened Base
  import opened NodeViews
  import opened Shapes
  import opened Engine
  import opened Represent
  import opened Search
  import opened Edits
  import opened TopProof
  import opened InsertProof
  import opened InsertTheorem
  import opened DeletePairs
  import opened DeleteProof
  import opened MapModel

  lemma NothingTaken(ids: multiset<nat>, minus: multiset<nat>)
    ensures Unused(multiset{}, ids, minus)
  {
  }

  lemma FallenFacts(s: State, d: Fall, t: Tree, t': Tree, e: Entry, minus: multiset<nat>, lm: nat)
    requires Fallen(s, d, t, t', e, minus, s.height, 0, KEY_LIMIT, Occ(s.fanout, lm), 0)
    ensures FallShape(d.stop, t, t', s.height, 0, KEY_LIMIT, Occ(s.fanout, lm))
    ensures Flat([t], [t'], [e], [], minus, multiset{})
    ensures Stored(s.nodes, d.s.nodes, [t], [t'], multiset{}, 0)
    ensures d.s == s.(nodes := d.s.nodes, rightmost := LastOf(LeafIds(t')))
    ensures t'.idx in d.s.nodes && (t'.TLeaf? ==> d.s.nodes[t'.idx].Leaf? && d.s.nodes[t'.idx].es == t'.es)
    ensures t'.TNode? ==> d.s.nodes[t'.idx] == Inner(t'.keys, Tops(t'.kids))
  {
    FlattenOne(t');
    assert Rep(d.s.nodes, [t'][0]);
    hide Flat, LeafIdsOf, WFNode;
  }

  // The root stands.
  lemma RootStands(s: State, d: Fall, t: Tree, t': Tree, e: Entry, minus: multiset<nat>, lm: nat)
    requires Represents(s, t, lm)
    requires Fallen(s, d, t, t', e, minus, s.height, 0, KEY_LIMIT, Occ(s.fanout, lm), 0)
    requires t'.TNode? ==> |t'.keys| >= 1
    ensures Represents(d.s, t', lm) && Edited(Entries(t), Entries(t'), [e], [])
  {
    hide Rep, WFNode, Ids, LeafIds, LeafIdsOf, Chain, Flat, Stored, Unused, Below, Fallen, Edited;
    FallenFacts(s, d, t, t', e, minus, lm);
    NothingTaken(Ids(t), minus);
    TopRepresents(s, d.s, t, t', lm, [e], [], minus, multiset{});
  }

  lemma OnlyChildFlat(t: Tree, r: nat, k: Tree, e: Entry, minus: multiset<nat>)
    requires Flat([t], [TNode(r, [], [k])], [e], [], minus, multiset{})
    ensures Flat([t], [k], [e], [], minus + multiset{r}, multiset{})
  {
    hide IdsOf, LeafIdsOf, EntriesOf, Edited;
    NodeFlattens(r, [], [k]);
    assert IdsOf([k]) + (minus + multiset{r}) == multiset{r} + IdsOf([k]) + minus;
  }

  lemma OnlyChildIds(t: Tree, r: nat, k: Tree, e: Entry, minus: multiset<nat>)
    requires Flat([t], [TNode(r, [], [k])], [e], [], minus, multiset{})
    requires NoDup(IdsOf([t]))
    ensures r !in IdsOf([k]) && r in IdsOf([t])
    ensures forall x: nat :: x in IdsOf([TNode(r, [], [k])]) <==> x == r || x in IdsOf([k])
    ensures LeafIdsOf([TNode(r, [], [k])]) == LeafIdsOf([k])
  {
    hide IdsOf, LeafIdsOf, EntriesOf, Edited;
    NodeFlattens(r, [], [k]);
    var n := IdsOf([TNode(r, [], [k])]);
    assert n + minus == IdsOf([t]) by { assert IdsOf([t]) + multiset{} == IdsOf([t]); }
    NoDupLess(n, IdsOf([t]), minus);
    assert n[r] <= 1 && n[r] == 1 + IdsOf([k])[r];
  }

  lemma RootDropped(st: Store, st': Store, r: nat, ts: multiset<nat>, n: multiset<nat>, k: multiset<nat>)
    requires SameOutside(st, st', ts + multiset{}) && r in ts
    requires forall x: nat :: x in n <==> x == r || x in k
    requires forall x: nat | x in ts && x !in n :: x !in st'
    ensures SameOutside(st, st' - {r}, ts + multiset{})
    ensures forall x: nat | x in ts && x !in k :: x !in st' - {r}
  {
    forall x: nat | x !in ts + multiset{} ensures (x in st <==> x in st' - {r}) && (x in st ==> (st' - {r})[x] == st[x]) {
      assert x != r;
    }
  }

  // An internal root without separators is replaced by its only child.
  lemma OnlyChildStored(st: Store, st': Store, t: Tree, r: nat, k: Tree, e: Entry, minus: multiset<nat>)
    requires Flat([t], [TNode(r, [], [k])], [e], [], minus, multiset{})
    requires Stored(st, st', [t], [TNode(r, [], [k])], multiset{}, 0)
    requires NoDup(IdsOf([t]))
    ensures Stored(st, st' - {r}, [t], [k], multiset{}, 0)
  {
    assert RepAll(st', [k]) by { assert Rep(st', [TNode(r, [], [k])][0]); }
    hide IdsOf, LeafIdsOf, RepAll, Chain, Flat, NoDup, SameOutside;
    OnlyChildIds(t, r, k, e, minus);
    DropUnused(st', r, [k], 0);
    RootDropped(st, st', r, IdsOf([t]), IdsOf([TNode(r, [], [k])]), IdsOf([k]));
  }

  lemma RootFalls(s: State, d: Fall, t: Tree, t': Tree, e: Entry, minus: multiset<nat>, lm: nat, s': State)
    returns (k: Tree)
    requires Represents(s, t, lm)
    requires Fallen(s, d, t, t', e, minus, s.height, 0, KEY_LIMIT, Occ(s.fanout, lm), 0)
    requires t'.TNode? && |t'.keys| == 0 && |t'.kids| > 0
    requires s' == d.s.(root := t'.kids[0].idx, height := s.height - 1).Close(t'.idx)
    ensures Represents(s', k, lm) && Edited(Entries(t), Entries(k), [e], [])
  {
    k := t'.kids[0];
    FallenFacts(s, d, t, t', e, minus, lm);
    OnlyChildShape(d.stop, t, t', s.height, Occ(s.fanout, lm));
    KeysDistinct(s.nodes, Ids(t));
    FlattenOne(t);
    hide Rep, WFNode, Ids, LeafIds, LeafIdsOf, Chain, Flat, Stored, Unused, Below, Fallen, Edited, NoDup, FallShape, IdsOf;
    assert t' == TNode(t'.idx, [], [k]);
    OnlyChildFlat(t, t'.idx, k, e, minus);
    OnlyChildIds(t, t'.idx, k, e, minus);
    OnlyChildStored(s.nodes, d.s.nodes, t, t'.idx, k, e, minus);
    FlattenOne(k);
    FlattenOne(t');
    NothingTaken(Ids(t), minus + multiset{t'.idx});
    TopRepresents(s, s', t, k, lm, [e], [], minus + multiset{t'.idx}, multiset{});
  }

  lemma OnlyChildShape(stop: bool, t: Tree, t': Tree, h: nat, c: Occ)
    requires FallShape(stop, t, t', h, 0, KEY_LIMIT, c) && t'.TNode? && |t'.keys| == 0 && c.fanout >= 4
    ensures |t'.kids| == 1 && t'.keys == [] && h > 1
    ensures WFNode(t'.kids[0], h - 1, 0, KEY_LIMIT, c) && (t'.kids[0].TNode? ==> |t'.kids[0].keys| >= 1)
  {
    WFKid(t'.keys, t'.kids, 0, h - 1, 0, KEY_LIMIT, c);
  }

  // The last entry of a leaf root goes with its leaf.
  lemma RootGone(s: State, d: Fall, t: Tree, t': Tree, e: Entry, minus: multiset<nat>, lm: nat)
    requires Represents(s, t, lm)
    requires Fallen(s, d, t, t', e, minus, s.height, 0, KEY_LIMIT, Occ(s.fanout, lm), 0)
    requires t'.TLeaf? && |t'.es| == 0
    ensures d.s.nodes - {t'.idx} == map[] && Edited(Entries(t), [], [e], []) && s.height == 1
  {
    RootStands(s, d, t, t', e, minus, lm);
    assert multiset(d.s.nodes.Keys) == multiset{t'.idx};
    assert forall x: nat :: x in d.s.nodes ==> x in multiset(d.s.nodes.Keys);
  }

  lemma TopKind(stop: bool, t: Tree, t': Tree, h: nat, c: Occ)
    requires FallShape(stop, t, t', h, 0, KEY_LIMIT, c)
    ensures t'.TNode? ==> h > 1 && |t'.kids| == |t'.keys| + 1
    ensures t'.TLeaf? ==> h == 1
  {
    assert t'.TNode? ==> WFKids(t'.keys, t'.kids, h - 1, 0, KEY_LIMIT, c);
  }

  lemma DeleteRepresents(s: State, t: Tree, lm: nat, rq: DeleteRq, d: Fall, t': Tree, e: Entry, minus: multiset<nat>)
    returns (k: Tree)
    requires Represents(s, t, lm) && |rq.path| == s.height && rq.path[0] == t.idx
    requires Fallen(s, d, t, t', e, minus, s.height, 0, KEY_LIMIT, Occ(s.fanout, lm), 0)
    ensures var s' := Collapse(d.s, rq.path);
            if t'.TLeaf? && |t'.es| == 0 && s.height == 1
            then EmptyTree(s', lm) && Edited(Entries(t), [], [e], [])
            else Represents(s', k, lm) && Edited(Entries(t), Entries(k), [e], [])
  {
    assert s.height >= 1 && GoodHeader(s, lm);
    hide Represents, Fallen, Stored, Flat, Edited, FallShape, WFNode, LeafIds, LeafIdsOf, Tops, Entries;
    k := t';
    FallenFacts(s, d, t, t', e, minus, lm);
    TopKind(d.stop, t, t', s.height, Occ(s.fanout, lm));
    var s' := Collapse(d.s, rq.path);
    if t'.TNode? && |t'.keys| == 0 {
      k := RootFalls(s, d, t, t', e, minus, lm, s');
    } else if t'.TLeaf? && |t'.es| == 0 {
      RootGone(s, d, t, t', e, minus, lm);
    } else {
      RootStands(s, d, t, t', e, minus, lm);
    }
  }

  lemma BumpEmpty(s: State, lm: nat)
    requires EmptyTree(s, lm)
    ensures EmptyTree(s.Bumped(), lm) && ValidWith(s.Bumped(), lm) && Valid(s.Bumped()) && StateEntries(s.Bumped()) == []
  {
  }

  // No account comes alive, and only the header fields of the tree's shape move.
  ghost predicate Shrinks(s: State, s': State) {
    && (forall x | x in s'.nodes :: x in s.nodes)
    && s'.highWater == s.highWater && s'.epoch == s.epoch && s'.fanout == s.fanout
  }

  lemma FallenShrinks(s: State, d: Fall, t: Tree, t': Tree, e: Entry, minus: multiset<nat>, lm: nat)
    requires Represents(s, t, lm)
    requires Fallen(s, d, t, t', e, minus, s.height, 0, KEY_LIMIT, Occ(s.fanout, lm), 0)
    ensures Shrinks(s, d.s)
  {
    FallenFacts(s, d, t, t', e, minus, lm);
    FlattenOne(t);
    RepIds(s.nodes, t);
    hide Rep, RepAll, Chain, Ids, IdsOf, LeafIdsOf, WFNode, Flat, Fallen;
    forall x | x in d.s.nodes ensures x in s.nodes {
      assert x in IdsOf([t]) + multiset{} ==> x in Ids(t);
    }
  }

  lemma CollapseShrinks(s: State, path: seq<nat>)
    requires |path| > 0
    ensures Shrinks(s, Collapse(s, path))
  {
  }

  lemma DeleteFalls(s: State, t: Tree, lm: nat, rq: DeleteRq) returns (e: Entry, t': Tree, minus: multiset<nat>)
    requires Represents(s, t, lm) && AllShaped(s.nodes)
    requires RqOk(rq) && rq.path == PathIn(t, rq.key)
    requires Delete(s, rq).Ok? || (HasKey(Entries(t), rq.key) && SidesGood(rq, t, 0))
    ensures |rq.path| == s.height && rq.path[0] == t.idx && e.key == rq.key
    ensures DeleteUp(s, rq, 0).Ok? && Delete(s, rq) == Ok(Collapse(DeleteUp(s, rq, 0).value.s, rq.path).Bumped())
    ensures Fallen(s, DeleteUp(s, rq, 0).value, t, t', e, minus, s.height, 0, KEY_LIMIT, Occ(s.fanout, lm), 0)
  {
    TopReady(s, t, lm);
    var c := Occ(s.fanout, lm);
    PathLength(t, rq.key, s.height, 0, KEY_LIMIT, c);
    DescendIff(s, t, rq.path, rq.key, 0, s.height, 0, KEY_LIMIT, c);
    assert rq.path[0..] == rq.path && rq.path[0] == t.idx;
    assert s.height <= MAX_TREE_HEIGHT && t.idx == s.root && WFNode(t, s.height, 0, KEY_LIMIT, c);
    hide Represents, Ready, Rep, WFNode, SidesGood, HasKey, Fallen, DeleteUp, PathIn, Descend, Collapse;
    e, t', minus := DeleteUpFalls(s, rq, 0, t, s.height, 0, KEY_LIMIT, c, 0);
  }

  lemma BumpedWell(s: State, k: Tree, lm: nat, es: seq<Entry>)
    requires if es == [] && s.height == 0 then EmptyTree(s, lm) else Represents(s, k, lm) && Entries(k) == es
    ensures ValidWith(s.Bumped(), lm) && Valid(s.Bumped()) && StateEntries(s.Bumped()) == es
  {
    hide Represents, EmptyTree, StateEntries, Entries;
    if es == [] && s.height == 0 {
      BumpEmpty(s, lm);
    } else {
      Rebumped(s, k, lm);
      TreeOfIs(s.Bumped(), k, lm);
    }
  }

  lemma DeleteEnds(s: State, t: Tree, lm: nat, rq: DeleteRq, d: Fall, t': Tree, e: Entry, minus: multiset<nat>)
    requires Represents(s, t, lm) && |rq.path| == s.height && rq.path[0] == t.idx
    requires Fallen(s, d, t, t', e, minus, s.height, 0, KEY_LIMIT, Occ(s.fanout, lm), 0)
    ensures var s' := Collapse(d.s, rq.path).Bumped();
            && ValidWith(s', lm) && Valid(s') && Edited(Entries(t), StateEntries(s'), [e], [])
            && Shrinks(s.(epoch := s.epoch + 1), s')
  {
    assert s.height >= 1;
    hide Represents, Fallen, Edited, Collapse, ValidWith, Valid, StateEntries, Entries;
    FallenShrinks(s, d, t, t', e, minus, lm);
    CollapseShrinks(d.s, rq.path);
    var k := DeleteRepresents(s, t, lm, rq, d, t', e, minus);
    var s1 := Collapse(d.s, rq.path);
    if t'.TLeaf? && |t'.es| == 0 && s.height == 1 {
      BumpedWell(s1, k, lm, []);
    } else {
      TallerThanNone(s1, k, lm);
      BumpedWell(s1, k, lm, Entries(k));
    }
  }

  lemma TallerThanNone(s: State, k: Tree, lm: nat)
    requires Represents(s, k, lm)
    ensures s.height > 0
  {
  }

  // An accepted Delete removes its key, which was there, and nothing else changes; and it is
  // accepted when the key is there and the siblings are right.
  lemma DeleteStep(s: State, t: Tree, lm: nat, rq: DeleteRq) returns (e: Entry)
    requires Represents(s, t, lm) && AllShaped(s.nodes)
    requires RqOk(rq) && rq.path == PathIn(t, rq.key)
    requires Delete(s, rq).Ok? || (HasKey(Entries(t), rq.key) && SidesGood(rq, t, 0))
    ensures Delete(s, rq).Ok? && e.key == rq.key
    ensures var s' := Delete(s, rq).value;
            && ValidWith(s', lm) && Valid(s') && Edited(Entries(t), StateEntries(s'), [e], [])
            && Shrinks(s.(epoch := s.epoch + 1), s')
  {
    assert s.height >= 1;
    hide Represents, SidesGood, HasKey, Fallen, DeleteUp, Edited, PathIn, Delete, Collapse, Shrinks;
    var t', minus;
    e, t', minus := DeleteFalls(s, t, lm, rq);
    DeleteEnds(s, t, lm, rq, DeleteUp(s, rq, 0).value, t', e, minus);
  }

  lemma AcceptedPath(s: State, t: Tree, lm: nat, path: seq<nat>, key: Key)
    requires Represents(s, t, lm) && AllShaped(s.nodes) && |path| == s.height
    ensures Descend(s, path, key, 0, s.root).Ok? <==> path == PathIn(t, key)
  {
    assert path[0..] == path;
    DescendIff(s, t, path, key, 0, s.height, 0, KEY_LIMIT, Occ(s.fanout, lm));
  }

  lemma DeleteCorrect(s: State, lm: nat, rq: DeleteRq)
    requires ValidWith(s, lm) && Valid(s) && AllShaped(s.nodes)
    requires Delete(s, rq).Ok?
    ensures var s' := Delete(s, rq).value;
            && ValidWith(s', lm) && Valid(s')
            && rq.key in Contents(s) && Contents(s') == Contents(s) - {rq.key}
            && Edited(StateEntries(s), StateEntries(s'), [Entry(rq.key, Contents(s)[rq.key])], [])
            && Shrinks(s.(epoch := s.epoch + 1), s')
  {
    var t :| Represents(s, t, lm);
    AcceptedPath(s, t, lm, rq.path, rq.key);
    var e := DeleteStep(s, t, lm, rq);
    TreeOfIs(s, t, lm);
    var s' := Delete(s, rq).value;
    StateSorted(s);
    StateSorted(s');
    hide Represents, Edited, Delete, EntriesIn;
    RemovedMap(StateEntries(s), StateEntries(s'), e);
  }
}
