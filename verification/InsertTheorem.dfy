// Insert as a whole: exactly one binding is added, and the tree stays well formed.
module InsertTheorem {
  import opened Base
  import opened NodeViews
  import opened Shapes
  import opened Engine
  import opened Represent
  import opened Search
  import opened Edits
  import opened TopProof
  import opened InsertProof
  import opened MapModel

  lemma TopReady(s: State, t: Tree, lm: nat)
    requires Represents(s, t, lm)
    ensures Ready(s, t, s.height, 0, KEY_LIMIT, Occ(s.fanout, lm), 0)
    ensures AllShaped(s.nodes)
  {
    RepresentsShaped(s, t, lm);
    hide Rep, WFNode, Ids, LeafIds, Chain, Below;
    KeysDistinct(s.nodes, Ids(t));
  }

  lemma FreshUnusedTop(s: State, t: Tree, lm: nat, b: nat)
    requires Represents(s, t, lm)
    ensures Unused(Fresh(s.highWater, b), Ids(t), multiset{})
    ensures forall x: nat | x in Fresh(s.highWater, b) :: 1 <= x <= b
  {
    FreshRange(s.highWater, b);
    hide Rep, WFNode, Ids, LeafIds, Chain;
    KeysDistinct(s.nodes, Ids(t));
  }

  lemma KeptFacts(s: State, t: Tree, lm: nat, u: Rise, mk: seq<Key>, ms: seq<Tree>, e: Entry)
    requires t.TNode? ==> |t.keys| >= 1
    requires Risen(s, u, t, mk, ms, e, s.height, 0, KEY_LIMIT, Occ(s.fanout, lm), 0) && !u.split
    ensures ms == [ms[0]] && ms[0].idx == t.idx
    ensures WFNode(ms[0], s.height, 0, KEY_LIMIT, Occ(s.fanout, lm)) && (ms[0].TNode? ==> |ms[0].keys| >= 1)
    ensures Flat([t], ms, [], [e], multiset{}, Fresh(s.highWater, u.s.highWater))
    ensures Stored(s.nodes, u.s.nodes, [t], ms, Fresh(s.highWater, u.s.highWater), 0)
    ensures u.s == s.(nodes := u.s.nodes, highWater := s.highWater + u.used, rightmost := LastOf(LeafIdsOf(ms)))
  {
    hide Flat, Stored, Fresh, LeafIdsOf, WFKids;
  }

  // The root did not split.
  lemma RootKept(s: State, t: Tree, lm: nat, u: Rise, mk: seq<Key>, ms: seq<Tree>, e: Entry)
    requires Represents(s, t, lm)
    requires Risen(s, u, t, mk, ms, e, s.height, 0, KEY_LIMIT, Occ(s.fanout, lm), 0) && !u.split
    ensures |ms| == 1 && Represents(u.s, ms[0], lm) && Edited(Entries(t), Entries(ms[0]), [], [e])
  {
    hide Risen, Rep, WFNode, Ids, LeafIds, LeafIdsOf, Chain, Flat, Stored, Unused, Fresh, Below;
    KeptFacts(s, t, lm, u, mk, ms, e);
    FreshUnusedTop(s, t, lm, u.s.highWater);
    FlattenOne(ms[0]);
    TopRepresents(s, u.s, t, ms[0], lm, [], [e], multiset{}, Fresh(s.highWater, u.s.highWater));
  }

  // A new root above the two halves of the old one.
  lemma CapStored(st: Store, st': Store, ts: seq<Tree>, n: nat, mk: seq<Key>, ms: seq<Tree>, plus: multiset<nat>, nx: nat)
    requires Stored(st, st', ts, ms, plus, nx) && n !in IdsOf(ms)
    ensures Stored(st, st'[n := Inner(mk, Tops(ms))], ts, [TNode(n, mk, ms)], plus + multiset{n}, nx)
  {
    hide LeafIdsOf, IdsOf, RepAll, Chain, Rep, Tops, SameOutside;
    var v := Inner(mk, Tops(ms));
    NodeFlattens(n, mk, ms);
    RewriteUnused(st', n, v, ms);
    LinksUnused(st', n, v, ms, nx);
    RepNode(st'[n := v], n, mk, ms);
    SameBeside(st, st', n, v, IdsOf(ts), plus);
  }

  lemma CapFlat(ts: seq<Tree>, n: nat, mk: seq<Key>, ms: seq<Tree>, cut: seq<Entry>, put: seq<Entry>, minus: multiset<nat>, plus: multiset<nat>)
    requires Flat(ts, ms, cut, put, minus, plus)
    ensures Flat(ts, [TNode(n, mk, ms)], cut, put, minus, plus + multiset{n})
  {
    hide LeafIdsOf, IdsOf, EntriesOf, Edited;
    NodeFlattens(n, mk, ms);
    assert multiset{n} + IdsOf(ms) + minus == (IdsOf(ms) + minus) + multiset{n};
  }

  lemma GrowRootIs(u: Rise, spares: seq<nat>)
    requires u.used <= |spares| && GrowRoot(u, spares).Ok?
    ensures var n := u.s.highWater + 1;
            GrowRoot(u, spares).value
            == u.s.(highWater := n, root := n, height := u.s.height + 1, nodes := u.s.nodes[n := Inner([u.sep], [u.s.root, u.right])])
    ensures u.s.height < MAX_TREE_HEIGHT && u.s.highWater + 1 !in u.s.nodes
  {
    var n, v := u.s.highWater + 1, Inner([u.sep], [u.s.root, u.right]);
    assert u.s.nodes[n := ZEROED][n := v] == u.s.nodes[n := v];
  }

  lemma GrownFacts(s: State, t: Tree, lm: nat, u: Rise, mk: seq<Key>, ms: seq<Tree>, e: Entry, n: nat)
    requires t.idx == s.root && FanoutOk(s.fanout) && 1 <= s.height
    requires Risen(s, u, t, mk, ms, e, s.height, 0, KEY_LIMIT, Occ(s.fanout, lm), 0) && u.split
    ensures mk == [u.sep] && Tops(ms) == [u.s.root, u.right]
    ensures WFNode(TNode(n, mk, ms), s.height + 1, 0, KEY_LIMIT, Occ(s.fanout, lm))
    ensures Flat([t], ms, [], [e], multiset{}, Fresh(s.highWater, u.s.highWater))
    ensures Stored(s.nodes, u.s.nodes, [t], ms, Fresh(s.highWater, u.s.highWater), 0)
    ensures u.s == s.(nodes := u.s.nodes, highWater := s.highWater + u.used, rightmost := LastOf(LeafIdsOf(ms)))
  {
    hide Flat, Stored, Fresh, LeafIdsOf;
    assert ms == [ms[0], ms[1]] && mk == [u.sep];
    assert Tops(ms) == [u.s.root, u.right];
    assert WFKids(mk, ms, s.height, 0, KEY_LIMIT, Occ(s.fanout, lm));
    hide WFKids;
  }

  lemma RootGrown(s: State, t: Tree, lm: nat, u: Rise, mk: seq<Key>, ms: seq<Tree>, e: Entry, spares: seq<nat>)
    returns (t': Tree)
    requires Represents(s, t, lm)
    requires Risen(s, u, t, mk, ms, e, s.height, 0, KEY_LIMIT, Occ(s.fanout, lm), 0) && u.split
    requires u.used <= |spares| && GrowRoot(u, spares).Ok?
    ensures Represents(GrowRoot(u, spares).value, t', lm) && Edited(Entries(t), Entries(t'), [], [e])
  {
    hide Risen, Rep, WFNode, Ids, LeafIdsOf, Chain, Flat, Unused, Below, GrowRoot, WFKids, Tops, SameOutside, RepAll;
    var n := u.s.highWater + 1;
    var s' := GrowRoot(u, spares).value;
    GrowRootIs(u, spares);
    GrownFacts(s, t, lm, u, mk, ms, e, n);
    RootIndexUnused(u, ms);
    hide Stored;
    t' := TNode(n, mk, ms);
    FreshUnusedTop(s, t, lm, n);
    NodeFlattens(n, mk, ms);
    assert Fresh(s.highWater, n) == Fresh(s.highWater, u.s.highWater) + multiset{n};
    hide Fresh;
    CapFlat([t], n, mk, ms, [], [e], multiset{}, Fresh(s.highWater, u.s.highWater));
    CapStored(s.nodes, u.s.nodes, [t], n, mk, ms, Fresh(s.highWater, u.s.highWater), 0);
    TopRepresents(s, s', t, t', lm, [], [e], multiset{}, Fresh(s.highWater, n));
  }

  lemma RootIndexUnused(u: Rise, ms: seq<Tree>)
    requires RepAll(u.s.nodes, ms) && u.s.highWater + 1 !in u.s.nodes
    ensures u.s.highWater + 1 !in IdsOf(ms)
  {
    RepAllIds(u.s.nodes, ms);
  }

  lemma Rebumped(s: State, t: Tree, lm: nat)
    requires Represents(s, t, lm)
    ensures Represents(s.Bumped(), t, lm)
  {
  }

  lemma InsertRepresents(s: State, t: Tree, lm: nat, e: Entry, path: seq<nat>, spares: seq<nat>)
    returns (t': Tree)
    requires Represents(s, t, lm) && AllShaped(s.nodes)
    requires Insert(s, e, path, spares).Ok?
    ensures Represents(Insert(s, e, path, spares).value, t', lm)
    ensures Edited(Entries(t), Entries(t'), [], [e])
  {
    TopReady(s, t, lm);
    DescendIff(s, t, path, e.key, 0, s.height, 0, KEY_LIMIT, Occ(s.fanout, lm));
    assert path[0..] == path;
    hide Ready, Risen, Rep, WFNode, Chain, InsertUp, GrowRoot;
    var u := InsertUp(s, path, e, spares, 0).value;
    var mk, ms := InsertUpRises(s, path, e, spares, 0, t, s.height, 0, KEY_LIMIT, Occ(s.fanout, lm), 0);
    assert u.split ==> u.used > 0 by { RisenSplit(s, u, t, mk, ms, e, s.height, lm); }
    hide Represents;
    if u.split {
      t' := RootGrown(s, t, lm, u, mk, ms, e, spares);
      Rebumped(GrowRoot(u, spares).value, t', lm);
    } else {
      RootKept(s, t, lm, u, mk, ms, e);
      t' := ms[0];
      Rebumped(u.s, t', lm);
    }
  }

  lemma RisenSplit(s: State, u: Rise, t: Tree, mk: seq<Key>, ms: seq<Tree>, e: Entry, h: nat, lm: nat)
    requires Risen(s, u, t, mk, ms, e, h, 0, KEY_LIMIT, Occ(s.fanout, lm), 0)
    ensures u.split ==> u.used > 0
  {
  }

  lemma FirstInsert(s: State, lm: nat, e: Entry, path: seq<nat>, spares: seq<nat>)
    requires EmptyTree(s, lm) && Insert(s, e, path, spares).Ok?
    ensures Represents(Insert(s, e, path, spares).value, TLeaf(s.highWater + 1, [e]), lm)
  {
    var n := s.highWater + 1;
    var s', t := Insert(s, e, path, spares).value, TLeaf(n, [e]);
    assert s'.nodes == map[n := Leaf([e], 0)];
    assert LeafIds(t) == [n];
    assert multiset(s'.nodes.Keys) == multiset{n};
  }

  // An accepted Insert adds its key, which was not there, and nothing else changes.
  lemma InsertCorrect(s: State, lm: nat, e: Entry, path: seq<nat>, spares: seq<nat>)
    requires ValidWith(s, lm) && Valid(s) && AllShaped(s.nodes)
    requires Insert(s, e, path, spares).Ok?
    ensures var s' := Insert(s, e, path, spares).value;
            && ValidWith(s', lm) && Valid(s')
            && Edited(StateEntries(s), StateEntries(s'), [], [e])
            && e.key !in Contents(s) && Contents(s') == Contents(s)[e.key := e.val]
  {
    var s' := Insert(s, e, path, spares).value;
    if s.height == 0 {
      FirstInsert(s, lm, e, path, spares);
      TreeOfIs(s', TLeaf(s.highWater + 1, [e]), lm);
      assert EditAt([], [e], [], [e], 0);
    } else {
      var t :| Represents(s, t, lm);
      var t' := InsertRepresents(s, t, lm, e, path, spares);
      TreeOfIs(s, t, lm);
      TreeOfIs(s', t', lm);
    }
    hide Insert, Represents, Edited;
    StateSorted(s);
    StateSorted(s');
    InsertedMap(StateEntries(s), StateEntries(s'), e);
  }
}
