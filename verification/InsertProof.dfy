// Insert: what the split cascade leaves behind.
module InsertProof {
  import opened Base
  import opened NodeViews
  import opened Shapes
  import opened Engine
  import opened Represent
  import opened Search
  import opened Edits

  // The node indices handed out between two allocator states.
  ghost function Fresh(a: nat, b: nat): multiset<nat> {
    if b <= a then multiset{} else Fresh(a, b - 1) + multiset{b}
  }

  lemma {:induction false} FreshRange(a: nat, b: nat)
    ensures forall x: nat :: Fresh(a, b)[x] == (if a < x <= b then 1 else 0)
  {
    if a < b {
      FreshRange(a, b - 1);
    }
  }

  // Shape of what stands in place of subtree `t`: itself, or two halves around a separator.
  ghost predicate RiseShape(t: Tree, split: bool, mk: seq<Key>, ms: seq<Tree>, h: nat, lo: int, hi: int, c: Occ) {
    && |ms| == |mk| + 1 && |mk| == (if split then 1 else 0)
    && ms[0].idx == t.idx
    && if split then WFKids(mk, ms, h, lo, hi, c)
       else WFNode(ms[0], h, lo, hi, c) && ms[0].TLeaf? == t.TLeaf? && Size(ms[0]) >= Size(t)
  }

  // The header when everything up to the root of subtree `t` is done.
  ghost predicate RiseHeader(s: State, u: Rise, ms: seq<Tree>, nx: nat) {
    && u.s == s.(nodes := u.s.nodes, highWater := s.highWater + u.used,
                 rightmost := if nx == 0 then LastOf(LeafIdsOf(ms)) else s.rightmost)
    && (u.split ==> u.used > 0)
  }

  // After the levels of subtree `t` are processed, the store holds `ms` in its place.
  ghost predicate Risen(s: State, u: Rise, t: Tree, mk: seq<Key>, ms: seq<Tree>, e: Entry, h: nat, lo: int, hi: int, c: Occ, nx: nat) {
    && RiseShape(t, u.split, mk, ms, h, lo, hi, c)
    && (u.split ==> mk[0] == u.sep && ms[1].idx == u.right)
    && Flat([t], ms, [], [e], multiset{}, Fresh(s.highWater, u.s.highWater))
    && Stored(s.nodes, u.s.nodes, [t], ms, Fresh(s.highWater, u.s.highWater), nx)
    && RiseHeader(s, u, ms, nx)
  }

  // ---- the leaf level ----

  lemma SplitIntoIs(s: State, idx: nat, v: NodeView, spare: nat, w: NodeView)
    requires SplitInto(s, idx, v, spare, w).Ok?
    ensures var n := s.highWater + 1;
            n !in s.nodes && spare == n
            && SplitInto(s, idx, v, spare, w).value == s.(highWater := n, nodes := s.nodes[idx := v][n := w])
  {
    var n := s.highWater + 1;
    var blank := if w.Leaf? then Leaf([], 0) else ZEROED;
    assert s.nodes[n := blank][idx := v][n := w] == s.nodes[idx := v][n := w];
  }

  lemma PutInOrder(es: seq<Entry>, p: nat, e: Entry, lo: int, hi: int)
    requires p <= |es| && EntriesIn(es, lo, hi) && lo <= e.key < hi
    requires forall k | 0 <= k < p :: es[k].key < e.key
    requires forall k | p <= k < |es| :: e.key < es[k].key
    ensures EntriesIn(es[..p] + [e] + es[p..], lo, hi)
  {
    var es' := es[..p] + [e] + es[p..];
    assert forall k | 0 <= k < |es'| :: es'[k] == if k < p then es[k] else if k == p then e else es[k - 1];
  }

  lemma InsertedIn(es: seq<Entry>, e: Entry, lo: int, hi: int)
    requires EntriesIn(es, lo, hi) && lo <= e.key < hi && !Holds(es, e.key)
    ensures EntriesIn(Inserted(es, e), lo, hi)
    ensures Edited(es, Inserted(es, e), [], [e])
  {
    var p := Pos(es, e.key);
    assert forall k | p <= k < |es| :: e.key < es[k].key;
    hide Holds, EntriesIn;
    PutInOrder(es, p, e, lo, hi);
    assert EditAt(es, Inserted(es, e), [], [e], p);
  }

  lemma HalvesIn(es: seq<Entry>, half: nat, lo: int, hi: int)
    requires EntriesIn(es, lo, hi) && 0 < half < |es|
    ensures lo < es[half].key < hi
    ensures EntriesIn(es[..half], lo, es[half].key) && EntriesIn(es[half..], es[half].key, hi)
  {
    assert es[0].key < es[half].key;
  }

  lemma LeafOneStored(st: Store, idx: nat, es: seq<Entry>, v: NodeView, nx: nat)
    requires LeafTo(st, idx, nx) && v.Leaf? && v.next == nx
    ensures Stored(st, st[idx := v], [TLeaf(idx, es)], [TLeaf(idx, v.es)], multiset{}, nx)
  {
    var t, t' := TLeaf(idx, es), TLeaf(idx, v.es);
    FlattenOne(t);
    FlattenOne(t');
    hide IdsOf, LeafIdsOf;
    assert IdsOf([t]) == IdsOf([t']) == multiset{idx} && LeafIdsOf([t']) == [idx];
    forall x: nat | x !in IdsOf([t]) + multiset{} ensures x != idx { }
    assert RepAll(st[idx := v], [t']);
    assert Chain(st[idx := v], [idx], nx);
    assert SameOutside(st, st[idx := v], IdsOf([t]) + multiset{});
  }

  lemma LeafOneFlat(idx: nat, es: seq<Entry>, es': seq<Entry>, cut: seq<Entry>, put: seq<Entry>)
    requires Edited(es, es', cut, put)
    ensures Flat([TLeaf(idx, es)], [TLeaf(idx, es')], cut, put, multiset{}, multiset{})
  {
    FlattenOne(TLeaf(idx, es));
    FlattenOne(TLeaf(idx, es'));
  }

  lemma LeafTwoFlat(idx: nat, es: seq<Entry>, es': seq<Entry>, half: nat, n: nat, cut: seq<Entry>, put: seq<Entry>)
    requires Edited(es, es', cut, put) && half <= |es'|
    ensures Flat([TLeaf(idx, es)], [TLeaf(idx, es'[..half]), TLeaf(n, es'[half..])], cut, put, multiset{}, multiset{n})
  {
    FlattenOne(TLeaf(idx, es));
    FlattenTwo(TLeaf(idx, es'[..half]), TLeaf(n, es'[half..]));
    assert es'[..half] + es'[half..] == es';
  }

  lemma LeafTwoStored(st: Store, idx: nat, es: seq<Entry>, a: seq<Entry>, n: nat, b: seq<Entry>, nx: nat)
    requires LeafTo(st, idx, nx) && n !in st
    ensures Stored(st, st[idx := Leaf(a, n)][n := Leaf(b, nx)], [TLeaf(idx, es)], [TLeaf(idx, a), TLeaf(n, b)], multiset{n}, nx)
    ensures LeafIdsOf([TLeaf(idx, a), TLeaf(n, b)]) == [idx, n]
  {
    var t, l, r := TLeaf(idx, es), TLeaf(idx, a), TLeaf(n, b);
    var st' := st[idx := Leaf(a, n)][n := Leaf(b, nx)];
    FlattenOne(t);
    FlattenTwo(l, r);
    assert Ids(l) == multiset{idx} && Ids(r) == multiset{n} && LeafIds(l) + LeafIds(r) == [idx, n];
    hide IdsOf, LeafIdsOf;
    assert RepAll(st', [l, r]);
    assert Chain(st', [idx, n], nx);
    forall x: nat | x !in IdsOf([t]) + multiset{n} ensures x != idx && x != n { }
    assert SameOutside(st, st', IdsOf([t]) + multiset{n});
  }

  lemma InsertLeafRises(s: State, t: Tree, e: Entry, spares: seq<nat>, lo: int, hi: int, c: Occ, nx: nat)
    returns (mk: seq<Key>, ms: seq<Tree>)
    requires t.TLeaf? && Rep(s.nodes, t) && WFNode(t, 1, lo, hi, c) && OccOk(s, c) && Below(s)
    requires lo <= e.key < hi && LeafTo(s.nodes, t.idx, nx)
    requires nx == 0 ==> s.rightmost == t.idx
    requires InsertLeaf(s, t.idx, e, spares).Ok?
    ensures Risen(s, InsertLeaf(s, t.idx, e, spares).value, t, mk, ms, e, 1, lo, hi, c, nx)
  {
    InsertedIn(t.es, e, lo, hi);
    if |Inserted(t.es, e)| <= s.fanout {
      mk, ms := [], [TLeaf(t.idx, Inserted(t.es, e))];
      InsertLeafFits(s, t, e, spares, lo, hi, c, nx);
    } else {
      mk, ms := LeafSplits(s, t, Inserted(t.es, e), e, spares, lo, hi, c, nx);
    }
  }

  lemma InsertLeafFits(s: State, t: Tree, e: Entry, spares: seq<nat>, lo: int, hi: int, c: Occ, nx: nat)
    requires t.TLeaf? && Rep(s.nodes, t) && OccOk(s, c)
    requires EntriesIn(Inserted(t.es, e), lo, hi) && Edited(t.es, Inserted(t.es, e), [], [e])
    requires LeafTo(s.nodes, t.idx, nx)
    requires nx == 0 ==> s.rightmost == t.idx
    requires |Inserted(t.es, e)| <= s.fanout
    requires InsertLeaf(s, t.idx, e, spares).Ok?
    ensures Risen(s, InsertLeaf(s, t.idx, e, spares).value, t, [], [TLeaf(t.idx, Inserted(t.es, e))], e, 1, lo, hi, c, nx)
  {
    hide Holds, Edited, EntriesIn;
    var es' := Inserted(t.es, e);
    LeafOneFlat(t.idx, t.es, es', [], [e]);
    LeafOneStored(s.nodes, t.idx, t.es, Leaf(es', nx), nx);
    FlattenOne(TLeaf(t.idx, es'));
    hide Inserted, Stored, Flat, LeafIdsOf;
  }

  lemma LeafSplits(s: State, t: Tree, es': seq<Entry>, e: Entry, spares: seq<nat>, lo: int, hi: int, c: Occ, nx: nat)
    returns (mk: seq<Key>, ms: seq<Tree>)
    requires t.TLeaf? && t.idx in s.nodes && s.nodes[t.idx].Leaf? && OccOk(s, c) && Below(s)
    requires EntriesIn(es', lo, hi) && Edited(t.es, es', [], [e])
    requires LeafTo(s.nodes, t.idx, nx)
    requires nx == 0 ==> s.rightmost == t.idx
    requires |es'| == s.fanout + 1
    requires SplitLeaf(s, t.idx, es', nx, spares).Ok?
    ensures Risen(s, SplitLeaf(s, t.idx, es', nx, spares).value, t, mk, ms, e, 1, lo, hi, c, nx)
  {
    hide Edited, EntriesIn, SplitInto, Stored, Flat, WFKids, LeafIdsOf;
    var half, n := |es'| / 2, s.highWater + 1;
    SplitIntoIs(s, t.idx, Leaf(es'[..half], n), spares[0], Leaf(es'[half..], nx));
    mk, ms := [es'[half].key], [TLeaf(t.idx, es'[..half]), TLeaf(n, es'[half..])];
    HalvesIn(es', half, lo, hi);
    LeafSplitShape(t.idx, n, es', half, lo, hi, c);
    LeafTwoFlat(t.idx, t.es, es', half, n, [], [e]);
    LeafTwoStored(s.nodes, t.idx, t.es, es'[..half], n, es'[half..], nx);
    assert Fresh(s.highWater, n) == multiset{n};
  }

  lemma LeafSplitShape(idx: nat, n: nat, es: seq<Entry>, half: nat, lo: int, hi: int, c: Occ)
    requires 0 < half < |es| && c.leafMin <= half <= c.fanout && c.leafMin <= |es| - half <= c.fanout
    requires lo < es[half].key < hi
    requires EntriesIn(es[..half], lo, es[half].key) && EntriesIn(es[half..], es[half].key, hi)
    ensures WFKids([es[half].key], [TLeaf(idx, es[..half]), TLeaf(n, es[half..])], 1, lo, hi, c)
  {
    var mk, ms := [es[half].key], [TLeaf(idx, es[..half]), TLeaf(n, es[half..])];
    assert mk[1..] == [] && ms[1..] == [ms[1]];
    assert WFKids(mk[1..], ms[1..], 1, mk[0], hi, c);
  }

  // ---- an internal level ----

  lemma FreshUnused(s: State, b: nat, ids: multiset<nat>)
    requires Below(s) && forall x: nat | x in ids :: x in s.nodes
    ensures forall x: nat | x in Fresh(s.highWater, b) :: x !in ids
  {
    FreshRange(s.highWater, b);
  }

  // The children of the node above a processed subtree.
  lemma KidsRisen(s: State, u: Rise, keys: seq<Key>, kids: seq<Tree>, j: nat, mk: seq<Key>, ms: seq<Tree>, e: Entry,
                  h: nat, lo: int, hi: int, c: Occ, nx: nat)
    requires j <= |keys| && WFKids(keys, kids, h, lo, hi, c) && |kids| == |keys| + 1
    requires RepAll(s.nodes, kids) && Chain(s.nodes, LeafIdsOf(kids), nx) && NoDup(IdsOf(kids)) && Below(s)
    requires Risen(s, u, kids[j], mk, ms, e, h, LoAt(keys, lo, j), HiAt(keys, hi, j), c, FirstOr(LeafIdsOf(kids[j + 1..]), nx))
    ensures WFKids(Replaced(keys, j, j, mk), Replaced(kids, j, j + 1, ms), h, lo, hi, c)
    ensures Flat(kids, Replaced(kids, j, j + 1, ms), [], [e], multiset{}, Fresh(s.highWater, u.s.highWater))
    ensures Stored(s.nodes, u.s.nodes, kids, Replaced(kids, j, j + 1, ms), Fresh(s.highWater, u.s.highWater), nx)
  {
    hide IdsOf, LeafIdsOf, EntriesOf, RepAll, Chain, NoDup, SameOutside, WFKids, Fresh, Edited, FirstOr;
    assert kids[j..j + 1] == [kids[j]];
    RepAllIds(s.nodes, kids);
    FreshUnused(s, u.s.highWater, IdsOf(kids));
    FlatContext(kids, j, j + 1, ms, [], [e], multiset{}, Fresh(s.highWater, u.s.highWater));
    StoredContext(s.nodes, u.s.nodes, kids, j, j + 1, ms, Fresh(s.highWater, u.s.highWater), nx);
    KidsShape(keys, kids, j, u.split, mk, ms, h, lo, hi, c);
  }

  lemma KidsShape(keys: seq<Key>, kids: seq<Tree>, j: nat, split: bool, mk: seq<Key>, ms: seq<Tree>, h: nat, lo: int, hi: int, c: Occ)
    requires j <= |keys| && WFKids(keys, kids, h, lo, hi, c) && |kids| == |keys| + 1
    requires RiseShape(kids[j], split, mk, ms, h, LoAt(keys, lo, j), HiAt(keys, hi, j), c)
    ensures WFKids(Replaced(keys, j, j, mk), Replaced(kids, j, j + 1, ms), h, lo, hi, c)
  {
    WFKid(keys, kids, j, h, lo, hi, c);
    assert WFKids(mk, ms, h, LoAt(keys, lo, j), HiAt(keys, hi, j), c);
    hide WFKids;
    WFKidsSplice(keys, kids, j, j, mk, ms, h, lo, hi, c);
  }

  // The node rewritten with its processed children, still possibly one separator too many.
  lemma WideNode(s: State, u: Rise, t: Tree, keys': seq<Key>, kids': seq<Tree>, e: Entry, nx: nat)
    requires t.TNode? && Below(s) && t.idx in s.nodes && t.idx !in IdsOf(t.kids)
    requires Flat(t.kids, kids', [], [e], multiset{}, Fresh(s.highWater, u.s.highWater))
    requires Stored(s.nodes, u.s.nodes, t.kids, kids', Fresh(s.highWater, u.s.highWater), nx)
    ensures t.idx !in IdsOf(kids')
    ensures t.idx in u.s.nodes && u.s.nodes[t.idx] == s.nodes[t.idx]
    ensures Flat([t], [TNode(t.idx, keys', kids')], [], [e], multiset{}, Fresh(s.highWater, u.s.highWater))
    ensures Stored(s.nodes, u.s.nodes[t.idx := Inner(keys', Tops(kids'))], [t], [TNode(t.idx, keys', kids')],
                   Fresh(s.highWater, u.s.highWater), nx)
  {
    hide IdsOf, LeafIdsOf, EntriesOf, RepAll, Chain, Edited;
    FreshRange(s.highWater, u.s.highWater);
    hide Fresh;
    assert t.idx !in IdsOf(t.kids) + Fresh(s.highWater, u.s.highWater);
    WrapFlat(t.idx, t.keys, t.kids, keys', kids', [], [e], multiset{}, Fresh(s.highWater, u.s.highWater));
    WrapStored(s.nodes, u.s.nodes, t.idx, t.keys, t.kids, keys', kids', Fresh(s.highWater, u.s.highWater), nx);
  }

  lemma LastOfJoin(a: seq<nat>, b: seq<nat>, b': seq<nat>, c: seq<nat>)
    requires b != [] && b' != []
    ensures LastOf(a + b' + c) == (if c == [] then LastOf(b') else LastOf(c))
    ensures c != [] ==> LastOf(a + b + c) == LastOf(c)
  {
  }

  lemma RiseRightmost(s: State, u: Rise, kids: seq<Tree>, j: nat, ms: seq<Tree>, nx: nat)
    requires j < |kids| && Below(s) && RepAll(s.nodes, kids)
    requires LeafIdsOf(kids[j..j + 1]) != [] && LeafIdsOf(ms) != []
    requires nx == 0 ==> s.rightmost == LastOf(LeafIdsOf(kids))
    requires RiseHeader(s, u, ms, FirstOr(LeafIdsOf(kids[j + 1..]), nx))
    ensures RiseHeader(s, u, Replaced(kids, j, j + 1, ms), nx)
  {
    var a, b, c := kids[..j], kids[j..j + 1], kids[j + 1..];
    LeafIdsPositive(s, kids[j + 1..]);
    hide LeafIdsOf, RepAll;
    FlattenCut(kids, j, j + 1);
    FlattenJoin(a, ms, c);
    LastOfJoin(LeafIdsOf(a), LeafIdsOf(b), LeafIdsOf(ms), LeafIdsOf(c));
  }

  lemma LeafIdsPositive(s: State, ts: seq<Tree>)
    requires Below(s) && RepAll(s.nodes, ts)
    ensures forall i | 0 <= i < |LeafIdsOf(ts)| :: LeafIdsOf(ts)[i] >= 1
  {
    LeafIdsOfInIds(ts);
    RepAllIds(s.nodes, ts);
  }

  // A subtree the cascade can start from, with its leaf chain leading on to `nx`.
  ghost predicate Ready(s: State, t: Tree, h: nat, lo: int, hi: int, c: Occ, nx: nat) {
    && Below(s) && OccOk(s, c)
    && Rep(s.nodes, t) && WFNode(t, h, lo, hi, c)
    && NoDup(Ids(t)) && Chain(s.nodes, LeafIds(t), nx)
    && (nx == 0 ==> s.rightmost == LastOf(LeafIds(t)))
  }

  // What is known when the levels below node `t` are processed.
  ghost predicate AtInner(s: State, u: Rise, t: Tree, j: nat, mk: seq<Key>, ms: seq<Tree>, e: Entry,
                          h: nat, lo: int, hi: int, c: Occ, nx: nat) {
    && t.TNode? && h > 1 && j <= |t.keys| && |t.kids| == |t.keys| + 1
    && Ready(s, t, h, lo, hi, c, nx)
    && Risen(s, u, t.kids[j], mk, ms, e, h - 1, LoAt(t.keys, lo, j), HiAt(t.keys, hi, j), c,
             FirstOr(LeafIdsOf(t.kids[j + 1..]), nx))
  }

  lemma NoDupKids(t: Tree)
    requires t.TNode? && NoDup(Ids(t))
    ensures NoDup(IdsOf(t.kids)) && t.idx !in IdsOf(t.kids)
  {
    forall x: nat ensures IdsOf(t.kids)[x] <= 1 {
      assert Ids(t)[x] <= 1;
    }
    assert Ids(t)[t.idx] <= 1;
  }

  lemma InnerFacts(s: State, u: Rise, t: Tree, j: nat, mk: seq<Key>, ms: seq<Tree>, e: Entry,
                   h: nat, lo: int, hi: int, c: Occ, nx: nat)
    requires AtInner(s, u, t, j, mk, ms, e, h, lo, hi, c, nx)
    ensures t.TNode? && j <= |t.keys| && |t.kids| == |t.keys| + 1 && h > 1
    ensures WFKids(t.keys, t.kids, h - 1, lo, hi, c)
    ensures t.idx in s.nodes && s.nodes[t.idx] == Inner(t.keys, Tops(t.kids))
    ensures RepAll(s.nodes, t.kids) && Chain(s.nodes, LeafIdsOf(t.kids), nx)
    ensures NoDup(IdsOf(t.kids)) && t.idx !in IdsOf(t.kids)
    ensures nx == 0 ==> s.rightmost == LastOf(LeafIdsOf(t.kids))
    ensures LeafIdsOf(t.kids[j..j + 1]) != [] && LeafIdsOf(ms) != []
  {
    NoDupKids(t);
    assert t.kids[j..j + 1] == [t.kids[j]];
    hide WFKids, RepAll, Chain, IdsOf, LeafIdsOf, NoDup, Below, Stored, RiseShape, RiseHeader, Edited;
  }

  // The children of `t` once processed, ready to be written into it.
  lemma InnerReady(s: State, u: Rise, t: Tree, j: nat, mk: seq<Key>, ms: seq<Tree>, e: Entry,
                   h: nat, lo: int, hi: int, c: Occ, nx: nat)
    returns (keys': seq<Key>, kids': seq<Tree>)
    requires AtInner(s, u, t, j, mk, ms, e, h, lo, hi, c, nx)
    ensures keys' == Replaced(t.keys, j, j, mk) && kids' == Replaced(t.kids, j, j + 1, ms)
    ensures WFKids(keys', kids', h - 1, lo, hi, c)
    ensures RiseHeader(s, u, kids', nx)
    ensures t.idx in u.s.nodes && u.s.nodes[t.idx] == Inner(t.keys, Tops(t.kids))
    ensures t.idx !in IdsOf(t.kids) && t.idx !in IdsOf(kids')
    ensures Flat(t.kids, kids', [], [e], multiset{}, Fresh(s.highWater, u.s.highWater))
    ensures Stored(s.nodes, u.s.nodes, t.kids, kids', Fresh(s.highWater, u.s.highWater), nx)
    ensures Flat([t], [TNode(t.idx, keys', kids')], [], [e], multiset{}, Fresh(s.highWater, u.s.highWater))
    ensures Stored(s.nodes, u.s.nodes[t.idx := Inner(keys', Tops(kids'))], [t], [TNode(t.idx, keys', kids')],
                   Fresh(s.highWater, u.s.highWater), nx)
  {
    hide WFKids, WFNode, Rep, RepAll, Chain, IdsOf, Ids, LeafIdsOf, LeafIds, EntriesOf, NoDup, Below, Stored, Flat,
      RiseShape, RiseHeader, Fresh, Replaced, FirstOr, OccOk, Tops;
    InnerFacts(s, u, t, j, mk, ms, e, h, lo, hi, c, nx);
    keys', kids' := Replaced(t.keys, j, j, mk), Replaced(t.kids, j, j + 1, ms);
    KidsRisen(s, u, t.keys, t.kids, j, mk, ms, e, h - 1, lo, hi, c, nx);
    RiseRightmost(s, u, t.kids, j, ms, nx);
    WideNode(s, u, t, keys', kids', e, nx);
  }

  // No split below: the node itself is not written.
  lemma InnerAbsorbs(s: State, u: Rise, t: Tree, j: nat, mk: seq<Key>, ms: seq<Tree>, e: Entry,
                     h: nat, lo: int, hi: int, c: Occ, nx: nat)
    requires AtInner(s, u, t, j, mk, ms, e, h, lo, hi, c, nx) && !u.split
    ensures Risen(s, u, t, [], [TNode(t.idx, t.keys, Replaced(t.kids, j, j + 1, ms))], e, h, lo, hi, c, nx)
  {
    hide WFKids, Rep, RepAll, Chain, IdsOf, Ids, LeafIdsOf, LeafIds, EntriesOf, NoDup, Below, Stored, Flat, Fresh, FirstOr, OccOk;
    var keys', kids' := InnerReady(s, u, t, j, mk, ms, e, h, lo, hi, c, nx);
    assert keys' == t.keys;
    NodeFlattens(t.idx, keys', kids');
    assert Tops(kids') == Tops(t.kids);
    assert u.s.nodes[t.idx := Inner(keys', Tops(kids'))] == u.s.nodes;
  }

  // What the split child puts into the node's arrays.
  lemma InsertInnerArrays(t: Tree, j: nat, sep: Key, ms: seq<Tree>, h: nat, lo: int, hi: int, c: Occ)
    requires t.TNode? && j <= |t.keys| && |t.kids| == |t.keys| + 1 && WFKids(t.keys, t.kids, h, lo, hi, c)
    requires RiseShape(t.kids[j], true, [sep], ms, h, LoAt(t.keys, lo, j), HiAt(t.keys, hi, j), c)
    ensures LowerBound(t.keys, sep) == j
    ensures InsertAt(t.keys, j, sep) == Replaced(t.keys, j, j, [sep])
    ensures KidInsertAt(Tops(t.kids), j, ms[1].idx) == Tops(Replaced(t.kids, j, j + 1, ms))
  {
    assert LoAt(t.keys, lo, j) < sep < HiAt(t.keys, hi, j);
    hide WFKids, WF;
    SepPosition(t.keys, t.kids, sep, j, h, lo, hi, c);
    assert ms == [ms[0], ms[1]];
  }

  lemma TopsHalves(ts: seq<Tree>, i: nat)
    requires i <= |ts|
    ensures Tops(ts)[..i] == Tops(ts[..i]) && Tops(ts)[i..] == Tops(ts[i..])
  {
  }

  lemma InnerSplitFacts(s: State, u: Rise, t: Tree, j: nat, mk: seq<Key>, ms: seq<Tree>, e: Entry,
                        h: nat, lo: int, hi: int, c: Occ, nx: nat)
    requires AtInner(s, u, t, j, mk, ms, e, h, lo, hi, c, nx) && u.split
    ensures t.TNode? && j <= |t.keys| && |t.kids| == |t.keys| + 1 && h > 1
    ensures |ms| == 2 && mk == [u.sep] && ms[1].idx == u.right
    ensures InsertAt(t.keys, LowerBound(t.keys, u.sep), u.sep) == Replaced(t.keys, j, j, mk)
    ensures KidInsertAt(Tops(t.kids), LowerBound(t.keys, u.sep), u.right) == Tops(Replaced(t.kids, j, j + 1, ms))
    ensures u.s.fanout == s.fanout && u.s.highWater == s.highWater + u.used && u.used > 0 && OccOk(s, c)
    ensures Below(s) && Rep(s.nodes, t)
  {
    hide WFKids, RepAll, Chain, IdsOf, Ids, LeafIdsOf, LeafIds, EntriesOf, NoDup, Below, Stored, Flat, Fresh, FirstOr,
      InsertAt, KidInsertAt;
    assert mk == [u.sep];
    InsertInnerArrays(t, j, u.sep, ms, h - 1, lo, hi, c);
  }

  // A split below that still fits.
  lemma InnerTakes(s: State, u: Rise, t: Tree, j: nat, mk: seq<Key>, ms: seq<Tree>, e: Entry, spares: seq<nat>,
                   h: nat, lo: int, hi: int, c: Occ, nx: nat)
    requires AtInner(s, u, t, j, mk, ms, e, h, lo, hi, c, nx) && u.split
    requires |t.keys| + 1 <= s.fanout && u.used <= |spares|
    requires t.idx in u.s.nodes && u.s.nodes[t.idx] == Inner(t.keys, Tops(t.kids))
    ensures InsertInner(u, t.idx, spares).Ok?
    ensures Risen(s, InsertInner(u, t.idx, spares).value, t, [],
                  [TNode(t.idx, Replaced(t.keys, j, j, mk), Replaced(t.kids, j, j + 1, ms))], e, h, lo, hi, c, nx)
  {
    hide AtInner, WFKids, Rep, RepAll, Chain, IdsOf, Ids, LeafIdsOf, LeafIds, EntriesOf, NoDup, Below, Stored, Flat,
      Fresh, FirstOr, InsertAt, KidInsertAt;
    InnerSplitFacts(s, u, t, j, mk, ms, e, h, lo, hi, c, nx);
    var keys', kids' := InnerReady(s, u, t, j, mk, ms, e, h, lo, hi, c, nx);
    NodeFlattens(t.idx, keys', kids');
  }

  lemma InnerHalves(idx: nat, n: nat, keys: seq<Key>, kids: seq<Tree>, h: nat, lo: int, hi: int, c: Occ)
    requires WFKids(keys, kids, h, lo, hi, c) && |keys| == c.fanout + 1 && c.fanout >= 4 && h >= 1
    ensures |kids| == |keys| + 1
    ensures var mid := |keys| / 2;
            WFKids([keys[mid]], [TNode(idx, keys[..mid], kids[..mid + 1]), TNode(n, keys[mid + 1..], kids[mid + 1..])], h + 1, lo, hi, c)
  {
    assert |kids| == |keys| + 1;
    var mid := |keys| / 2;
    var l, r := TNode(idx, keys[..mid], kids[..mid + 1]), TNode(n, keys[mid + 1..], kids[mid + 1..]);
    assert WF(l, h + 1, lo, keys[mid], c) && WF(r, h + 1, keys[mid], hi, c) && lo < keys[mid] < hi by {
      hide WFKids;
      WFKidsCut(keys, kids, mid, h, lo, hi, c);
    }
    hide WF;
    var mk, ms := [keys[mid]], [l, r];
    assert mk[1..] == [] && ms[1..] == [r];
    assert WFKids(mk[1..], ms[1..], h + 1, mk[0], hi, c);
  }

  // Two halves in the place of one node.
  lemma SplitRisen(s: State, u: Rise, u': Rise, t: Tree, k1: seq<Key>, c1: seq<Tree>, sep: Key, k2: seq<Key>, c2: seq<Tree>,
                   e: Entry, h: nat, lo: int, hi: int, c: Occ, nx: nat)
    requires Below(s) && t.TNode? && Rep(s.nodes, t) && RiseHeader(s, u, c1 + c2, nx)
    requires t.idx !in IdsOf(t.kids) && t.idx !in IdsOf(c1 + c2)
    requires Flat(t.kids, c1 + c2, [], [e], multiset{}, Fresh(s.highWater, u.s.highWater))
    requires Stored(s.nodes, u.s.nodes, t.kids, c1 + c2, Fresh(s.highWater, u.s.highWater), nx)
    requires WFKids([sep], [TNode(t.idx, k1, c1), TNode(u.s.highWater + 1, k2, c2)], h, lo, hi, c)
    requires u' == Rise(u.s.(highWater := u.s.highWater + 1,
                             nodes := u.s.nodes[t.idx := Inner(k1, Tops(c1))][u.s.highWater + 1 := Inner(k2, Tops(c2))]),
                        u.used + 1, true, sep, u.s.highWater + 1)
    ensures Risen(s, u', t, [sep], [TNode(t.idx, k1, c1), TNode(u.s.highWater + 1, k2, c2)], e, h, lo, hi, c, nx)
  {
    hide WFKids, Rep, IdsOf, LeafIdsOf, Below, Stored, Flat, Fresh, Tops;
    var n := u.s.highWater + 1;
    NextIndexUnused(s, u, t, c1 + c2, e);
    SplitFlat(t.idx, t.keys, t.kids, k1, c1, n, k2, c2, [], [e], multiset{}, Fresh(s.highWater, u.s.highWater));
    SplitStored(s.nodes, u.s.nodes, t.idx, t.keys, t.kids, k1, c1, n, k2, c2, Fresh(s.highWater, u.s.highWater), nx);
    TwoFlatten(t.idx, k1, c1, n, k2, c2);
  }

  lemma InsertInnerOverflow(u: Rise, idx: nat, keys: seq<Key>, kids: seq<nat>, keys': seq<Key>, kids': seq<nat>, spares: seq<nat>)
    requires idx in u.s.nodes && u.s.nodes[idx] == Inner(keys, kids) && |kids| == |keys| + 1
    requires u.used <= |spares| && |keys| == u.s.fanout && |keys'| == |keys| + 1 && |kids'| == |keys'| + 1
    requires InsertInner(u, idx, spares).Ok?
    requires keys' == InsertAt(keys, LowerBound(keys, u.sep), u.sep)
    requires kids' == KidInsertAt(kids, LowerBound(keys, u.sep), u.right)
    ensures var n, mid := u.s.highWater + 1, |keys'| / 2;
            InsertInner(u, idx, spares).value
            == Rise(u.s.(highWater := n,
                         nodes := u.s.nodes[idx := Inner(keys'[..mid], kids'[..mid + 1])][n := Inner(keys'[mid + 1..], kids'[mid + 1..])]),
                    u.used + 1, true, keys'[mid], n)
  {
    hide InsertAt, KidInsertAt, SplitInto;
    var mid := |keys'| / 2;
    SplitIntoIs(u.s, idx, Inner(keys'[..mid], kids'[..mid + 1]), spares[u.used], Inner(keys'[mid + 1..], kids'[mid + 1..]));
  }

  // A split below that overflows the node: it splits in turn, and its middle key moves up.
  lemma InnerSplits(s: State, u: Rise, t: Tree, j: nat, mk: seq<Key>, ms: seq<Tree>, e: Entry, spares: seq<nat>,
                    h: nat, lo: int, hi: int, c: Occ, nx: nat)
    returns (mk': seq<Key>, ms': seq<Tree>)
    requires AtInner(s, u, t, j, mk, ms, e, h, lo, hi, c, nx) && u.split
    requires |t.keys| == s.fanout && u.used <= |spares|
    requires t.idx in u.s.nodes && u.s.nodes[t.idx] == Inner(t.keys, Tops(t.kids))
    requires InsertInner(u, t.idx, spares).Ok?
    ensures Risen(s, InsertInner(u, t.idx, spares).value, t, mk', ms', e, h, lo, hi, c, nx)
  {
    hide AtInner, Risen, WFKids, Rep, IdsOf, LeafIdsOf, Below, Stored, Flat, Fresh, FirstOr, InsertAt, KidInsertAt,
      InsertInner, RiseHeader;
    InnerSplitFacts(s, u, t, j, mk, ms, e, h, lo, hi, c, nx);
    var keys', kids' := InnerReady(s, u, t, j, mk, ms, e, h, lo, hi, c, nx);
    var n, mid := u.s.highWater + 1, |keys'| / 2;
    InnerHalves(t.idx, n, keys', kids', h - 1, lo, hi, c);
    InsertInnerOverflow(u, t.idx, t.keys, Tops(t.kids), keys', Tops(kids'), spares);
    TopsHalves(kids', mid + 1);
    assert kids'[..mid + 1] + kids'[mid + 1..] == kids';
    mk', ms' := [keys'[mid]], [TNode(t.idx, keys'[..mid], kids'[..mid + 1]), TNode(n, keys'[mid + 1..], kids'[mid + 1..])];
    SplitRisen(s, u, InsertInner(u, t.idx, spares).value, t, keys'[..mid], kids'[..mid + 1], keys'[mid],
               keys'[mid + 1..], kids'[mid + 1..], e, h, lo, hi, c, nx);
  }

  lemma NextIndexUnused(s: State, u: Rise, t: Tree, kids': seq<Tree>, e: Entry)
    requires Below(s) && t.TNode? && Rep(s.nodes, t) && u.s.highWater >= s.highWater
    requires Flat(t.kids, kids', [], [e], multiset{}, Fresh(s.highWater, u.s.highWater))
    ensures var n := u.s.highWater + 1;
            n !in IdsOf(t.kids) && n !in IdsOf(kids') && n != t.idx
            && Fresh(s.highWater, n) == Fresh(s.highWater, u.s.highWater) + multiset{n}
  {
    FreshRange(s.highWater, u.s.highWater);
    RepAllIds(s.nodes, t.kids);
    hide IdsOf, LeafIdsOf, EntriesOf, Edited;
    var n := u.s.highWater + 1;
    assert n !in IdsOf(t.kids) + Fresh(s.highWater, u.s.highWater);
    assert IdsOf(kids') + multiset{} == IdsOf(kids');
  }

  // ---- all levels ----

  lemma {:induction false} LeafIdsNonEmpty(t: Tree, h: nat, lo: int, hi: int, c: Occ)
    requires WFNode(t, h, lo, hi, c)
    ensures LeafIds(t) != []
    decreases t
  {
    if t.TNode? {
      WFKid(t.keys, t.kids, 0, h - 1, lo, hi, c);
      LeafIdsNonEmpty(t.kids[0], h - 1, lo, HiAt(t.keys, hi, 0), c);
    }
  }

  lemma LastLeafBelow(s: State, kids: seq<Tree>, j: nat, nx: nat)
    requires j < |kids| && Below(s) && RepAll(s.nodes, kids)
    requires LeafIdsOf(kids[j..j + 1]) != []
    requires nx == 0 ==> s.rightmost == LastOf(LeafIdsOf(kids))
    ensures FirstOr(LeafIdsOf(kids[j + 1..]), nx) == 0 ==> s.rightmost == LastOf(LeafIdsOf(kids[j..j + 1]))
  {
    LeafIdsPositive(s, kids[j + 1..]);
    hide LeafIdsOf, RepAll;
    FlattenCut(kids, j, j + 1);
    LastOfJoin(LeafIdsOf(kids[..j]), LeafIdsOf(kids[j..j + 1]), LeafIdsOf(kids[j..j + 1]), LeafIdsOf(kids[j + 1..]));
  }

  lemma ReadyNode(s: State, t: Tree, h: nat, lo: int, hi: int, c: Occ, nx: nat)
    requires Ready(s, t, h, lo, hi, c, nx) && t.TNode?
    ensures h > 1 && |t.kids| == |t.keys| + 1 && WFKids(t.keys, t.kids, h - 1, lo, hi, c) && |t.keys| <= s.fanout
    ensures t.idx in s.nodes && s.nodes[t.idx] == Inner(t.keys, Tops(t.kids))
    ensures RepAll(s.nodes, t.kids) && Chain(s.nodes, LeafIdsOf(t.kids), nx)
    ensures NoDup(IdsOf(t.kids)) && t.idx !in IdsOf(t.kids)
    ensures nx == 0 ==> s.rightmost == LastOf(LeafIdsOf(t.kids))
    ensures Below(s) && OccOk(s, c)
  {
    NoDupKids(t);
    assert WFKids(t.keys, t.kids, h - 1, lo, hi, c);
    hide WF, RepAll, Chain, IdsOf, LeafIdsOf, NoDup, Below;
  }

  // The child on the way is ready in its turn.
  lemma ReadyKid(s: State, t: Tree, j: nat, h: nat, lo: int, hi: int, c: Occ, nx: nat)
    requires Ready(s, t, h, lo, hi, c, nx) && t.TNode? && j <= |t.keys|
    ensures h > 1 && |t.kids| == |t.keys| + 1
    ensures Ready(s, t.kids[j], h - 1, LoAt(t.keys, lo, j), HiAt(t.keys, hi, j), c, FirstOr(LeafIdsOf(t.kids[j + 1..]), nx))
  {
    hide WFKids, WFNode, Rep, RepAll, Chain, IdsOf, Ids, LeafIdsOf, LeafIds, NoDup, Below, FirstOr;
    ReadyNode(s, t, h, lo, hi, c, nx);
    var kids := t.kids;
    assert kids[j..j + 1] == [kids[j]];
    FlattenOne(kids[j]);
    PartsDisjoint(kids, j, j + 1);
    ChainCut(s.nodes, kids, j, j + 1, nx);
    KidWF(t.keys, kids, j, h - 1, lo, hi, c);
    LeafIdsNonEmpty(kids[j], h - 1, LoAt(t.keys, lo, j), HiAt(t.keys, hi, j), c);
    LastLeafBelow(s, kids, j, nx);
    RepKid(s.nodes, kids, j);
  }

  lemma RepKid(st: Store, kids: seq<Tree>, j: nat)
    requires RepAll(st, kids) && j < |kids|
    ensures Rep(st, kids[j])
  {
  }

  lemma KidWF(keys: seq<Key>, kids: seq<Tree>, i: nat, h: nat, lo: int, hi: int, c: Occ)
    requires i <= |keys| && WFKids(keys, kids, h, lo, hi, c)
    ensures |kids| == |keys| + 1
    ensures WFNode(kids[i], h, LoAt(keys, lo, i), HiAt(keys, hi, i), c)
  {
    WFKid(keys, kids, i, h, lo, hi, c);
  }

  lemma LeafReady(s: State, t: Tree, h: nat, lo: int, hi: int, c: Occ, nx: nat)
    requires Ready(s, t, h, lo, hi, c, nx) && t.TLeaf?
    ensures h == 1 && LeafTo(s.nodes, t.idx, nx) && (nx == 0 ==> s.rightmost == t.idx)
  {
    assert LeafIds(t)[0] == t.idx;
  }

  // One internal level, in its three cases.
  lemma InnerRises(s: State, u: Rise, t: Tree, j: nat, mk: seq<Key>, ms: seq<Tree>, e: Entry, spares: seq<nat>,
                   h: nat, lo: int, hi: int, c: Occ, nx: nat)
    returns (mk': seq<Key>, ms': seq<Tree>)
    requires AtInner(s, u, t, j, mk, ms, e, h, lo, hi, c, nx) && u.used <= |spares|
    requires t.idx in u.s.nodes && u.s.nodes[t.idx].Inner? && Shaped(u.s.nodes[t.idx])
    requires u.split ==> InsertInner(u, t.idx, spares).Ok?
    ensures Risen(s, if u.split then InsertInner(u, t.idx, spares).value else u, t, mk', ms', e, h, lo, hi, c, nx)
  {
    ReadyNode(s, t, h, lo, hi, c, nx);
    hide AtInner, Ready, WFKids, WFNode, Rep, RepAll, Chain, IdsOf, Ids, LeafIdsOf, LeafIds, NoDup, Below, Risen,
      Replaced, Tops, InsertInner, Stored, Flat, FirstOr;
    if !u.split {
      mk', ms' := [], [TNode(t.idx, t.keys, Replaced(t.kids, j, j + 1, ms))];
      InnerAbsorbs(s, u, t, j, mk, ms, e, h, lo, hi, c, nx);
    } else {
      var keys', kids' := InnerReady(s, u, t, j, mk, ms, e, h, lo, hi, c, nx);
      if |t.keys| + 1 <= s.fanout {
        mk', ms' := [], [TNode(t.idx, Replaced(t.keys, j, j, mk), Replaced(t.kids, j, j + 1, ms))];
        InnerTakes(s, u, t, j, mk, ms, e, spares, h, lo, hi, c, nx);
      } else {
        mk', ms' := InnerSplits(s, u, t, j, mk, ms, e, spares, h, lo, hi, c, nx);
      }
    }
  }

  // The split cascade through all levels of a subtree.
  lemma {:induction false} InsertUpRises(s: State, path: seq<nat>, e: Entry, spares: seq<nat>, lvl: nat,
                                         t: Tree, h: nat, lo: int, hi: int, c: Occ, nx: nat)
    returns (mk: seq<Key>, ms: seq<Tree>)
    requires PathOpen(s.nodes, path, lvl) && path[lvl..] == PathIn(t, e.key)
    requires Ready(s, t, h, lo, hi, c, nx) && lo <= e.key < hi
    requires InsertUp(s, path, e, spares, lvl).Ok?
    ensures Risen(s, InsertUp(s, path, e, spares, lvl).value, t, mk, ms, e, h, lo, hi, c, nx)
    decreases |path| - lvl
  {
    hide WFKids, RepAll, Chain, IdsOf, LeafIdsOf, NoDup, Below, FirstOr, Risen, InsertInner, InsertLeaf;
    assert path[lvl] == path[lvl..][0];
    if t.TLeaf? {
      LeafReady(s, t, h, lo, hi, c, nx);
      mk, ms := InsertLeafRises(s, t, e, spares, lo, hi, c, nx);
    } else {
      ReadyNode(s, t, h, lo, hi, c, nx);
      var j := Route(t.keys, e.key);
      RouteRange(t.keys, t.kids, e.key, h - 1, lo, hi, c);
      ReadyKid(s, t, j, h, lo, hi, c, nx);
      assert path[lvl + 1..] == path[lvl..][1..] == PathIn(t.kids[j], e.key);
      var mk1, ms1 := InsertUpRises(s, path, e, spares, lvl + 1, t.kids[j], h - 1,
                                    LoAt(t.keys, lo, j), HiAt(t.keys, hi, j), c, FirstOr(LeafIdsOf(t.kids[j + 1..]), nx));
      var u := InsertUp(s, path, e, spares, lvl + 1).value;
      mk, ms := InnerRises(s, u, t, j, mk1, ms1, e, spares, h, lo, hi, c, nx);
    }
  }
}