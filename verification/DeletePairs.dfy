// Two neighbours under one parent: borrowing moves their border, merging removes it.
module DeletePairs {
  import opened Base
  import opened NodeViews
  import opened Shapes
  import opened Engine
  import opened Represent
  import opened Edits
  import opened InsertProof

  // Neighbours `l` and `r`, separated by `sep`, as held by store `st`.
  ghost predicate PairReady(st: Store, l: Tree, r: Tree, sep: Key, h: nat, lo: int, hi: int, c: Occ, nx: nat) {
    && RepAll(st, [l, r]) && NoDup(IdsOf([l, r])) && Chain(st, LeafIdsOf([l, r]), nx)
    && lo < sep < hi && WFNode(l, h, lo, sep, c) && WFNode(r, h, sep, hi, c)
    && FanoutOk(c.fanout) && c.leafMin <= c.fanout / 2
  }

  // Store `st'` holds `ms`, separated by `mk`, where it held `l` and `r`: the same entries,
  // the same leaves up to the index `minus` that was given up.
  ghost predicate PairDone(st: Store, st': Store, l: Tree, r: Tree, mk: seq<Key>, ms: seq<Tree>, minus: multiset<nat>,
                           h: nat, lo: int, hi: int, c: Occ, nx: nat) {
    && |ms| == |mk| + 1 && |mk| <= 1
    && WFKids(mk, ms, h, lo, hi, c)
    && ms[0].idx == l.idx && (|mk| == 1 ==> ms[1].idx == r.idx)
    && Flat([l, r], ms, [], [], minus, multiset{})
    && Stored(st, st', [l, r], ms, multiset{}, nx)
  }

  function MinOf(t: Tree, c: Occ): nat {
    if t.TLeaf? then c.leafMin else c.fanout / 2
  }

  // ---- shapes ----

  lemma PairShape(l: Tree, sep: Key, r: Tree, h: nat, lo: int, hi: int, c: Occ)
    requires lo < sep < hi && WF(l, h, lo, sep, c) && WF(r, h, sep, hi, c)
    ensures WFKids([sep], [l, r], h, lo, hi, c)
  {
    hide WF;
    var mk, ms := [sep], [l, r];
    assert mk[1..] == [] && ms[1..] == [r];
    assert WFKids(mk[1..], ms[1..], h, mk[0], hi, c);
  }

  lemma OneShape(t: Tree, h: nat, lo: int, hi: int, c: Occ)
    requires WF(t, h, lo, hi, c)
    ensures WFKids([], [t], h, lo, hi, c)
  {
    hide WF;
  }

  lemma LeafBorder(a: seq<Entry>, b: seq<Entry>, m: nat, lo: int, sep: int, hi: int)
    requires EntriesIn(a, lo, sep) && EntriesIn(b, sep, hi) && lo <= sep <= hi && 0 < m < |a + b|
    ensures lo < (a + b)[m].key < hi
    ensures EntriesIn((a + b)[..m], lo, (a + b)[m].key) && EntriesIn((a + b)[m..], (a + b)[m].key, hi)
  {
    hide EntriesIn;
    LeafRun(a, b, lo, sep, hi);
    HalvesIn(a + b, m, lo, hi);
  }

  lemma LeafRun(a: seq<Entry>, b: seq<Entry>, lo: int, sep: int, hi: int)
    requires EntriesIn(a, lo, sep) && EntriesIn(b, sep, hi) && lo <= sep <= hi
    ensures EntriesIn(a + b, lo, hi)
  {
  }

  // Move the border of two runs of children to separator m.
  lemma InnerBorder(ak: seq<Key>, ac: seq<Tree>, sep: Key, bk: seq<Key>, bc: seq<Tree>, m: nat, h: nat, lo: int, hi: int, c: Occ)
    requires lo < sep < hi && WFKids(ak, ac, h, lo, sep, c) && WFKids(bk, bc, h, sep, hi, c)
    requires m < |ak| + 1 + |bk|
    ensures |ac| == |ak| + 1 && |bc| == |bk| + 1
    ensures var k, kids := ak + [sep] + bk, ac + bc;
            && lo < k[m] < hi
            && WFKids(k[..m], kids[..m + 1], h, lo, k[m], c) && WFKids(k[m + 1..], kids[m + 1..], h, k[m], hi, c)
  {
    assert |ac| == |ak| + 1 && |bc| == |bk| + 1;
    hide WFKids;
    WFKidsConcat(ak, ac, sep, bk, bc, h, lo, hi, c);
    WFKidsCut(ak + [sep] + bk, ac + bc, m, h, lo, hi, c);
  }

  // ---- two leaves ----

  lemma EditedNothing(a: seq<Entry>, b: seq<Entry>)
    ensures Edited(a, b, [], []) <==> a == b
  {
    if a == b {
      assert a == a[..0] + a[0..];
      assert EditAt(a, b, [], [], 0);
    }
    if Edited(a, b, [], []) {
      var n: nat :| EditAt(a, b, [], [], n);
      assert b == a[..n] + a[n..];
    }
  }

  lemma LeafPairFlat(l: nat, r: nat, a: seq<Entry>, b: seq<Entry>, a': seq<Entry>, b': seq<Entry>)
    requires a + b == a' + b'
    ensures Flat([TLeaf(l, a), TLeaf(r, b)], [TLeaf(l, a'), TLeaf(r, b')], [], [], multiset{}, multiset{})
    ensures LeafIdsOf([TLeaf(l, a'), TLeaf(r, b')]) == LeafIdsOf([TLeaf(l, a), TLeaf(r, b)])
  {
    FlattenTwo(TLeaf(l, a), TLeaf(r, b));
    FlattenTwo(TLeaf(l, a'), TLeaf(r, b'));
    EditedNothing(a + b, a' + b');
  }

  lemma LeafMergeFlat(l: nat, r: nat, a: seq<Entry>, b: seq<Entry>)
    ensures Flat([TLeaf(l, a), TLeaf(r, b)], [TLeaf(l, a + b)], [], [], multiset{r}, multiset{})
    ensures LeafIdsOf([TLeaf(l, a + b)]) == [l]
  {
    FlattenTwo(TLeaf(l, a), TLeaf(r, b));
    FlattenOne(TLeaf(l, a + b));
    EditedNothing(a + b, a + b);
  }

  lemma LeafPairLinks(st: Store, l: nat, r: nat, a: seq<Entry>, b: seq<Entry>, nx: nat)
    requires Chain(st, LeafIdsOf([TLeaf(l, a), TLeaf(r, b)]), nx)
    ensures LeafTo(st, l, r) && LeafTo(st, r, nx)
    ensures LeafIdsOf([TLeaf(l, a), TLeaf(r, b)]) == [l, r]
    ensures IdsOf([TLeaf(l, a), TLeaf(r, b)]) == multiset{l, r}
  {
    FlattenTwo(TLeaf(l, a), TLeaf(r, b));
    assert LeafIds(TLeaf(l, a)) + LeafIds(TLeaf(r, b)) == [l, r];
    hide LeafIdsOf, IdsOf;
    var ids := LeafIdsOf([TLeaf(l, a), TLeaf(r, b)]);
    assert LeafTo(st, ids[0], After(ids, 0, nx)) && LeafTo(st, ids[1], After(ids, 1, nx));
  }

  lemma LeafPairStored(st: Store, l: nat, r: nat, a: seq<Entry>, b: seq<Entry>, a': seq<Entry>, b': seq<Entry>, nx: nat)
    requires l != r && LeafTo(st, l, r) && LeafTo(st, r, nx)
    ensures Stored(st, st[l := Leaf(a', r)][r := Leaf(b', nx)], [TLeaf(l, a), TLeaf(r, b)], [TLeaf(l, a'), TLeaf(r, b')], multiset{}, nx)
  {
    var ts, ms := [TLeaf(l, a), TLeaf(r, b)], [TLeaf(l, a'), TLeaf(r, b')];
    var st' := st[l := Leaf(a', r)][r := Leaf(b', nx)];
    FlattenTwo(ts[0], ts[1]);
    FlattenTwo(ms[0], ms[1]);
    assert IdsOf(ts) == IdsOf(ms) == multiset{l} + multiset{r} && LeafIdsOf(ms) == [l, r];
    hide IdsOf, LeafIdsOf;
    assert RepAll(st', ms);
    assert Chain(st', [l, r], nx);
    forall x: nat | x !in IdsOf(ts) + multiset{} ensures x != l && x != r { }
    assert SameOutside(st, st', IdsOf(ts) + multiset{});
  }

  lemma LeafMergeStored(st: Store, l: nat, r: nat, a: seq<Entry>, b: seq<Entry>, nx: nat)
    requires l != r && LeafTo(st, l, r) && LeafTo(st, r, nx)
    ensures Stored(st, st[l := Leaf(a + b, nx)] - {r}, [TLeaf(l, a), TLeaf(r, b)], [TLeaf(l, a + b)], multiset{}, nx)
  {
    var ts, ms := [TLeaf(l, a), TLeaf(r, b)], [TLeaf(l, a + b)];
    var st' := st[l := Leaf(a + b, nx)] - {r};
    FlattenTwo(ts[0], ts[1]);
    FlattenOne(ms[0]);
    assert IdsOf(ts) == multiset{l} + multiset{r} && IdsOf(ms) == multiset{l} && LeafIdsOf(ms) == [l];
    hide IdsOf, LeafIdsOf;
    assert RepAll(st', ms);
    assert Chain(st', [l], nx);
    forall x: nat | x !in IdsOf(ts) + multiset{} ensures x != l && x != r { }
    assert SameOutside(st, st', IdsOf(ts) + multiset{});
    forall x: nat | x in IdsOf(ts) && x !in IdsOf(ms) ensures x == r { }
  }

  // ---- two internal nodes ----

  lemma InnerPairFlat(l: nat, r: nat, ak: seq<Key>, ac: seq<Tree>, bk: seq<Key>, bc: seq<Tree>,
                      ak': seq<Key>, ac': seq<Tree>, bk': seq<Key>, bc': seq<Tree>)
    requires ac + bc == ac' + bc' && LeafIdsOf(ac + bc) != []
    ensures Flat([TNode(l, ak, ac), TNode(r, bk, bc)], [TNode(l, ak', ac'), TNode(r, bk', bc')], [], [], multiset{}, multiset{})
    ensures LeafIdsOf([TNode(l, ak', ac'), TNode(r, bk', bc')]) == LeafIdsOf([TNode(l, ak, ac), TNode(r, bk, bc)])
  {
    hide IdsOf, LeafIdsOf, EntriesOf;
    TwoFlatten(l, ak, ac, r, bk, bc);
    TwoFlatten(l, ak', ac', r, bk', bc');
    EditedNothing(EntriesOf(ac + bc), EntriesOf(ac + bc));
  }

  lemma InnerMergeFlat(l: nat, r: nat, ak: seq<Key>, ac: seq<Tree>, bk: seq<Key>, bc: seq<Tree>, k: seq<Key>)
    requires LeafIdsOf(ac + bc) != []
    ensures Flat([TNode(l, ak, ac), TNode(r, bk, bc)], [TNode(l, k, ac + bc)], [], [], multiset{r}, multiset{})
    ensures LeafIdsOf([TNode(l, k, ac + bc)]) == LeafIdsOf([TNode(l, ak, ac), TNode(r, bk, bc)])
  {
    hide IdsOf, LeafIdsOf, EntriesOf;
    TwoFlatten(l, ak, ac, r, bk, bc);
    NodeFlattens(l, k, ac + bc);
    EditedNothing(EntriesOf(ac + bc), EntriesOf(ac + bc));
  }

  lemma InnerPairParts(st: Store, l: nat, r: nat, ak: seq<Key>, ac: seq<Tree>, bk: seq<Key>, bc: seq<Tree>, nx: nat)
    requires var ts := [TNode(l, ak, ac), TNode(r, bk, bc)]; RepAll(st, ts) && NoDup(IdsOf(ts)) && Chain(st, LeafIdsOf(ts), nx)
    ensures RepAll(st, ac + bc) && Chain(st, LeafIdsOf(ac + bc), nx)
    ensures l != r && l !in IdsOf(ac + bc) && r !in IdsOf(ac + bc)
    ensures l in st && st[l] == Inner(ak, Tops(ac)) && r in st && st[r] == Inner(bk, Tops(bc))
  {
    var ts := [TNode(l, ak, ac), TNode(r, bk, bc)];
    TwoFlatten(l, ak, ac, r, bk, bc);
    hide IdsOf, LeafIdsOf, Chain;
    assert Rep(st, ts[0]) && Rep(st, ts[1]);
    RepTwo(st, ac, bc);
    var kids := IdsOf(ac + bc);
    assert forall x: nat :: IdsOf(ts)[x] == (multiset{l} + kids + multiset{r})[x];
    assert IdsOf(ts)[l] <= 1 && IdsOf(ts)[r] <= 1;
    hide Rep;
  }

  lemma RepTwo(st: Store, a: seq<Tree>, b: seq<Tree>)
    requires RepAll(st, a) && RepAll(st, b)
    ensures RepAll(st, a + b)
  {
    hide Rep;
  }

  // Both nodes rewritten over the same children.
  lemma InnerPairStored(st: Store, l: nat, r: nat, ak: seq<Key>, ac: seq<Tree>, bk: seq<Key>, bc: seq<Tree>,
                        ak': seq<Key>, ac': seq<Tree>, bk': seq<Key>, bc': seq<Tree>, nx: nat)
    requires RepAll(st, ac + bc) && Chain(st, LeafIdsOf(ac + bc), nx)
    requires l != r && l !in IdsOf(ac + bc) && r !in IdsOf(ac + bc)
    requires ac + bc == ac' + bc'
    ensures Stored(st, st[l := Inner(ak', Tops(ac'))][r := Inner(bk', Tops(bc'))],
                   [TNode(l, ak, ac), TNode(r, bk, bc)], [TNode(l, ak', ac'), TNode(r, bk', bc')], multiset{}, nx)
  {
    hide IdsOf, LeafIdsOf, RepAll, Chain, Rep, Tops;
    var v, w := Inner(ak', Tops(ac')), Inner(bk', Tops(bc'));
    var st1 := st[l := v];
    var st2 := st1[r := w];
    TwoFlatten(l, ak, ac, r, bk, bc);
    TwoFlatten(l, ak', ac', r, bk', bc');
    RewriteUnused(st, l, v, ac' + bc');
    LinksUnused(st, l, v, ac' + bc', nx);
    RewriteUnused(st1, r, w, ac' + bc');
    LinksUnused(st1, r, w, ac' + bc', nx);
    RepHalves(st2, ac', bc');
    RepNode(st2, l, ak', ac');
    RepNode(st2, r, bk', bc');
    RepPair(st2, TNode(l, ak', ac'), TNode(r, bk', bc'));
    SameTwo(st, l, v, r, w, IdsOf(ac + bc));
  }

  lemma SameTwo(st: Store, l: nat, v: NodeView, r: nat, w: NodeView, ids: multiset<nat>)
    ensures SameOutside(st, st[l := v][r := w], multiset{l} + ids + multiset{r} + multiset{})
  {
    forall x: nat | x !in multiset{l} + ids + multiset{r} + multiset{} ensures x != l && x != r { }
  }

  lemma DropUnused(st: Store, r: nat, ts: seq<Tree>, nx: nat)
    requires RepAll(st, ts) && Chain(st, LeafIdsOf(ts), nx) && r !in IdsOf(ts)
    ensures RepAll(st - {r}, ts) && Chain(st - {r}, LeafIdsOf(ts), nx)
  {
    RepAllIds(st, ts);
    LeafIdsOfInIds(ts);
    hide RepAll, IdsOf, LeafIdsOf;
    RepAllFrame(st, st - {r}, ts);
    ChainFrame(st, st - {r}, LeafIdsOf(ts), nx);
  }

  lemma InnerMergeStored(st: Store, l: nat, r: nat, ak: seq<Key>, ac: seq<Tree>, bk: seq<Key>, bc: seq<Tree>, k: seq<Key>, nx: nat)
    requires RepAll(st, ac + bc) && Chain(st, LeafIdsOf(ac + bc), nx)
    requires l != r && l !in IdsOf(ac + bc) && r !in IdsOf(ac + bc)
    ensures Stored(st, st[l := Inner(k, Tops(ac + bc))] - {r},
                   [TNode(l, ak, ac), TNode(r, bk, bc)], [TNode(l, k, ac + bc)], multiset{}, nx)
  {
    hide IdsOf, LeafIdsOf, RepAll, Chain, Rep, Tops;
    var v := Inner(k, Tops(ac + bc));
    var st1 := st[l := v];
    TwoFlatten(l, ak, ac, r, bk, bc);
    NodeFlattens(l, k, ac + bc);
    RewriteUnused(st, l, v, ac + bc);
    LinksUnused(st, l, v, ac + bc, nx);
    DropUnused(st1, r, ac + bc, nx);
    RepNode(st1 - {r}, l, k, ac + bc);
    SameDropped(st, l, v, r, IdsOf(ac + bc));
  }

  lemma SameDropped(st: Store, l: nat, v: NodeView, r: nat, ids: multiset<nat>)
    ensures SameOutside(st, st[l := v] - {r}, multiset{l} + ids + multiset{r} + multiset{})
  {
    forall x: nat | x !in multiset{l} + ids + multiset{r} + multiset{} ensures x != l && x != r { }
  }

  // ---- the engine's three repairs ----

  // What a repair of the pair under parent `par` leaves: the pair as in PairDone, and the
  // parent's separators and pointers accordingly.
  ghost predicate Repaired(s: State, r: Result<State>, st2: Store, l: Tree, rt: Tree, par: nat, pk: seq<Key>, pc: seq<nat>, pos: nat,
                           mk: seq<Key>, ms: seq<Tree>, minus: multiset<nat>, h: nat, lo: int, hi: int, c: Occ, nx: nat)
    requires pos < |pk| && pos + 1 < |pc|
  {
    && PairDone(s.nodes, st2, l, rt, mk, ms, minus, h, lo, hi, c, nx)
    && r.Ok?
    && LastOf(LeafIdsOf(ms)) == (if |mk| == 0 && l.TLeaf? then l.idx else LastOf(LeafIdsOf([l, rt])))
    && (if |mk| == 1
        then r.value == s.(nodes := st2[par := Inner(pk[pos := mk[0]], pc)])
        else r.value == s.(nodes := st2[par := Inner(RemoveAt(pk, pos), RemoveAt(pc, pos + 1))],
                           rightmost := if nx == 0 && l.TLeaf? then l.idx else s.rightmost))
  }

  ghost predicate UnderParent(s: State, l: Tree, r: Tree, par: nat, pk: seq<Key>, pc: seq<nat>, pos: nat, h: nat, lo: int, hi: int, c: Occ, nx: nat) {
    && par in s.nodes && s.nodes[par] == Inner(pk, pc)
    && pos < |pk| && pos + 1 < |pc|
    && PairReady(s.nodes, l, r, pk[pos], h, lo, hi, c, nx)
    && par !in IdsOf([l, r])
  }

  lemma LeavesUnderParent(s: State, l: Tree, r: Tree, par: nat, pk: seq<Key>, pc: seq<nat>, pos: nat, h: nat, lo: int, hi: int, c: Occ, nx: nat)
    requires UnderParent(s, l, r, par, pk, pc, pos, h, lo, hi, c, nx) && l.TLeaf?
    ensures r.TLeaf? && h == 1 && l.idx != r.idx && par != l.idx && par != r.idx
    ensures EntriesIn(l.es, lo, pk[pos]) && EntriesIn(r.es, pk[pos], hi) && lo < pk[pos] < hi
    ensures |l.es| <= c.fanout && |r.es| <= c.fanout && c.leafMin <= c.fanout / 2
    ensures l.idx in s.nodes && s.nodes[l.idx] == Leaf(l.es, r.idx) && r.idx in s.nodes && s.nodes[r.idx] == Leaf(r.es, nx)
  {
    LeafPairLinks(s.nodes, l.idx, r.idx, l.es, r.es, nx);
    var ts := [l, r];
    assert Rep(s.nodes, ts[0]) && Rep(s.nodes, ts[1]);
    hide IdsOf, LeafIdsOf;
    assert IdsOf(ts) == multiset{l.idx, r.idx};
    assert IdsOf(ts)[l.idx] <= 1;
  }

  lemma InnersUnderParent(s: State, l: Tree, r: Tree, par: nat, pk: seq<Key>, pc: seq<nat>, pos: nat, h: nat, lo: int, hi: int, c: Occ, nx: nat)
    requires UnderParent(s, l, r, par, pk, pc, pos, h, lo, hi, c, nx) && l.TNode?
    ensures r.TNode? && h > 1 && par != l.idx && par != r.idx
    ensures WFKids(l.keys, l.kids, h - 1, lo, pk[pos], c) && WFKids(r.keys, r.kids, h - 1, pk[pos], hi, c)
    ensures RepAll(s.nodes, l.kids + r.kids) && Chain(s.nodes, LeafIdsOf(l.kids + r.kids), nx) && LeafIdsOf(l.kids + r.kids) != []
    ensures l.idx != r.idx && l.idx !in IdsOf(l.kids + r.kids) && r.idx !in IdsOf(l.kids + r.kids)
    ensures l.idx in s.nodes && s.nodes[l.idx] == Inner(l.keys, Tops(l.kids))
    ensures r.idx in s.nodes && s.nodes[r.idx] == Inner(r.keys, Tops(r.kids))
    ensures |l.kids| == |l.keys| + 1 && |r.kids| == |r.keys| + 1
  {
    assert r.TNode?;
    InnerPairParts(s.nodes, l.idx, r.idx, l.keys, l.kids, r.keys, r.kids, nx);
    TwoFlatten(l.idx, l.keys, l.kids, r.idx, r.keys, r.kids);
    LeafIdsNonEmpty(l, h, lo, pk[pos], c);
    assert WFKids(l.keys, l.kids, h - 1, lo, pk[pos], c) && WFKids(r.keys, r.kids, h - 1, pk[pos], hi, c);
    hide WF, RepAll, Rep, Chain;
    FlattenConcat(l.kids, r.kids);
  }

  lemma FirstMoves<T>(a: seq<T>, b: seq<T>)
    requires |b| > 0
    ensures (a + b)[..|a| + 1] == a + [b[0]] && (a + b)[|a| + 1..] == b[1..] && a + [b[0]] + b[1..] == a + b
  {
  }

  lemma LastMoves<T>(a: seq<T>, b: seq<T>)
    requires |a| > 0
    ensures var m := |a| - 1;
            (a + b)[..m] == a[..m] && (a + b)[m..] == [a[m]] + b && (a + b)[m] == a[m] && a[..m] + ([a[m]] + b) == a + b
  {
  }

  lemma LeafBorrowRight(s: State, l: Tree, r: Tree, par: nat, pk: seq<Key>, pc: seq<nat>, pos: nat, h: nat, lo: int, hi: int, c: Occ, nx: nat)
    returns (st2: Store, mk: seq<Key>, ms: seq<Tree>)
    requires UnderParent(s, l, r, par, pk, pc, pos, h, lo, hi, c, nx) && l.TLeaf?
    requires Size(r) > c.fanout / 2 > Size(l) && Size(l) + 1 >= MinOf(l, c)
    ensures Repaired(s, BorrowFromRight(s, l.idx, r.idx, par, pos), st2, l, r, par, pk, pc, pos, mk, ms, multiset{}, h, lo, hi, c, nx) && |mk| == 1
  {
    LeavesUnderParent(s, l, r, par, pk, pc, pos, h, lo, hi, c, nx);
    hide UnderParent, EntriesIn, LeafIdsOf;
    var a, b := l.es, r.es;
    var m := |a| + 1;
    LeafBorder(a, b, m, lo, pk[pos], hi);
    FirstMoves(a, b);
    var a', b' := a + [b[0]], b[1..];
    mk, ms := [b[1].key], [TLeaf(l.idx, a'), TLeaf(r.idx, b')];
    st2 := s.nodes[l.idx := Leaf(a', r.idx)][r.idx := Leaf(b', nx)];
    PairShape(ms[0], mk[0], ms[1], 1, lo, hi, c);
    LeafPairFlat(l.idx, r.idx, a, b, a', b');
    LeafPairStored(s.nodes, l.idx, r.idx, a, b, a', b', nx);
    hide WFKids, Flat, Stored, LeafIdsOf;
  }

  lemma LeafBorrowLeft(s: State, l: Tree, r: Tree, par: nat, pk: seq<Key>, pc: seq<nat>, pos: nat, h: nat, lo: int, hi: int, c: Occ, nx: nat)
    returns (st2: Store, mk: seq<Key>, ms: seq<Tree>)
    requires UnderParent(s, l, r, par, pk, pc, pos, h, lo, hi, c, nx) && l.TLeaf?
    requires Size(l) > c.fanout / 2 > Size(r) && Size(r) + 1 >= MinOf(r, c) && c.fanout >= 4
    ensures Repaired(s, BorrowFromLeft(s, l.idx, r.idx, par, pos), st2, l, r, par, pk, pc, pos, mk, ms, multiset{}, h, lo, hi, c, nx) && |mk| == 1
  {
    LeavesUnderParent(s, l, r, par, pk, pc, pos, h, lo, hi, c, nx);
    assert par in s.nodes && s.nodes[par] == Inner(pk, pc);
    hide UnderParent, EntriesIn, BorrowFromLeft;
    var a, b := l.es, r.es;
    var m := |a| - 1;
    LeafBorrowLeftValue(s, l.idx, r.idx, par, pk, pc, pos, a, b, nx);
    LeafLeftShape(l.idx, r.idx, a, b, lo, pk[pos], hi, c);
    LastMoves(a, b);
    var a', b' := a[..m], [a[m]] + b;
    mk, ms := [a[m].key], [TLeaf(l.idx, a'), TLeaf(r.idx, b')];
    st2 := s.nodes[l.idx := Leaf(a', r.idx)][r.idx := Leaf(b', nx)];
    LeafPairFlat(l.idx, r.idx, a, b, a', b');
    LeafPairStored(s.nodes, l.idx, r.idx, a, b, a', b', nx);
    hide WFKids, Flat, Stored, LeafIdsOf;
  }

  lemma LeafBorrowLeftValue(s: State, l: nat, r: nat, par: nat, pk: seq<Key>, pc: seq<nat>, pos: nat, a: seq<Entry>, b: seq<Entry>, nx: nat)
    requires l != r && par != l && par != r && l in s.nodes && r in s.nodes && par in s.nodes
    requires s.nodes[l] == Leaf(a, r) && s.nodes[r] == Leaf(b, nx) && s.nodes[par] == Inner(pk, pc)
    requires |a| > 0 && pos < |pk|
    ensures var m := |a| - 1;
            BorrowFromLeft(s, l, r, par, pos)
            == Ok(s.(nodes := s.nodes[l := Leaf(a[..m], r)][r := Leaf([a[m]] + b, nx)][par := Inner(pk[pos := a[m].key], pc)]))
  {
    var m := |a| - 1;
    var v, w := Leaf(a[..m], r), Leaf([a[m]] + b, nx);
    assert s.nodes[r := w][l := v] == s.nodes[l := v][r := w];
  }

  lemma LeafLeftShape(l: nat, r: nat, a: seq<Entry>, b: seq<Entry>, lo: int, sep: int, hi: int, c: Occ)
    requires EntriesIn(a, lo, sep) && EntriesIn(b, sep, hi) && lo < sep < hi
    requires |a| > c.fanout / 2 > |b| && |b| + 1 >= c.leafMin && c.fanout >= 4 && c.leafMin <= c.fanout / 2 && |a| <= c.fanout
    ensures var m := |a| - 1; WFKids([a[m].key], [TLeaf(l, a[..m]), TLeaf(r, [a[m]] + b)], 1, lo, hi, c)
  {
    hide EntriesIn;
    var m := |a| - 1;
    LeafBorder(a, b, m, lo, sep, hi);
    LastMoves(a, b);
    PairShape(TLeaf(l, a[..m]), a[m].key, TLeaf(r, [a[m]] + b), 1, lo, hi, c);
  }

  lemma LeafMerge(s: State, l: Tree, r: Tree, par: nat, pk: seq<Key>, pc: seq<nat>, pos: nat, h: nat, lo: int, hi: int, c: Occ, nx: nat)
    returns (st2: Store, mk: seq<Key>, ms: seq<Tree>)
    requires UnderParent(s, l, r, par, pk, pc, pos, h, lo, hi, c, nx) && l.TLeaf?
    requires c.leafMin <= Size(l) + Size(r) <= c.fanout
    ensures Repaired(s, Merge(s, l.idx, r.idx, par, pos), st2, l, r, par, pk, pc, pos, mk, ms, multiset{r.idx}, h, lo, hi, c, nx) && mk == []
  {
    LeavesUnderParent(s, l, r, par, pk, pc, pos, h, lo, hi, c, nx);
    assert lo < pk[pos] < hi;
    hide UnderParent, EntriesIn, LeafIdsOf;
    var es := l.es + r.es;
    LeafRun(l.es, r.es, lo, pk[pos], hi);
    mk, ms := [], [TLeaf(l.idx, es)];
    st2 := s.nodes[l.idx := Leaf(es, nx)] - {r.idx};
    OneShape(ms[0], 1, lo, hi, c);
    LeafMergeFlat(l.idx, r.idx, l.es, r.es);
    LeafMergeStored(s.nodes, l.idx, r.idx, l.es, r.es, nx);
    hide WFKids, Flat, Stored, LeafIdsOf;
    var v := Inner(RemoveAt(pk, pos), RemoveAt(pc, pos + 1));
    assert s.nodes[l.idx := Leaf(es, nx)][par := v] - {r.idx} == st2[par := v];
  }

  lemma InnerBorrowRight(s: State, l: Tree, r: Tree, par: nat, pk: seq<Key>, pc: seq<nat>, pos: nat, h: nat, lo: int, hi: int, c: Occ, nx: nat)
    returns (st2: Store, mk: seq<Key>, ms: seq<Tree>)
    requires UnderParent(s, l, r, par, pk, pc, pos, h, lo, hi, c, nx) && l.TNode?
    requires Size(r) > c.fanout / 2 > Size(l) && Size(l) + 1 >= c.fanout / 2 && Size(r) <= c.fanout
    ensures Repaired(s, BorrowFromRight(s, l.idx, r.idx, par, pos), st2, l, r, par, pk, pc, pos, mk, ms, multiset{}, h, lo, hi, c, nx) && |mk| == 1
  {
    InnersUnderParent(s, l, r, par, pk, pc, pos, h, lo, hi, c, nx);
    assert lo < pk[pos] < hi && s.nodes[par] == Inner(pk, pc) && par in s.nodes;
    hide UnderParent, WFKids, RepAll, LeafIdsOf, IdsOf, Chain;
    var ac', bc' := l.kids + [r.kids[0]], r.kids[1..];
    var ak', bk' := l.keys + [pk[pos]], r.keys[1..];
    BorrowRightShape(l, r, pk[pos], h, lo, hi, c);
    mk, ms := [r.keys[0]], [TNode(l.idx, ak', ac'), TNode(r.idx, bk', bc')];
    FirstMoves(l.kids, r.kids);
    FirstMoves(Tops(l.kids), Tops(r.kids));
    assert Tops(ac') == Tops(l.kids) + [Tops(r.kids)[0]] && Tops(bc') == Tops(r.kids)[1..];
    st2 := s.nodes[l.idx := Inner(ak', Tops(ac'))][r.idx := Inner(bk', Tops(bc'))];
    hide Tops;
    InnerPairFlat(l.idx, r.idx, l.keys, l.kids, r.keys, r.kids, ak', ac', bk', bc');
    InnerPairStored(s.nodes, l.idx, r.idx, l.keys, l.kids, r.keys, r.kids, ak', ac', bk', bc', nx);
    hide Flat, Stored;
  }

  lemma BorrowRightShape(l: Tree, r: Tree, sep: Key, h: nat, lo: int, hi: int, c: Occ)
    requires l.TNode? && r.TNode? && h > 1 && lo < sep < hi
    requires |l.kids| == |l.keys| + 1 && |r.kids| == |r.keys| + 1
    requires WFKids(l.keys, l.kids, h - 1, lo, sep, c) && WFKids(r.keys, r.kids, h - 1, sep, hi, c)
    requires Size(r) > c.fanout / 2 > Size(l) && Size(l) + 1 >= c.fanout / 2 && Size(r) <= c.fanout
    ensures WFKids([r.keys[0]], [TNode(l.idx, l.keys + [sep], l.kids + [r.kids[0]]), TNode(r.idx, r.keys[1..], r.kids[1..])], h, lo, hi, c)
  {
    hide WFKids;
    var m := |l.keys| + 1;
    InnerBorder(l.keys, l.kids, sep, r.keys, r.kids, m, h - 1, lo, hi, c);
    FirstMoves(l.kids, r.kids);
    var k := l.keys + [sep] + r.keys;
    assert k[..m] == l.keys + [sep] && k[m] == r.keys[0] && k[m + 1..] == r.keys[1..];
    PairShape(TNode(l.idx, l.keys + [sep], l.kids + [r.kids[0]]), r.keys[0], TNode(r.idx, r.keys[1..], r.kids[1..]), h, lo, hi, c);
  }

  lemma InnerBorrowLeft(s: State, l: Tree, r: Tree, par: nat, pk: seq<Key>, pc: seq<nat>, pos: nat, h: nat, lo: int, hi: int, c: Occ, nx: nat)
    returns (st2: Store, mk: seq<Key>, ms: seq<Tree>)
    requires UnderParent(s, l, r, par, pk, pc, pos, h, lo, hi, c, nx) && l.TNode?
    requires Size(l) > c.fanout / 2 > Size(r) && Size(r) + 1 >= c.fanout / 2 && Size(l) <= c.fanout
    ensures Repaired(s, BorrowFromLeft(s, l.idx, r.idx, par, pos), st2, l, r, par, pk, pc, pos, mk, ms, multiset{}, h, lo, hi, c, nx) && |mk| == 1
  {
    InnersUnderParent(s, l, r, par, pk, pc, pos, h, lo, hi, c, nx);
    assert lo < pk[pos] < hi && s.nodes[par] == Inner(pk, pc) && par in s.nodes;
    hide UnderParent, WFKids, RepAll, LeafIdsOf, IdsOf, Chain;
    var m, n := |l.keys| - 1, |l.kids| - 1;
    var ac', bc' := l.kids[..n], [l.kids[n]] + r.kids;
    var ak', bk' := l.keys[..m], [pk[pos]] + r.keys;
    BorrowLeftShape(l, r, pk[pos], h, lo, hi, c);
    mk, ms := [l.keys[m]], [TNode(l.idx, ak', ac'), TNode(r.idx, bk', bc')];
    LastMoves(l.kids, r.kids);
    assert Tops(ac') == Tops(l.kids)[..n] && Tops(bc') == [Tops(l.kids)[n]] + Tops(r.kids);
    st2 := s.nodes[l.idx := Inner(ak', Tops(ac'))][r.idx := Inner(bk', Tops(bc'))];
    assert s.nodes[r.idx := Inner(bk', Tops(bc'))][l.idx := Inner(ak', Tops(ac'))] == st2;
    hide Tops;
    InnerPairFlat(l.idx, r.idx, l.keys, l.kids, r.keys, r.kids, ak', ac', bk', bc');
    InnerPairStored(s.nodes, l.idx, r.idx, l.keys, l.kids, r.keys, r.kids, ak', ac', bk', bc', nx);
    hide Flat, Stored;
  }

  lemma BorrowLeftShape(l: Tree, r: Tree, sep: Key, h: nat, lo: int, hi: int, c: Occ)
    requires l.TNode? && r.TNode? && h > 1 && lo < sep < hi
    requires |l.kids| == |l.keys| + 1 && |r.kids| == |r.keys| + 1
    requires WFKids(l.keys, l.kids, h - 1, lo, sep, c) && WFKids(r.keys, r.kids, h - 1, sep, hi, c)
    requires Size(l) > c.fanout / 2 > Size(r) && Size(r) + 1 >= c.fanout / 2 && Size(l) <= c.fanout
    ensures var m, n := |l.keys| - 1, |l.kids| - 1;
            WFKids([l.keys[m]], [TNode(l.idx, l.keys[..m], l.kids[..n]), TNode(r.idx, [sep] + r.keys, [l.kids[n]] + r.kids)], h, lo, hi, c)
  {
    hide WFKids;
    var m, n := |l.keys| - 1, |l.kids| - 1;
    InnerBorder(l.keys, l.kids, sep, r.keys, r.kids, m, h - 1, lo, hi, c);
    LastMoves(l.kids, r.kids);
    var k := l.keys + [sep] + r.keys;
    assert k[..m] == l.keys[..m] && k[m] == l.keys[m] && k[m + 1..] == [sep] + r.keys;
    PairShape(TNode(l.idx, l.keys[..m], l.kids[..n]), l.keys[m], TNode(r.idx, [sep] + r.keys, [l.kids[n]] + r.kids), h, lo, hi, c);
  }

  lemma InnerMerge(s: State, l: Tree, r: Tree, par: nat, pk: seq<Key>, pc: seq<nat>, pos: nat, h: nat, lo: int, hi: int, c: Occ, nx: nat)
    returns (st2: Store, mk: seq<Key>, ms: seq<Tree>)
    requires UnderParent(s, l, r, par, pk, pc, pos, h, lo, hi, c, nx) && l.TNode?
    requires c.fanout / 2 <= Size(l) + 1 + Size(r) <= c.fanout
    ensures Repaired(s, Merge(s, l.idx, r.idx, par, pos), st2, l, r, par, pk, pc, pos, mk, ms, multiset{r.idx}, h, lo, hi, c, nx) && mk == []
  {
    InnersUnderParent(s, l, r, par, pk, pc, pos, h, lo, hi, c, nx);
    assert lo < pk[pos] < hi && s.nodes[par] == Inner(pk, pc) && par in s.nodes;
    hide UnderParent, WFKids, RepAll, LeafIdsOf, IdsOf, Chain;
    var k, kids := l.keys + [pk[pos]] + r.keys, l.kids + r.kids;
    WFKidsConcat(l.keys, l.kids, pk[pos], r.keys, r.kids, h - 1, lo, hi, c);
    mk, ms := [], [TNode(l.idx, k, kids)];
    OneShape(ms[0], h, lo, hi, c);
    assert Tops(kids) == Tops(l.kids) + Tops(r.kids);
    st2 := s.nodes[l.idx := Inner(k, Tops(kids))] - {r.idx};
    hide Tops;
    InnerMergeFlat(l.idx, r.idx, l.keys, l.kids, r.keys, r.kids, k);
    InnerMergeStored(s.nodes, l.idx, r.idx, l.keys, l.kids, r.keys, r.kids, k, nx);
    hide Flat, Stored;
    var v := Inner(RemoveAt(pk, pos), RemoveAt(pc, pos + 1));
    assert s.nodes[l.idx := Inner(k, Tops(kids))][par := v] - {r.idx} == st2[par := v];
  }

  // The left neighbour is short: borrow from the right one if it can spare, else merge.
  lemma RepairLeftShort(s: State, l: Tree, r: Tree, par: nat, pk: seq<Key>, pc: seq<nat>, pos: nat, h: nat, lo: int, hi: int, c: Occ, nx: nat)
    returns (st2: Store, mk: seq<Key>, ms: seq<Tree>, minus: multiset<nat>)
    requires UnderParent(s, l, r, par, pk, pc, pos, h, lo, hi, c, nx)
    requires MinOf(l, c) - 1 <= Size(l) < c.fanout / 2 && MinOf(r, c) <= Size(r) <= c.fanout
    ensures Repaired(s, if Size(r) > c.fanout / 2 then BorrowFromRight(s, l.idx, r.idx, par, pos) else Merge(s, l.idx, r.idx, par, pos),
                     st2, l, r, par, pk, pc, pos, mk, ms, minus, h, lo, hi, c, nx)
    ensures |mk| == (if Size(r) > c.fanout / 2 then 1 else 0)
  {
    SameKind(s, l, r, par, pk, pc, pos, h, lo, hi, c, nx);
    hide UnderParent, Repaired, BorrowFromRight, Merge;
    minus := multiset{};
    if Size(r) > c.fanout / 2 {
      if l.TLeaf? {
        st2, mk, ms := LeafBorrowRight(s, l, r, par, pk, pc, pos, h, lo, hi, c, nx);
      } else {
        st2, mk, ms := InnerBorrowRight(s, l, r, par, pk, pc, pos, h, lo, hi, c, nx);
      }
    } else {
      minus := multiset{r.idx};
      if l.TLeaf? {
        st2, mk, ms := LeafMerge(s, l, r, par, pk, pc, pos, h, lo, hi, c, nx);
      } else {
        st2, mk, ms := InnerMerge(s, l, r, par, pk, pc, pos, h, lo, hi, c, nx);
      }
    }
  }

  // The right neighbour is short.
  lemma RepairRightShort(s: State, l: Tree, r: Tree, par: nat, pk: seq<Key>, pc: seq<nat>, pos: nat, h: nat, lo: int, hi: int, c: Occ, nx: nat)
    returns (st2: Store, mk: seq<Key>, ms: seq<Tree>, minus: multiset<nat>)
    requires UnderParent(s, l, r, par, pk, pc, pos, h, lo, hi, c, nx)
    requires MinOf(r, c) - 1 <= Size(r) < c.fanout / 2 && MinOf(l, c) <= Size(l) <= c.fanout
    ensures Repaired(s, if Size(l) > c.fanout / 2 then BorrowFromLeft(s, l.idx, r.idx, par, pos) else Merge(s, l.idx, r.idx, par, pos),
                     st2, l, r, par, pk, pc, pos, mk, ms, minus, h, lo, hi, c, nx)
    ensures |mk| == (if Size(l) > c.fanout / 2 then 1 else 0)
  {
    SameKind(s, l, r, par, pk, pc, pos, h, lo, hi, c, nx);
    hide UnderParent, Repaired, BorrowFromLeft, Merge;
    minus := multiset{};
    if Size(l) > c.fanout / 2 {
      if l.TLeaf? {
        st2, mk, ms := LeafBorrowLeft(s, l, r, par, pk, pc, pos, h, lo, hi, c, nx);
      } else {
        st2, mk, ms := InnerBorrowLeft(s, l, r, par, pk, pc, pos, h, lo, hi, c, nx);
      }
    } else {
      minus := multiset{r.idx};
      if l.TLeaf? {
        st2, mk, ms := LeafMerge(s, l, r, par, pk, pc, pos, h, lo, hi, c, nx);
      } else {
        st2, mk, ms := InnerMerge(s, l, r, par, pk, pc, pos, h, lo, hi, c, nx);
      }
    }
  }

  lemma SameKind(s: State, l: Tree, r: Tree, par: nat, pk: seq<Key>, pc: seq<nat>, pos: nat, h: nat, lo: int, hi: int, c: Occ, nx: nat)
    requires UnderParent(s, l, r, par, pk, pc, pos, h, lo, hi, c, nx)
    ensures l.TLeaf? == r.TLeaf? && c.fanout >= 4 && c.leafMin <= c.fanout / 2
  {
  }
}
