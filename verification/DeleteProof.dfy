// Delete: what the borrow/merge cascade leaves behind, level by level.
module DeleteProof {
  import opened Base
  import opened NodeViews
  import opened Shapes
  import opened Engine
  import opened Represent
  import opened Search
  import opened Edits
  import opened InsertProof
  import opened DeletePairs
  import opened MapModel

  // After the levels of subtree `t` are repaired, the store holds `t'` in its place. As long
  // as the cascade goes on (`!d.stop`), `t'` is one entry or separator shorter.
  ghost predicate Fallen(s: State, d: Fall, t: Tree, t': Tree, e: Entry, minus: multiset<nat>,
                         h: nat, lo: int, hi: int, c: Occ, nx: nat) {
    && FallShape(d.stop, t, t', h, lo, hi, c)
    && Flat([t], [t'], [e], [], minus, multiset{})
    && Stored(s.nodes, d.s.nodes, [t], [t'], multiset{}, nx)
    && FallHeader(s, d, [t'], nx)
  }

  ghost predicate FallShape(stop: bool, t: Tree, t': Tree, h: nat, lo: int, hi: int, c: Occ) {
    && t'.idx == t.idx && t'.TLeaf? == t.TLeaf?
    && WFNode(t', h, lo, hi, c)
    && Size(t') == Size(t) - (if stop then 0 else 1)
  }

  ghost predicate FallHeader(s: State, d: Fall, ms: seq<Tree>, nx: nat) {
    d.s == s.(nodes := d.s.nodes, rightmost := if nx == 0 then LastOf(LeafIdsOf(ms)) else s.rightmost)
  }

  // ---- the leaf ----

  lemma TakenOut(es: seq<Entry>, p: nat, lo: int, hi: int)
    requires EntriesIn(es, lo, hi) && p < |es|
    ensures EntriesIn(es[..p] + es[p + 1..], lo, hi)
  {
    var es' := es[..p] + es[p + 1..];
    assert forall k | 0 <= k < |es'| :: es'[k] == es[if k < p then k else k + 1];
  }

  lemma RemovedIn(es: seq<Entry>, key: Key, lo: int, hi: int)
    requires EntriesIn(es, lo, hi) && Holds(es, key)
    ensures EntriesIn(Removed(es, key), lo, hi)
    ensures Edited(es, Removed(es, key), [es[Pos(es, key)]], [])
  {
    hide EntriesIn, Pos;
    var p := Pos(es, key);
    TakenOut(es, p, lo, hi);
    assert es[p..p + 1] == [es[p]];
    assert EditAt(es, Removed(es, key), [es[p]], [], p);
  }

  lemma LeafFalls(s: State, t: Tree, key: Key, lo: int, hi: int, c: Occ, nx: nat) returns (e: Entry, t': Tree)
    requires t.TLeaf? && Ready(s, t, 1, lo, hi, c, nx) && Holds(t.es, key)
    ensures e.key == key
    ensures Fallen(s, Fall(s.Set(t.idx, Leaf(Removed(t.es, key), nx)), false), t, t', e, multiset{}, 1, lo, hi, c, nx)
  {
    LeafReady(s, t, 1, lo, hi, c, nx);
    RemovedIn(t.es, key, lo, hi);
    e := t.es[Pos(t.es, key)];
    t' := TLeaf(t.idx, Removed(t.es, key));
    hide EntriesIn, Edited, Holds;
    LeafOneFlat(t.idx, t.es, t'.es, [e], []);
    LeafOneStored(s.nodes, t.idx, t.es, Leaf(t'.es, nx), nx);
    FlattenOne(t');
    hide Removed, Flat, Stored, LeafIdsOf;
  }

  // ---- composing two edits ----

  lemma FlatThen(ts: seq<Tree>, ms: seq<Tree>, ns: seq<Tree>, cut: seq<Entry>, put: seq<Entry>, m1: multiset<nat>, m2: multiset<nat>)
    requires Flat(ts, ms, cut, put, m1, multiset{}) && Flat(ms, ns, [], [], m2, multiset{})
    ensures Flat(ts, ns, cut, put, m1 + m2, multiset{})
  {
    hide EntriesOf, LeafIdsOf, IdsOf, Edited;
    EditedNothing(EntriesOf(ms), EntriesOf(ns));
    assert IdsOf(ns) + (m1 + m2) == (IdsOf(ns) + m2) + m1 == IdsOf(ms) + multiset{} + m1 == IdsOf(ms) + m1;
  }

  lemma StoredThen(a: Store, b: Store, d: Store, ts: seq<Tree>, ms: seq<Tree>, ns: seq<Tree>, m1: multiset<nat>, nx: nat)
    requires Stored(a, b, ts, ms, multiset{}, nx) && Stored(b, d, ms, ns, multiset{}, nx)
    requires IdsOf(ms) + m1 == IdsOf(ts)
    ensures Stored(a, d, ts, ns, multiset{}, nx)
  {
    hide LeafIdsOf, IdsOf, RepAll, Chain;
    assert forall x: nat :: x in IdsOf(ms) ==> x in IdsOf(ms) + m1;
    forall x: nat | x !in IdsOf(ts) + multiset{} ensures (x in a <==> x in d) && (x in a ==> d[x] == a[x]) {
      assert x !in IdsOf(ms) + multiset{};
    }
    forall x: nat | x in IdsOf(ts) && x !in IdsOf(ns) ensures x !in d {
      if x !in IdsOf(ms) {
        assert x !in IdsOf(ms) + multiset{};
      }
    }
  }

  lemma NoDupLess(a: multiset<nat>, b: multiset<nat>, m: multiset<nat>)
    requires a + m == b && NoDup(b)
    ensures NoDup(a) && forall x: nat :: x in a ==> x in b
  {
    forall x: nat ensures a[x] <= 1 && (x in a ==> x in b) {
      assert b[x] == a[x] + m[x];
      assert b[x] <= 1;
    }
  }

  // ---- the children of the node above ----

  ghost predicate KidFallen(s: State, d: Fall, t: Tree, j: nat, k': Tree, e: Entry, minus: multiset<nat>,
                            h: nat, lo: int, hi: int, c: Occ, nx: nat) {
    && Ready(s, t, h, lo, hi, c, nx) && t.TNode? && h > 1
    && j <= |t.keys| && |t.kids| == |t.keys| + 1
    && Fallen(s, d, t.kids[j], k', e, minus, h - 1, LoAt(t.keys, lo, j), HiAt(t.keys, hi, j), c,
              FirstOr(LeafIdsOf(t.kids[j + 1..]), nx))
  }

  // The run of children with the processed one in its place.
  ghost predicate KidsState(s: State, d: Fall, t: Tree, kids1: seq<Tree>, e: Entry, minus: multiset<nat>, nx: nat) {
    && t.TNode?
    && Flat(t.kids, kids1, [e], [], minus, multiset{})
    && Stored(s.nodes, d.s.nodes, t.kids, kids1, multiset{}, nx)
    && FallHeader(s, d, kids1, nx)
    && NoDup(IdsOf(kids1)) && t.idx !in IdsOf(kids1) && t.idx !in IdsOf(t.kids)
    && t.idx in d.s.nodes && d.s.nodes[t.idx] == Inner(t.keys, Tops(t.kids))
    && Below(d.s)
  }

  lemma FallRightmost(s: State, d: Fall, kids: seq<Tree>, j: nat, k': Tree, nx: nat)
    requires j < |kids| && Below(s) && RepAll(s.nodes, kids)
    requires LeafIdsOf(kids[j..j + 1]) != [] && LeafIdsOf([k']) != []
    requires nx == 0 ==> s.rightmost == LastOf(LeafIdsOf(kids))
    requires FallHeader(s, d, [k'], FirstOr(LeafIdsOf(kids[j + 1..]), nx))
    ensures FallHeader(s, d, Replaced(kids, j, j + 1, [k']), nx)
  {
    var a, b, c := kids[..j], kids[j..j + 1], kids[j + 1..];
    LeafIdsPositive(s, kids[j + 1..]);
    hide LeafIdsOf, RepAll;
    FlattenCut(kids, j, j + 1);
    FlattenJoin(a, [k'], c);
    LastOfJoin(LeafIdsOf(a), LeafIdsOf(b), LeafIdsOf([k']), LeafIdsOf(c));
  }

  lemma BelowAfter(s: State, st': Store, ts: seq<Tree>, ms: seq<Tree>, nx: nat)
    requires Below(s) && RepAll(s.nodes, ts) && Stored(s.nodes, st', ts, ms, multiset{}, nx)
    ensures forall x | x in st' :: 1 <= x <= s.highWater
  {
    RepAllIds(s.nodes, ts);
    hide RepAll, IdsOf, LeafIdsOf, Chain;
    forall x | x in st' ensures 1 <= x <= s.highWater {
      assert x in IdsOf(ts) || x !in IdsOf(ts) + multiset{};
    }
  }

  lemma KidsFallen(s: State, d: Fall, t: Tree, j: nat, k': Tree, e: Entry, minus: multiset<nat>,
                   h: nat, lo: int, hi: int, c: Occ, nx: nat)
    requires KidFallen(s, d, t, j, k', e, minus, h, lo, hi, c, nx)
    ensures KidsState(s, d, t, Replaced(t.kids, j, j + 1, [k']), e, minus, nx)
  {
    hide Ready, WFKids, WFNode, RepAll, Chain, IdsOf, LeafIdsOf, EntriesOf, NoDup, Edited, FirstOr, Replaced, Tops;
    ReadyNode(s, t, h, lo, hi, c, nx);
    assert t.kids[j..j + 1] == [t.kids[j]];
    FlatContext(t.kids, j, j + 1, [k'], [e], [], minus, multiset{});
    StoredContext(s.nodes, d.s.nodes, t.kids, j, j + 1, [k'], multiset{}, nx);
    FallRightmost(s, d, t.kids, j, k', nx);
    var kids1 := Replaced(t.kids, j, j + 1, [k']);
    BelowAfter(s, d.s.nodes, t.kids, kids1, nx);
    assert IdsOf(t.kids) + multiset{} == IdsOf(t.kids);
    NoDupLess(IdsOf(kids1), IdsOf(t.kids), minus);
    assert t.idx !in IdsOf(t.kids) + multiset{};
  }

  // ---- the cascade stops here: the node itself is not written ----

  lemma KidShape(keys: seq<Key>, kids: seq<Tree>, j: nat, k': Tree, h: nat, lo: int, hi: int, c: Occ)
    requires j <= |keys| && WFKids(keys, kids, h, lo, hi, c) && |kids| == |keys| + 1
    requires WF(k', h, LoAt(keys, lo, j), HiAt(keys, hi, j), c)
    ensures WFKids(keys, Replaced(kids, j, j + 1, [k']), h, lo, hi, c)
  {
    OneShape(k', h, LoAt(keys, lo, j), HiAt(keys, hi, j), c);
    hide WFKids, WF;
    WFKidsSplice(keys, kids, j, j, [], [k'], h, lo, hi, c);
    assert keys[..j] + [] + keys[j..] == keys;
  }

  lemma KidKeepsSize(t: Tree, j: nat, stop: bool, k': Tree, h: nat, lo: int, hi: int, c: Occ)
    requires t.TNode? && j <= |t.keys| && |t.kids| == |t.keys| + 1 && WFKids(t.keys, t.kids, h, lo, hi, c)
    requires FallShape(stop, t.kids[j], k', h, LoAt(t.keys, lo, j), HiAt(t.keys, hi, j), c)
    ensures Size(k') + 1 >= MinOf(k', c)
    ensures stop ==> WF(k', h, LoAt(t.keys, lo, j), HiAt(t.keys, hi, j), c)
  {
    WFKid(t.keys, t.kids, j, h, lo, hi, c);
  }

  lemma ReplacedOne<T>(ts: seq<T>, j: nat, x: T)
    requires j < |ts|
    ensures Replaced(ts, j, j + 1, [x]) == ts[j := x]
  {
  }

  lemma TopsKept(ts: seq<Tree>, j: nat, x: Tree)
    requires j < |ts| && x.idx == ts[j].idx
    ensures Tops(ts[j := x]) == Tops(ts)
  {
  }

  lemma StopsHere(s: State, d: Fall, t: Tree, j: nat, k': Tree, e: Entry, minus: multiset<nat>,
                  h: nat, lo: int, hi: int, c: Occ, nx: nat)
    requires KidFallen(s, d, t, j, k', e, minus, h, lo, hi, c, nx)
    requires d.stop || Size(k') >= c.fanout / 2
    ensures Fallen(s, Fall(d.s, true), t, TNode(t.idx, t.keys, t.kids[j := k']), e, minus, h, lo, hi, c, nx)
  {
    StopsShape(s, d, t, j, k', e, minus, h, lo, hi, c, nx);
    KidsFallen(s, d, t, j, k', e, minus, h, lo, hi, c, nx);
    ReplacedOne(t.kids, j, k');
    TopsKept(t.kids, j, k');
    hide *;
    StopsStored(s, d, t, t.kids[j := k'], e, minus, h, lo, hi, c, nx);
  }

  lemma StopsStored(s: State, d: Fall, t: Tree, kids1: seq<Tree>, e: Entry, minus: multiset<nat>,
                    h: nat, lo: int, hi: int, c: Occ, nx: nat)
    requires KidsState(s, d, t, kids1, e, minus, nx) && Tops(kids1) == Tops(t.kids)
    requires FallShape(true, t, TNode(t.idx, t.keys, kids1), h, lo, hi, c)
    ensures Fallen(s, Fall(d.s, true), t, TNode(t.idx, t.keys, kids1), e, minus, h, lo, hi, c, nx)
  {
    hide FallShape, IdsOf, LeafIdsOf, NoDup, Flat, Stored, Below, Tops;
    WrapFlat(t.idx, t.keys, t.kids, t.keys, kids1, [e], [], minus, multiset{});
    WrapStored(s.nodes, d.s.nodes, t.idx, t.keys, t.kids, t.keys, kids1, multiset{}, nx);
    assert d.s.nodes[t.idx := Inner(t.keys, Tops(kids1))] == d.s.nodes;
    NodeFlattens(t.idx, t.keys, kids1);
  }

  lemma StopsShape(s: State, d: Fall, t: Tree, j: nat, k': Tree, e: Entry, minus: multiset<nat>,
                   h: nat, lo: int, hi: int, c: Occ, nx: nat)
    requires KidFallen(s, d, t, j, k', e, minus, h, lo, hi, c, nx)
    requires d.stop || Size(k') >= c.fanout / 2
    ensures FallShape(true, t, TNode(t.idx, t.keys, Replaced(t.kids, j, j + 1, [k'])), h, lo, hi, c)
  {
    ReadyNode(s, t, h, lo, hi, c, nx);
    KidKeepsSize(t, j, d.stop, k', h - 1, lo, hi, c);
    assert WF(k', h - 1, LoAt(t.keys, lo, j), HiAt(t.keys, hi, j), c);
    hide Ready, WFKids, WF, Flat, Stored, FallHeader, Replaced;
    KidShape(t.keys, t.kids, j, k', h - 1, lo, hi, c);
  }

  // ---- a repair under the node ----

  lemma PairRanges(keys: seq<Key>, kids: seq<Tree>, j: nat, k': Tree, i: nat, h: nat, lo: int, hi: int, c: Occ)
    requires WFKids(keys, kids, h, lo, hi, c) && |kids| == |keys| + 1 && j <= |keys|
    requires WFNode(k', h, LoAt(keys, lo, j), HiAt(keys, hi, j), c)
    requires (i == j || i + 1 == j) && i < |keys|
    ensures LoAt(keys, lo, i) < keys[i] < HiAt(keys, hi, i + 1)
    ensures WFNode(kids[j := k'][i], h, LoAt(keys, lo, i), keys[i], c)
    ensures WFNode(kids[j := k'][i + 1], h, keys[i], HiAt(keys, hi, i + 1), c)
  {
    WFKidsSorted(keys, kids, h, lo, hi, c);
    hide WFKids, WFNode;
    KidWF(keys, kids, i, h, lo, hi, c);
    KidWF(keys, kids, i + 1, h, lo, hi, c);
  }

  lemma PairParts(st: Store, kids1: seq<Tree>, i: nat, nx: nat)
    requires i + 2 <= |kids1|
    requires RepAll(st, kids1) && Chain(st, LeafIdsOf(kids1), nx) && NoDup(IdsOf(kids1))
    ensures RepAll(st, kids1[i..i + 2]) && NoDup(IdsOf(kids1[i..i + 2]))
    ensures Chain(st, LeafIdsOf(kids1[i..i + 2]), FirstOr(LeafIdsOf(kids1[i + 2..]), nx))
    ensures forall x: nat | x in IdsOf(kids1[i..i + 2]) :: x in IdsOf(kids1)
  {
    hide *;
    PartsDisjoint(kids1, i, i + 2);
    RepAllParts(st, kids1, i, i + 2);
    ChainCut(st, kids1, i, i + 2, nx);
  }

  lemma TwoOf<T>(s: seq<T>, i: nat)
    requires i + 2 <= |s|
    ensures s[i..i + 2] == [s[i], s[i + 1]]
  {
  }

  // The pair of neighbours i, i + 1 among the processed children.
  lemma PairUnder(s: State, d: Fall, t: Tree, kids1: seq<Tree>, i: nat, e: Entry, minus: multiset<nat>,
                  h: nat, lo: int, hi: int, c: Occ, nx: nat)
    requires KidsState(s, d, t, kids1, e, minus, nx) && OccOk(s, c)
    requires i < |t.keys| && |kids1| == |t.kids| == |t.keys| + 1
    requires lo < t.keys[i] < hi && WFNode(kids1[i], h, lo, t.keys[i], c) && WFNode(kids1[i + 1], h, t.keys[i], hi, c)
    ensures UnderParent(d.s, kids1[i], kids1[i + 1], t.idx, t.keys, Tops(t.kids), i, h, lo, hi, c, FirstOr(LeafIdsOf(kids1[i + 2..]), nx))
  {
    hide WFNode, IdsOf, LeafIdsOf, NoDup, Flat, Below, RepAll, Chain, Tops, FirstOr, SameOutside, FallHeader;
    PairParts(d.s.nodes, kids1, i, nx);
    TwoOf(kids1, i);
  }

  lemma RepairShape(keys: seq<Key>, kids: seq<Tree>, j: nat, k': Tree, i: nat, mk: seq<Key>, ms: seq<Tree>, h: nat, lo: int, hi: int, c: Occ)
    requires WFKids(keys, kids, h, lo, hi, c) && |kids| == |keys| + 1 && j <= |keys|
    requires (i == j || i + 1 == j) && i < |keys| && |ms| == |mk| + 1
    requires WFKids(mk, ms, h, LoAt(keys, lo, i), HiAt(keys, hi, i + 1), c)
    ensures WFKids(Replaced(keys, i, i + 1, mk), Replaced(kids[j := k'], i, i + 2, ms), h, lo, hi, c)
  {
    hide WFKids;
    WFKidsSplice(keys, kids, i, i + 1, mk, ms, h, lo, hi, c);
    assert kids[j := k'][..i] == kids[..i] && kids[j := k'][i + 2..] == kids[i + 2..];
  }

  lemma ArraysMoved(keys: seq<Key>, kids1: seq<Tree>, i: nat, sep: Key, a: Tree, b: Tree)
    requires i + 1 < |kids1| == |keys| + 1
    requires a.idx == kids1[i].idx && b.idx == kids1[i + 1].idx
    ensures Replaced(keys, i, i + 1, [sep]) == keys[i := sep]
    ensures Tops(Replaced(kids1, i, i + 2, [a, b])) == Tops(kids1)
  {
    ReplacedOne(keys, i, sep);
    assert Replaced(kids1, i, i + 2, [a, b]) == kids1[i := a][i + 1 := b];
  }

  lemma ArraysMerged(keys: seq<Key>, kids1: seq<Tree>, i: nat, a: Tree)
    requires i + 1 < |kids1| == |keys| + 1
    requires a.idx == kids1[i].idx
    ensures Replaced(keys, i, i + 1, []) == RemoveAt(keys, i)
    ensures Tops(Replaced(kids1, i, i + 2, [a])) == RemoveAt(Tops(kids1), i + 1)
  {
    var ks := Replaced(kids1, i, i + 2, [a]);
    assert forall x | 0 <= x < |ks| :: ks[x].idx == kids1[if x <= i then x else x + 1].idx;
  }

  // The parent's arrays after a repair of the pair i, i + 1.
  lemma RepairArrays(keys: seq<Key>, kids1: seq<Tree>, i: nat, mk: seq<Key>, ms: seq<Tree>)
    requires i + 1 < |kids1| == |keys| + 1
    requires |ms| == |mk| + 1 && |mk| <= 1
    requires ms[0].idx == kids1[i].idx && (|mk| == 1 ==> ms[1].idx == kids1[i + 1].idx)
    ensures |mk| == 1 ==> Replaced(keys, i, i + 1, mk) == keys[i := mk[0]] && Tops(Replaced(kids1, i, i + 2, ms)) == Tops(kids1)
    ensures |mk| == 0 ==> Replaced(keys, i, i + 1, mk) == RemoveAt(keys, i)
                          && Tops(Replaced(kids1, i, i + 2, ms)) == RemoveAt(Tops(kids1), i + 1)
  {
    hide Replaced, RemoveAt, Tops;
    if |mk| == 0 {
      assert mk == [] && ms == [ms[0]];
      ArraysMerged(keys, kids1, i, ms[0]);
    } else {
      assert mk == [mk[0]] && ms == [ms[0], ms[1]];
      ArraysMoved(keys, kids1, i, mk[0], ms[0], ms[1]);
    }
  }

  lemma RepairFlat(s: State, d: Fall, t: Tree, kids1: seq<Tree>, i: nat, ms: seq<Tree>, st2: Store, e: Entry,
                   minus: multiset<nat>, minus2: multiset<nat>, nx: nat)
    requires KidsState(s, d, t, kids1, e, minus, nx)
    requires i + 2 <= |kids1|
    requires Flat(kids1[i..i + 2], ms, [], [], minus2, multiset{})
    requires Stored(d.s.nodes, st2, kids1[i..i + 2], ms, multiset{}, FirstOr(LeafIdsOf(kids1[i + 2..]), nx))
    ensures var kids2 := Replaced(kids1, i, i + 2, ms);
            && Flat(t.kids, kids2, [e], [], minus + minus2, multiset{})
            && Stored(s.nodes, st2, t.kids, kids2, multiset{}, nx)
            && t.idx !in IdsOf(kids2)
  {
    hide IdsOf, LeafIdsOf, EntriesOf, NoDup, Below, RepAll, Chain, SameOutside, FirstOr, FallHeader, Tops, Replaced, Edited;
    var kids2 := Replaced(kids1, i, i + 2, ms);
    FlatContext(kids1, i, i + 2, ms, [], [], minus2, multiset{});
    StoredContext(d.s.nodes, st2, kids1, i, i + 2, ms, multiset{}, nx);
    FlatThen(t.kids, kids1, kids2, [e], [], minus, minus2);
    assert IdsOf(t.kids) + multiset{} == IdsOf(t.kids) && IdsOf(kids1) + multiset{} == IdsOf(kids1);
    StoredThen(s.nodes, d.s.nodes, st2, t.kids, kids1, kids2, minus, nx);
    NoDupLess(IdsOf(kids2), IdsOf(kids1), minus2);
  }

  lemma RepairRightmost(s: State, d: Fall, s2: State, kids1: seq<Tree>, i: nat, ms: seq<Tree>, leafMerge: bool, l: nat, nx: nat)
    requires i + 2 <= |kids1| && Below(d.s) && RepAll(d.s.nodes, kids1)
    requires FallHeader(s, d, kids1, nx)
    requires LeafIdsOf(kids1[i..i + 2]) != [] && LeafIdsOf(ms) != []
    requires LastOf(LeafIdsOf(ms)) == if leafMerge then l else LastOf(LeafIdsOf(kids1[i..i + 2]))
    requires s2 == d.s.(nodes := s2.nodes,
                        rightmost := if FirstOr(LeafIdsOf(kids1[i + 2..]), nx) == 0 && leafMerge then l else d.s.rightmost)
    ensures s2 == s.(nodes := s2.nodes, rightmost := if nx == 0 then LastOf(LeafIdsOf(Replaced(kids1, i, i + 2, ms))) else s.rightmost)
  {
    LeafIdsPositive(d.s, kids1[i + 2..]);
    hide LeafIdsOf, RepAll, Below;
    FlattenCut(kids1, i, i + 2);
    FlattenJoin(kids1[..i], ms, kids1[i + 2..]);
    LastOfJoin(LeafIdsOf(kids1[..i]), LeafIdsOf(kids1[i..i + 2]), LeafIdsOf(kids1[i..i + 2]), LeafIdsOf(kids1[i + 2..]));
    LastOfJoin(LeafIdsOf(kids1[..i]), LeafIdsOf(kids1[i..i + 2]), LeafIdsOf(ms), LeafIdsOf(kids1[i + 2..]));
  }

  lemma RepairFalls(s: State, d: Fall, t: Tree, kids1: seq<Tree>, i: nat, r: Result<State>, st2: Store,
                    mk: seq<Key>, ms: seq<Tree>, e: Entry, minus: multiset<nat>, minus2: multiset<nat>,
                    plo: int, phi: int, h: nat, lo: int, hi: int, c: Occ, nx: nat)
    requires KidsState(s, d, t, kids1, e, minus, nx)
    requires i < |t.keys| && |kids1| == |t.kids| == |t.keys| + 1 && h > 1 && |t.keys| <= c.fanout
    requires Tops(kids1) == Tops(t.kids)
    requires kids1[i..i + 2] == [kids1[i], kids1[i + 1]]
    requires Repaired(d.s, r, st2, kids1[i], kids1[i + 1], t.idx, t.keys, Tops(t.kids), i, mk, ms, minus2,
                      h - 1, plo, phi, c, FirstOr(LeafIdsOf(kids1[i + 2..]), nx))
    requires WFKids(Replaced(t.keys, i, i + 1, mk), Replaced(kids1, i, i + 2, ms), h - 1, lo, hi, c)
    ensures r.Ok?
    ensures Fallen(s, Fall(r.value, |mk| == 1), t, TNode(t.idx, Replaced(t.keys, i, i + 1, mk), Replaced(kids1, i, i + 2, ms)),
                   e, minus + minus2, h, lo, hi, c, nx)
  {
    hide WFKids, IdsOf, LeafIdsOf, EntriesOf, NoDup, Below, Flat, FirstOr, Tops, RemoveAt, Chain, RepAll, SameOutside;
    var keys2, kids2 := Replaced(t.keys, i, i + 1, mk), Replaced(kids1, i, i + 2, ms);
    RepairLeaves(d.s, st2, kids1, i, ms, minus2, nx);
    RepairFlat(s, d, t, kids1, i, ms, st2, e, minus, minus2, nx);
    RepairArrays(t.keys, kids1, i, mk, ms);
    RepairRightmost(s, d, r.value, kids1, i, ms, |mk| == 0 && kids1[i].TLeaf?, kids1[i].idx, nx);
    hide Stored, FallHeader, Repaired;
    WrapFlat(t.idx, t.keys, t.kids, keys2, kids2, [e], [], minus + minus2, multiset{});
    WrapStored(s.nodes, st2, t.idx, t.keys, t.kids, keys2, kids2, multiset{}, nx);
    NodeFlattens(t.idx, keys2, kids2);
  }

  lemma RepairLeaves(s: State, st2: Store, kids1: seq<Tree>, i: nat, ms: seq<Tree>, minus2: multiset<nat>, nx: nat)
    requires i + 2 <= |kids1|
    requires Flat(kids1[i..i + 2], ms, [], [], minus2, multiset{})
    ensures LeafIdsOf(kids1[i..i + 2]) != [] && LeafIdsOf(ms) != []
  {
  }

  // ---- one whole level ----

  lemma {:induction false} TopsInIds(ts: seq<Tree>, i: nat)
    requires i < |ts|
    ensures ts[i].idx in Ids(ts[i]) && ts[i].idx in IdsOf(ts)
  {
    IdsOfMember(ts, i);
    assert ts[i].idx in Ids(ts[i]);
  }

  lemma TopsDistinct(ts: seq<Tree>, i: nat, j: nat)
    requires i < j < |ts| && NoDup(IdsOf(ts))
    ensures ts[i].idx != ts[j].idx
  {
    PartsDisjoint(ts, j, j + 1);
    assert ts[j..j + 1] == [ts[j]];
    FlattenOne(ts[j]);
    TopsInIds(ts[..j], i);
    TopsInIds(ts, j);
  }

  // The parent finds the node at its position.
  lemma IndexOfTop(ts: seq<Tree>, j: nat)
    requires j < |ts| && NoDup(IdsOf(ts))
    ensures IndexOf(Tops(ts), ts[j].idx) == j
  {
    var i := IndexOf(Tops(ts), ts[j].idx);
    if i < j {
      TopsDistinct(ts, i, j);
    }
  }

  lemma CountIs(s: State, ts: seq<Tree>, i: nat)
    requires RepAll(s.nodes, ts) && i < |ts|
    ensures ts[i].idx in s.nodes && Count(s.At(ts[i].idx)) == Size(ts[i])
  {
    assert Rep(s.nodes, ts[i]);
  }

  lemma KidSizes(t: Tree, j: nat, k': Tree, i: nat, h: nat, lo: int, hi: int, c: Occ)
    requires t.TNode? && j <= |t.keys| && |t.kids| == |t.keys| + 1 && WFKids(t.keys, t.kids, h, lo, hi, c)
    requires FallShape(false, t.kids[j], k', h, LoAt(t.keys, lo, j), HiAt(t.keys, hi, j), c)
    requires (i == j || i + 1 == j) && i < |t.keys|
    ensures MinOf(k', c) - 1 <= Size(k')
    ensures var sib := t.kids[if i == j then j + 1 else i]; MinOf(sib, c) <= Size(sib) <= c.fanout
  {
    hide WFKids;
    WFKid(t.keys, t.kids, j, h, lo, hi, c);
    WFKid(t.keys, t.kids, if i == j then j + 1 else i, h, lo, hi, c);
  }

  function RepairResult(s: State, node: nat, sib: nat, par: nat, i: nat, right: bool, borrow: bool): Result<State> {
    if right then (if borrow then BorrowFromRight(s, node, sib, par, i) else Merge(s, node, sib, par, i))
    else (if borrow then BorrowFromLeft(s, sib, node, par, i) else Merge(s, sib, node, par, i))
  }

  // The pair of neighbours, one of them short, repaired; this is the whole of one level.
  lemma PairFalls(s: State, d: Fall, t: Tree, j: nat, k': Tree, i: nat, e: Entry, minus: multiset<nat>,
                  h: nat, lo: int, hi: int, c: Occ, nx: nat)
    returns (t': Tree, minus': multiset<nat>)
    requires KidFallen(s, d, t, j, k', e, minus, h, lo, hi, c, nx) && !d.stop && Size(k') < c.fanout / 2
    requires (i == j || i + 1 == j) && i < |t.keys|
    ensures RepairResult(d.s, k'.idx, t.kids[if i == j then j + 1 else i].idx, t.idx, i, i == j,
                         Size(t.kids[if i == j then j + 1 else i]) > c.fanout / 2).Ok?
    ensures var borrow := Size(t.kids[if i == j then j + 1 else i]) > c.fanout / 2;
            Fallen(s, Fall(RepairResult(d.s, k'.idx, t.kids[if i == j then j + 1 else i].idx, t.idx, i, i == j, borrow).value, borrow),
                   t, t', e, minus', h, lo, hi, c, nx)
  {
    hide Ready, WFKids, WFNode, Flat, Stored, FallHeader, FirstOr, LeafIdsOf, Repaired, UnderParent, BorrowFromRight,
      BorrowFromLeft, Merge, MinOf, Tops, Replaced, Below;
    ReadyNode(s, t, h, lo, hi, c, nx);
    KidSizes(t, j, k', i, h - 1, lo, hi, c);
    KidsFallen(s, d, t, j, k', e, minus, h, lo, hi, c, nx);
    ReplacedOne(t.kids, j, k');
    TopsKept(t.kids, j, k');
    var kids1 := t.kids[j := k'];
    PairRanges(t.keys, t.kids, j, k', i, h - 1, lo, hi, c);
    hide FallShape, KidsState;
    var plo, phi := LoAt(t.keys, lo, i), HiAt(t.keys, hi, i + 1);
    PairUnder(s, d, t, kids1, i, e, minus, h - 1, plo, phi, c, nx);
    TwoOf(kids1, i);
    var st2, mk, ms, minus2;
    var nxi := FirstOr(LeafIdsOf(kids1[i + 2..]), nx);
    if i == j {
      st2, mk, ms, minus2 := RepairLeftShort(d.s, kids1[i], kids1[i + 1], t.idx, t.keys, Tops(t.kids), i, h - 1, plo, phi, c, nxi);
    } else {
      st2, mk, ms, minus2 := RepairRightShort(d.s, kids1[i], kids1[i + 1], t.idx, t.keys, Tops(t.kids), i, h - 1, plo, phi, c, nxi);
    }
    var sib := t.kids[if i == j then j + 1 else i];
    var borrow := Size(sib) > c.fanout / 2;
    var r := RepairResult(d.s, k'.idx, sib.idx, t.idx, i, i == j, borrow);
    RepairedShape(d.s, r, st2, kids1[i], kids1[i + 1], t.idx, t.keys, Tops(t.kids), i, mk, ms, minus2, h - 1, plo, phi, c, nxi);
    RepairShape(t.keys, t.kids, j, k', i, mk, ms, h - 1, lo, hi, c);
    RepairFalls(s, d, t, kids1, i, r, st2, mk, ms, e, minus, minus2, plo, phi, h, lo, hi, c, nx);
    t' := TNode(t.idx, Replaced(t.keys, i, i + 1, mk), Replaced(kids1, i, i + 2, ms));
    minus' := minus + minus2;
  }

  lemma RepairedShape(s: State, r: Result<State>, st2: Store, l: Tree, rt: Tree, par: nat, pk: seq<Key>, pc: seq<nat>, pos: nat,
                      mk: seq<Key>, ms: seq<Tree>, minus: multiset<nat>, h: nat, lo: int, hi: int, c: Occ, nx: nat)
    requires pos < |pk| && pos + 1 < |pc|
    requires Repaired(s, r, st2, l, rt, par, pk, pc, pos, mk, ms, minus, h, lo, hi, c, nx)
    ensures |ms| == |mk| + 1 && WFKids(mk, ms, h, lo, hi, c)
  {
  }

  // ---- the engine's repair step ----

  ghost predicate RqOk(rq: DeleteRq) {
    |rq.path| == |rq.sides| && SibOff(rq.sides, |rq.sides|) <= |rq.sibs|
  }

  // The request supplies, for level lv, a neighbour of child j of node `t`.
  ghost predicate SideOk(rq: DeleteRq, t: Tree, j: nat, lv: nat)
    requires RqOk(rq) && t.TNode? && j < |t.kids| && lv < |rq.path|
  {
    && rq.sides[lv] != 0
    && (rq.sides[lv] == 1 ==> j + 1 < |t.kids|) && (rq.sides[lv] != 1 ==> j > 0)
    && SibOff(rq.sides, lv) < |rq.sibs|
    && rq.sibs[SibOff(rq.sides, lv)] == t.kids[if rq.sides[lv] == 1 then j + 1 else j - 1].idx
  }

  lemma SibOffInside(rq: DeleteRq, lv: nat)
    requires RqOk(rq) && lv < |rq.path| && rq.sides[lv] != 0
    ensures SibOff(rq.sides, lv) < |rq.sibs|
  {
    hide SibOff;
    SibOffNext(rq.sides, lv);
    SibOffMono(rq.sides, lv + 1, |rq.sides|);
  }

  // What the repair finds in the accounts.
  lemma FixReads(s: State, d: Fall, t: Tree, j: nat, k': Tree, e: Entry, minus: multiset<nat>,
                 h: nat, lo: int, hi: int, c: Occ, nx: nat)
    requires KidFallen(s, d, t, j, k', e, minus, h, lo, hi, c, nx)
    ensures d.s.At(t.idx) == Inner(t.keys, Tops(t.kids))
    ensures IndexOf(Tops(t.kids), k'.idx) == j && |t.kids| == |t.keys| + 1
    ensures d.s.fanout == c.fanout && c.fanout == s.fanout
    ensures forall x | 0 <= x < |t.kids| && x != j ::
              t.kids[x].idx in d.s.nodes && Count(d.s.At(t.kids[x].idx)) == Size(t.kids[x]) <= c.fanout
    ensures Count(d.s.At(k'.idx)) == Size(k')
  {
    hide IdsOf, LeafIdsOf, NoDup, Below, WFKids, WFNode, Flat, Stored, FirstOr, Ready;
    ReadyNode(s, t, h, lo, hi, c, nx);
    KidsFallen(s, d, t, j, k', e, minus, h, lo, hi, c, nx);
    KidsHeld(s, d, t, Replaced(t.kids, j, j + 1, [k']), e, minus, nx);
    ReplacedOne(t.kids, j, k');
    TopsKept(t.kids, j, k');
    var kids1 := t.kids[j := k'];
    IndexOfTop(kids1, j);
    CountIs(d.s, kids1, j);
    forall x | 0 <= x < |t.kids| && x != j
      ensures t.kids[x].idx in d.s.nodes && Count(d.s.At(t.kids[x].idx)) == Size(t.kids[x]) <= c.fanout
    {
      CountIs(d.s, kids1, x);
      KidSize(t.keys, t.kids, x, h - 1, lo, hi, c);
    }
  }

  lemma KidSize(keys: seq<Key>, kids: seq<Tree>, x: nat, h: nat, lo: int, hi: int, c: Occ)
    requires WFKids(keys, kids, h, lo, hi, c) && x <= |keys| && |kids| == |keys| + 1
    ensures Size(kids[x]) <= c.fanout
  {
    KidWF(keys, kids, x, h, lo, hi, c);
  }

  lemma KidsHeld(s: State, d: Fall, t: Tree, kids1: seq<Tree>, e: Entry, minus: multiset<nat>, nx: nat)
    requires KidsState(s, d, t, kids1, e, minus, nx)
    ensures RepAll(d.s.nodes, kids1) && NoDup(IdsOf(kids1))
    ensures d.s.fanout == s.fanout
    ensures t.TNode? && t.idx in d.s.nodes && d.s.nodes[t.idx] == Inner(t.keys, Tops(t.kids))
  {
  }

  lemma RepairIs(s: State, node: nat, sib: nat, par: nat, our: nat, right: bool)
    requires right || our > 0
    ensures var borrow := Count(s.At(sib)) > s.Min();
            var r := if right then (if borrow then BorrowFromRight(s, node, sib, par, our) else Merge(s, node, sib, par, our))
                     else (if borrow then BorrowFromLeft(s, sib, node, par, our - 1) else Merge(s, sib, node, par, our - 1));
            Repair(s, node, sib, par, our, right) == if r.Ok? then Ok(Fall(r.value, borrow)) else Err(r.error)
  {
  }

  // The pieces of Fix, in the order they are looked at.
  lemma FixIs(s: State, rq: DeleteRq, lvl: nat)
    requires 0 < lvl < |rq.path| == |rq.sides| && SibOff(rq.sides, |rq.sides|) <= |rq.sibs|
    requires s.At(rq.path[lvl - 1]).Inner? && Shaped(s.At(rq.path[lvl - 1]))
    ensures var node, par := rq.path[lvl], rq.path[lvl - 1];
            var v := s.At(par);
            var our, right := IndexOf(v.kids, node), rq.sides[lvl] == 1;
            && (rq.sides[lvl] == 0 ==> Fix(s, rq, lvl) == Err(BadPath))
            && (rq.sides[lvl] != 0 ==>
                  && SibOff(rq.sides, lvl) < |rq.sibs|
                  && (our > |v.keys| ==> Fix(s, rq, lvl) == Err(BadPath))
                  && (our <= |v.keys| ==>
                        && (right && our + 1 > |v.keys| ==> Fix(s, rq, lvl) == Err(BadPath))
                        && (!right && our == 0 ==> Fix(s, rq, lvl) == Err(BadPath))
                        && ((right && our < |v.keys|) || (!right && our > 0) ==>
                              var sib, want := rq.sibs[SibOff(rq.sides, lvl)], v.kids[if right then our + 1 else our - 1];
                              && (CheckNode(s, sib, want).Some? ==> Fix(s, rq, lvl) == Err(CheckNode(s, sib, want).value))
                              && (CheckNode(s, sib, want) == None ==> Fix(s, rq, lvl) == Repair(s, node, sib, par, our, right)))))
  {
    if rq.sides[lvl] != 0 {
      SibOffInside(rq, lvl);
    }
    hide Repair, CheckNode;
  }

  lemma FixTakes(s: State, rq: DeleteRq, lv: nat, keys: seq<Key>, kids: seq<nat>, j: nat)
    requires RqOk(rq) && 0 < lv < |rq.path|
    requires s.At(rq.path[lv - 1]) == Inner(keys, kids) && |kids| == |keys| + 1
    requires IndexOf(kids, rq.path[lv]) == j && j < |kids|
    requires forall x | 0 <= x < |kids| && x != j :: kids[x] in s.nodes && Count(s.At(kids[x])) <= s.fanout
    ensures var right, off := rq.sides[lv] == 1, SibOff(rq.sides, lv);
            var ok := rq.sides[lv] != 0 && (if right then j + 1 < |kids| else j > 0)
                      && off < |rq.sibs| && rq.sibs[off] == kids[if right then j + 1 else j - 1];
            if ok then Fix(s, rq, lv) == Repair(s, rq.path[lv], rq.sibs[off], rq.path[lv - 1], j, right)
            else Fix(s, rq, lv).Err?
  {
    hide IndexOf, SibOff, Repair, Fix;
    FixIs(s, rq, lv);
  }

  lemma FixFalls(s: State, d: Fall, rq: DeleteRq, lv: nat, t: Tree, j: nat, k': Tree, e: Entry, minus: multiset<nat>,
                 h: nat, lo: int, hi: int, c: Occ, nx: nat)
    returns (t': Tree, minus': multiset<nat>)
    requires KidFallen(s, d, t, j, k', e, minus, h, lo, hi, c, nx) && !d.stop && Size(k') < c.fanout / 2
    requires RqOk(rq) && 0 < lv < |rq.path| && rq.path[lv - 1] == t.idx && rq.path[lv] == k'.idx
    ensures t.TNode? && j < |t.kids| && (Fix(d.s, rq, lv).Ok? <==> SideOk(rq, t, j, lv))
    ensures Fix(d.s, rq, lv).Ok? ==> Fallen(s, Fix(d.s, rq, lv).value, t, t', e, minus', h, lo, hi, c, nx)
  {
    FixReads(s, d, t, j, k', e, minus, h, lo, hi, c, nx);
    assert t.TNode? && j <= |t.keys|;
    hide Fix, IndexOf, SibOff, Fallen, Repair;
    FixTakes(d.s, rq, lv, t.keys, Tops(t.kids), j);
    t', minus' := t, minus;
    if SideOk(rq, t, j, lv) {
      var right := rq.sides[lv] == 1;
      var x := if right then j + 1 else j - 1;
      t', minus' := PairFalls(s, d, t, j, k', if right then j else j - 1, e, minus, h, lo, hi, c, nx);
      RepairIs(d.s, k'.idx, t.kids[x].idx, t.idx, j, right);
    }
  }

  // ---- all levels ----

  // The request has a neighbour ready at every level of the search path below `t`.
  ghost predicate SidesGood(rq: DeleteRq, t: Tree, lvl: nat)
    requires RqOk(rq)
    decreases t
  {
    t.TLeaf? ||
    (var j := Route(t.keys, rq.key);
     j < |t.kids| && lvl + 1 < |rq.path| && SideOk(rq, t, j, lvl + 1) && SidesGood(rq, t.kids[j], lvl + 1))
  }

  lemma LeafLevel(s: State, rq: DeleteRq, lvl: nat, t: Tree, h: nat, lo: int, hi: int, c: Occ, nx: nat)
    returns (e: Entry, t': Tree)
    requires RqOk(rq) && lvl == |rq.path| - 1 && rq.path[lvl] == t.idx
    requires Ready(s, t, h, lo, hi, c, nx) && t.TLeaf?
    requires DeleteUp(s, rq, lvl).Ok? || HasKey(t.es, rq.key)
    ensures DeleteUp(s, rq, lvl).Ok? && e.key == rq.key
    ensures Fallen(s, DeleteUp(s, rq, lvl).value, t, t', e, multiset{}, h, lo, hi, c, nx)
  {
    LeafReady(s, t, h, lo, hi, c, nx);
    HoldsIff(t.es, rq.key, lo, hi);
    hide HasKey;
    e, t' := LeafFalls(s, t, rq.key, lo, hi, c, nx);
    hide Fallen;
  }

  lemma InnerLevel(s: State, rq: DeleteRq, lvl: nat, t: Tree, j: nat, d: Fall, k': Tree, e: Entry, minus: multiset<nat>,
                   h: nat, lo: int, hi: int, c: Occ, nx: nat)
    returns (t': Tree, minus': multiset<nat>)
    requires RqOk(rq) && lvl + 1 < |rq.path| && rq.path[lvl] == t.idx && rq.path[lvl + 1] == k'.idx
    requires KidFallen(s, d, t, j, k', e, minus, h, lo, hi, c, nx) && DeleteUp(s, rq, lvl + 1) == Ok(d)
    requires t.TNode? && j < |t.kids|
    requires DeleteUp(s, rq, lvl).Ok? || SideOk(rq, t, j, lvl + 1)
    ensures DeleteUp(s, rq, lvl).Ok?
    ensures Fallen(s, DeleteUp(s, rq, lvl).value, t, t', e, minus', h, lo, hi, c, nx)
  {
    hide KidFallen, Fallen, Fix, SideOk, SibOff;
    FixReads(s, d, t, j, k', e, minus, h, lo, hi, c, nx);
    if d.stop || Size(k') >= c.fanout / 2 {
      t', minus' := TNode(t.idx, t.keys, t.kids[j := k']), minus;
      StopsHere(s, d, t, j, k', e, minus, h, lo, hi, c, nx);
    } else {
      t', minus' := FixFalls(s, d, rq, lvl + 1, t, j, k', e, minus, h, lo, hi, c, nx);
    }
  }

  // One step down the search path.
  lemma StepDown(s: State, path: seq<nat>, key: Key, lvl: nat, t: Tree, h: nat, lo: int, hi: int, c: Occ, nx: nat)
    returns (j: nat)
    requires lvl < |path| && path[lvl..] == PathIn(t, key)
    requires Ready(s, t, h, lo, hi, c, nx) && lo <= key < hi && t.TNode?
    ensures h > 1 && |t.kids| == |t.keys| + 1 && j == Route(t.keys, key) && j <= |t.keys|
    ensures Ready(s, t.kids[j], h - 1, LoAt(t.keys, lo, j), HiAt(t.keys, hi, j), c, FirstOr(LeafIdsOf(t.kids[j + 1..]), nx))
    ensures LoAt(t.keys, lo, j) <= key < HiAt(t.keys, hi, j)
    ensures lvl + 1 < |path| && path[lvl] == t.idx && path[lvl + 1] == t.kids[j].idx
    ensures path[lvl + 1..] == PathIn(t.kids[j], key)
    ensures HasKey(Entries(t), key) <==> HasKey(Entries(t.kids[j]), key)
  {
    ReadyNode(s, t, h, lo, hi, c, nx);
    j := Route(t.keys, key);
    RouteRange(t.keys, t.kids, key, h - 1, lo, hi, c);
    ReadyKid(s, t, j, h, lo, hi, c, nx);
    LookupInKid(t.keys, t.kids, j, Entry(key, []), h - 1, lo, hi, c);
    hide WFKids, Ready, HasKey, EntriesOf, LeafIdsOf, FirstOr;
    var p := PathIn(t, key);
    assert p == [t.idx] + PathIn(t.kids[j], key);
    assert PathIn(t.kids[j], key)[0] == t.kids[j].idx;
    assert path[lvl] == p[0] && path[lvl + 1] == p[1];
    assert path[lvl + 1..] == path[lvl..][1..] == p[1..];
  }

  // The cascade through all levels of a subtree.
  lemma {:induction false} DeleteUpFalls(s: State, rq: DeleteRq, lvl: nat, t: Tree, h: nat, lo: int, hi: int, c: Occ, nx: nat)
    returns (e: Entry, t': Tree, minus: multiset<nat>)
    requires RqOk(rq) && lvl < |rq.path| && rq.path[lvl..] == PathIn(t, rq.key)
    requires Ready(s, t, h, lo, hi, c, nx) && lo <= rq.key < hi
    requires DeleteUp(s, rq, lvl).Ok? || (HasKey(Entries(t), rq.key) && SidesGood(rq, t, lvl))
    ensures DeleteUp(s, rq, lvl).Ok? && e.key == rq.key
    ensures Fallen(s, DeleteUp(s, rq, lvl).value, t, t', e, minus, h, lo, hi, c, nx)
    decreases |rq.path| - lvl
  {
    hide Fallen, Ready, LeafIdsOf, FirstOr, HasKey, EntriesOf, Fix, SibOff, SideOk, Route;
    if t.TLeaf? {
      assert rq.path[lvl] == rq.path[lvl..][0] && |rq.path[lvl..]| == 1;
      e, t' := LeafLevel(s, rq, lvl, t, h, lo, hi, c, nx);
      minus := multiset{};
    } else {
      var j := StepDown(s, rq.path, rq.key, lvl, t, h, lo, hi, c, nx);
      hide PathIn;
      var plo, phi, nxj := LoAt(t.keys, lo, j), HiAt(t.keys, hi, j), FirstOr(LeafIdsOf(t.kids[j + 1..]), nx);
      var k';
      e, k', minus := DeleteUpFalls(s, rq, lvl + 1, t.kids[j], h - 1, plo, phi, c, nxj);
      var d := DeleteUp(s, rq, lvl + 1).value;
      FallenTop(s, d, t.kids[j], k', e, minus, h - 1, plo, phi, c, nxj);
      t', minus := InnerLevel(s, rq, lvl, t, j, d, k', e, minus, h, lo, hi, c, nx);
    }
  }

  lemma FallenTop(s: State, d: Fall, t: Tree, t': Tree, e: Entry, minus: multiset<nat>, h: nat, lo: int, hi: int, c: Occ, nx: nat)
    requires Fallen(s, d, t, t', e, minus, h, lo, hi, c, nx)
    ensures t'.idx == t.idx
  {
  }
}
