// How a change to some subtrees carries over to the run of children, and the store, around them.
module Edits {
  import opened Base
  import opened NodeViews
  import opened Shapes
  import opened Represent

  // ---- one edit of a sequence of entries ----

  ghost predicate EditAt(a: seq<Entry>, b: seq<Entry>, cut: seq<Entry>, put: seq<Entry>, n: nat) {
    && n + |cut| <= |a|
    && a[n..n + |cut|] == cut
    && b == a[..n] + put + a[n + |cut|..]
  }

  // `b` is `a` with one occurrence of the run `cut` replaced by the run `put`.
  ghost predicate Edited(a: seq<Entry>, b: seq<Entry>, cut: seq<Entry>, put: seq<Entry>) {
    exists n: nat :: EditAt(a, b, cut, put, n)
  }

  lemma EditAtContext(p: seq<Entry>, a: seq<Entry>, b: seq<Entry>, q: seq<Entry>, cut: seq<Entry>, put: seq<Entry>, n: nat)
    requires EditAt(a, b, cut, put, n)
    ensures EditAt(p + a + q, p + b + q, cut, put, |p| + n)
  {
    var x := p + a + q;
    assert x[|p| + n..|p| + n + |cut|] == a[n..n + |cut|];
    assert x[..|p| + n] == p + a[..n];
    assert x[|p| + n + |cut|..] == a[n + |cut|..] + q;
  }

  lemma EditedContext(p: seq<Entry>, a: seq<Entry>, b: seq<Entry>, q: seq<Entry>, cut: seq<Entry>, put: seq<Entry>)
    requires Edited(a, b, cut, put)
    ensures Edited(p + a + q, p + b + q, cut, put)
  {
    var n: nat :| EditAt(a, b, cut, put, n);
    EditAtContext(p, a, b, q, cut, put, n);
  }

  // ---- one edit of a run of trees ----

  // The trees `ms` stand where `ts` stood: one entry edit, the same first leaf, the node
  // indices `minus` given up and `plus` taken on.
  ghost predicate Flat(ts: seq<Tree>, ms: seq<Tree>, cut: seq<Entry>, put: seq<Entry>, minus: multiset<nat>, plus: multiset<nat>) {
    && Edited(EntriesOf(ts), EntriesOf(ms), cut, put)
    && LeafIdsOf(ts) != [] && LeafIdsOf(ms) != [] && LeafIdsOf(ms)[0] == LeafIdsOf(ts)[0]
    && IdsOf(ms) + minus == IdsOf(ts) + plus
  }

  // Store `st'` holds `ms` where `st` held `ts`, and differs nowhere else.
  ghost predicate Stored(st: Store, st': Store, ts: seq<Tree>, ms: seq<Tree>, plus: multiset<nat>, nx: nat) {
    && RepAll(st', ms)
    && Chain(st', LeafIdsOf(ms), nx)
    && SameOutside(st, st', IdsOf(ts) + plus)
    && forall x: nat | x in IdsOf(ts) && x !in IdsOf(ms) :: x !in st'
  }

  ghost predicate NoDup(m: multiset<nat>) {
    forall x: nat :: m[x] <= 1
  }

  function Replaced<T>(s: seq<T>, i: nat, j: nat, ms: seq<T>): seq<T>
    requires i <= j <= |s|
  {
    s[..i] + ms + s[j..]
  }

  lemma FirstLeafContext(a: seq<nat>, b: seq<nat>, b': seq<nat>, c: seq<nat>)
    requires b != [] && b' != [] && b[0] == b'[0]
    ensures a + b + c != [] && a + b' + c != [] && (a + b' + c)[0] == (a + b + c)[0]
  {
  }

  lemma IdsContext(a: multiset<nat>, b: multiset<nat>, b': multiset<nat>, c: multiset<nat>, minus: multiset<nat>, plus: multiset<nat>)
    requires b' + minus == b + plus
    ensures a + b' + c + minus == a + b + c + plus
  {
    calc {
      a + b' + c + minus;
      a + (b' + minus) + c;
      a + (b + plus) + c;
      a + b + c + plus;
    }
  }

  lemma FlatContext(kids: seq<Tree>, i: nat, j: nat, ms: seq<Tree>, cut: seq<Entry>, put: seq<Entry>, minus: multiset<nat>, plus: multiset<nat>)
    requires i <= j <= |kids|
    requires Flat(kids[i..j], ms, cut, put, minus, plus)
    ensures Flat(kids, Replaced(kids, i, j, ms), cut, put, minus, plus)
  {
    hide EntriesOf, LeafIdsOf, IdsOf, Edited;
    var p, m, q := kids[..i], kids[i..j], kids[j..];
    FlattenCut(kids, i, j);
    FlattenJoin(p, ms, q);
    EditedContext(EntriesOf(p), EntriesOf(m), EntriesOf(ms), EntriesOf(q), cut, put);
    FirstLeafContext(LeafIdsOf(p), LeafIdsOf(m), LeafIdsOf(ms), LeafIdsOf(q));
    IdsContext(IdsOf(p), IdsOf(m), IdsOf(ms), IdsOf(q), minus, plus);
  }

  lemma ChainCutThree(st: Store, a: seq<nat>, b: seq<nat>, c: seq<nat>, nx: nat)
    ensures Chain(st, a + b + c, nx)
       <==> Chain(st, a, FirstOr(b + c, nx)) && Chain(st, b, FirstOr(c, nx)) && Chain(st, c, nx)
  {
    hide Chain, FirstOr;
    assert a + b + c == a + (b + c);
    ChainConcat(st, a, b + c, nx);
    ChainConcat(st, b, c, nx);
  }

  // The leaf chain of a run of children, cut around children i..j.
  lemma ChainCut(st: Store, kids: seq<Tree>, i: nat, j: nat, nx: nat)
    requires i <= j <= |kids|
    requires Chain(st, LeafIdsOf(kids), nx)
    ensures var b, c := LeafIdsOf(kids[i..j]), LeafIdsOf(kids[j..]);
            && Chain(st, c, nx)
            && Chain(st, b, FirstOr(c, nx))
            && Chain(st, LeafIdsOf(kids[..i]), FirstOr(b + c, nx))
  {
    hide *;
    FlattenCut(kids, i, j);
    ChainCutThree(st, LeafIdsOf(kids[..i]), LeafIdsOf(kids[i..j]), LeafIdsOf(kids[j..]), nx);
  }

  // Parts of a run without repeated indices do not share any.
  lemma PartsDisjoint(kids: seq<Tree>, i: nat, j: nat)
    requires i <= j <= |kids|
    requires NoDup(IdsOf(kids))
    ensures NoDup(IdsOf(kids[i..j]))
    ensures forall x: nat | x in IdsOf(kids[..i]) || x in IdsOf(kids[j..]) :: x in IdsOf(kids) && x !in IdsOf(kids[i..j])
    ensures forall x: nat | x in IdsOf(kids[i..j]) :: x in IdsOf(kids)
  {
    FlattenCut(kids, i, j);
    hide IdsOf;
    var a, b, c := IdsOf(kids[..i]), IdsOf(kids[i..j]), IdsOf(kids[j..]);
    forall x: nat ensures (a + b + c)[x] == a[x] + b[x] + c[x] { }
    forall x: nat ensures IdsOf(kids)[x] == a[x] + b[x] + c[x] { }
    forall x: nat ensures b[x] <= 1 { assert IdsOf(kids)[x] <= 1; }
  }

  lemma RepAllParts(st: Store, kids: seq<Tree>, i: nat, j: nat)
    requires i <= j <= |kids|
    requires RepAll(st, kids)
    ensures RepAll(st, kids[..i]) && RepAll(st, kids[i..j]) && RepAll(st, kids[j..])
  {
  }

  lemma RepAllJoin(st: Store, a: seq<Tree>, b: seq<Tree>, c: seq<Tree>)
    requires RepAll(st, a) && RepAll(st, b) && RepAll(st, c)
    ensures RepAll(st, a + b + c)
  {
    hide Rep;
  }

  // Trees outside an edit are held as before, and linked as before.
  lemma UntouchedPart(st: Store, st': Store, ts: seq<Tree>, part: seq<Tree>, plus: multiset<nat>, nx: nat)
    requires RepAll(st, part) && Chain(st, LeafIdsOf(part), nx)
    requires SameOutside(st, st', IdsOf(ts) + plus)
    requires forall x: nat | x in IdsOf(part) :: x !in IdsOf(ts) && x !in plus
    ensures RepAll(st', part) && Chain(st', LeafIdsOf(part), nx)
  {
    RepAllIds(st, part);
    LeafIdsOfInIds(part);
    hide LeafIdsOf, IdsOf, RepAll;
    forall x: nat | x in IdsOf(part) ensures x in st && x in st' && st'[x] == st[x] {
      assert x !in IdsOf(ts) + plus;
    }
    RepAllFrame(st, st', part);
    ChainFrame(st, st', LeafIdsOf(part), nx);
  }

  lemma StoredContext(st: Store, st': Store, kids: seq<Tree>, i: nat, j: nat, ms: seq<Tree>, plus: multiset<nat>, nx: nat)
    requires i <= j <= |kids|
    requires RepAll(st, kids) && Chain(st, LeafIdsOf(kids), nx) && NoDup(IdsOf(kids))
    requires forall x: nat | x in plus :: x !in IdsOf(kids)
    requires LeafIdsOf(ms) != [] && LeafIdsOf(kids[i..j]) != [] && LeafIdsOf(ms)[0] == LeafIdsOf(kids[i..j])[0]
    requires Stored(st, st', kids[i..j], ms, plus, FirstOr(LeafIdsOf(kids[j..]), nx))
    ensures Stored(st, st', kids, Replaced(kids, i, j, ms), plus, nx)
  {
    hide LeafIdsOf, IdsOf, RepAll, Chain, NoDup, SameOutside, FirstOr;
    var p, m, q := kids[..i], kids[i..j], kids[j..];
    RepAllParts(st, kids, i, j);
    PartsDisjoint(kids, i, j);
    ChainCut(st, kids, i, j, nx);
    FirstOrHead(LeafIdsOf(m), LeafIdsOf(ms), LeafIdsOf(q), nx);
    UntouchedPart(st, st', m, p, plus, FirstOr(LeafIdsOf(m) + LeafIdsOf(q), nx));
    UntouchedPart(st, st', m, q, plus, nx);
    RepAllJoin(st', p, ms, q);
    FlattenJoin(p, ms, q);
    ChainCutThree(st', LeafIdsOf(p), LeafIdsOf(ms), LeafIdsOf(q), nx);
    SameOutsideWiden(st, st', IdsOf(m), IdsOf(kids), plus);
    GivenUp(st', kids, i, j, ms);
  }

  lemma FirstOrHead(b: seq<nat>, b': seq<nat>, c: seq<nat>, nx: nat)
    requires b != [] && b' != [] && b[0] == b'[0]
    ensures FirstOr(b + c, nx) == FirstOr(b' + c, nx)
  {
  }

  lemma GivenUp(st': Store, kids: seq<Tree>, i: nat, j: nat, ms: seq<Tree>)
    requires i <= j <= |kids|
    requires forall x: nat | x in IdsOf(kids[i..j]) && x !in IdsOf(ms) :: x !in st'
    ensures forall x: nat | x in IdsOf(kids) && x !in IdsOf(Replaced(kids, i, j, ms)) :: x !in st'
  {
    hide IdsOf;
    FlattenCut(kids, i, j);
    FlattenJoin(kids[..i], ms, kids[j..]);
  }

  lemma SameOutsideWiden(st: Store, st': Store, a: multiset<nat>, b: multiset<nat>, plus: multiset<nat>)
    requires SameOutside(st, st', a + plus)
    requires forall x: nat | x in a :: x in b
    ensures SameOutside(st, st', b + plus)
  {
    forall x: nat | x !in b + plus ensures x !in a + plus { }
  }

  // ---- the node above an edited run of children ----

  lemma NodeFlattens(idx: nat, keys: seq<Key>, kids: seq<Tree>)
    ensures var n := TNode(idx, keys, kids);
            && EntriesOf([n]) == EntriesOf(kids)
            && LeafIdsOf([n]) == LeafIdsOf(kids)
            && IdsOf([n]) == multiset{idx} + IdsOf(kids)
  {
    hide EntriesOf, LeafIdsOf, IdsOf;
    FlattenOne(TNode(idx, keys, kids));
  }

  lemma WrapFlat(idx: nat, keys: seq<Key>, kids: seq<Tree>, keys': seq<Key>, kids': seq<Tree>,
                 cut: seq<Entry>, put: seq<Entry>, minus: multiset<nat>, plus: multiset<nat>)
    requires Flat(kids, kids', cut, put, minus, plus)
    ensures Flat([TNode(idx, keys, kids)], [TNode(idx, keys', kids')], cut, put, minus, plus)
  {
    hide EntriesOf, LeafIdsOf, IdsOf, Edited;
    NodeFlattens(idx, keys, kids);
    NodeFlattens(idx, keys', kids');
    IdsUnder(multiset{idx}, IdsOf(kids), IdsOf(kids'), minus, plus);
  }

  lemma IdsUnder(a: multiset<nat>, b: multiset<nat>, b': multiset<nat>, minus: multiset<nat>, plus: multiset<nat>)
    requires b' + minus == b + plus
    ensures a + b' + minus == a + b + plus
  {
    assert a + b' + minus == a + (b' + minus);
  }

  lemma RepNode(st: Store, idx: nat, keys: seq<Key>, kids: seq<Tree>)
    requires idx in st && st[idx] == Inner(keys, Tops(kids)) && RepAll(st, kids)
    ensures RepAll(st, [TNode(idx, keys, kids)])
  {
  }

  // Writing the parent's account completes an edit of its children.
  lemma WrapStored(st: Store, st': Store, idx: nat, keys: seq<Key>, kids: seq<Tree>, keys': seq<Key>, kids': seq<Tree>,
                   plus: multiset<nat>, nx: nat)
    requires Stored(st, st', kids, kids', plus, nx)
    requires idx !in IdsOf(kids) && idx !in IdsOf(kids')
    ensures Stored(st, st'[idx := Inner(keys', Tops(kids'))], [TNode(idx, keys, kids)], [TNode(idx, keys', kids')], plus, nx)
  {
    hide LeafIdsOf, IdsOf, RepAll, Chain, Rep, Tops;
    var v := Inner(keys', Tops(kids'));
    NodeFlattens(idx, keys, kids);
    NodeFlattens(idx, keys', kids');
    RewriteUnused(st', idx, v, kids');
    LinksUnused(st', idx, v, kids', nx);
    RepNode(st'[idx := v], idx, keys', kids');
    SameUnder(st, st', idx, v, IdsOf(kids), plus);
  }

  lemma SameUnder(st: Store, st': Store, idx: nat, v: NodeView, ids: multiset<nat>, plus: multiset<nat>)
    requires SameOutside(st, st', ids + plus)
    ensures SameOutside(st, st'[idx := v], multiset{idx} + ids + plus)
  {
    forall x: nat | x !in multiset{idx} + ids + plus ensures x != idx && x !in ids + plus { }
  }

  lemma RewriteUnused(st: Store, idx: nat, v: NodeView, ts: seq<Tree>)
    requires RepAll(st, ts) && idx !in IdsOf(ts)
    ensures RepAll(st[idx := v], ts)
  {
    RepAllIds(st, ts);
    hide RepAll, IdsOf;
    RepAllFrame(st, st[idx := v], ts);
  }

  lemma LinksUnused(st: Store, idx: nat, v: NodeView, ts: seq<Tree>, nx: nat)
    requires Chain(st, LeafIdsOf(ts), nx) && idx !in IdsOf(ts)
    ensures Chain(st[idx := v], LeafIdsOf(ts), nx)
  {
    LeafIdsOfInIds(ts);
    hide LeafIdsOf, IdsOf;
  }

  // ---- the two nodes an over-full node splits into ----

  lemma TwoFlatten(idx: nat, k1: seq<Key>, c1: seq<Tree>, n: nat, k2: seq<Key>, c2: seq<Tree>)
    ensures var two := [TNode(idx, k1, c1), TNode(n, k2, c2)];
            && EntriesOf(two) == EntriesOf(c1 + c2)
            && LeafIdsOf(two) == LeafIdsOf(c1 + c2)
            && IdsOf(two) == multiset{idx} + IdsOf(c1 + c2) + multiset{n}
  {
    hide EntriesOf, LeafIdsOf, IdsOf;
    FlattenTwo(TNode(idx, k1, c1), TNode(n, k2, c2));
    FlattenConcat(c1, c2);
  }

  lemma SplitFlat(idx: nat, keys: seq<Key>, kids: seq<Tree>, k1: seq<Key>, c1: seq<Tree>, n: nat, k2: seq<Key>, c2: seq<Tree>,
                  cut: seq<Entry>, put: seq<Entry>, minus: multiset<nat>, plus: multiset<nat>)
    requires Flat(kids, c1 + c2, cut, put, minus, plus)
    ensures Flat([TNode(idx, keys, kids)], [TNode(idx, k1, c1), TNode(n, k2, c2)], cut, put, minus, plus + multiset{n})
  {
    hide EntriesOf, LeafIdsOf, IdsOf, Edited;
    NodeFlattens(idx, keys, kids);
    TwoFlatten(idx, k1, c1, n, k2, c2);
    IdsUnder(multiset{idx}, IdsOf(kids), IdsOf(c1 + c2), minus, plus);
    assert multiset{idx} + IdsOf(c1 + c2) + multiset{n} + minus == multiset{idx} + IdsOf(c1 + c2) + minus + multiset{n};
  }

  lemma SplitStored(st: Store, st': Store, idx: nat, keys: seq<Key>, kids: seq<Tree>,
                    k1: seq<Key>, c1: seq<Tree>, n: nat, k2: seq<Key>, c2: seq<Tree>, plus: multiset<nat>, nx: nat)
    requires Stored(st, st', kids, c1 + c2, plus, nx)
    requires idx !in IdsOf(kids) && idx !in IdsOf(c1 + c2)
    requires n !in IdsOf(kids) && n !in IdsOf(c1 + c2) && n != idx
    ensures Stored(st, st'[idx := Inner(k1, Tops(c1))][n := Inner(k2, Tops(c2))], [TNode(idx, keys, kids)],
                   [TNode(idx, k1, c1), TNode(n, k2, c2)], plus + multiset{n}, nx)
  {
    hide LeafIdsOf, IdsOf, RepAll, Chain, Rep, Tops;
    var v, w := Inner(k1, Tops(c1)), Inner(k2, Tops(c2));
    var st1 := st'[idx := v];
    var st2 := st1[n := w];
    NodeFlattens(idx, keys, kids);
    TwoFlatten(idx, k1, c1, n, k2, c2);
    RewriteUnused(st', idx, v, c1 + c2);
    LinksUnused(st', idx, v, c1 + c2, nx);
    RewriteUnused(st1, n, w, c1 + c2);
    LinksUnused(st1, n, w, c1 + c2, nx);
    RepHalves(st2, c1, c2);
    RepNode(st2, idx, k1, c1);
    RepNode(st2, n, k2, c2);
    RepPair(st2, TNode(idx, k1, c1), TNode(n, k2, c2));
    SameUnder(st, st', idx, v, IdsOf(kids), plus);
    SameBeside(st, st1, n, w, multiset{idx} + IdsOf(kids), plus);
  }

  lemma RepHalves(st: Store, a: seq<Tree>, b: seq<Tree>)
    requires RepAll(st, a + b)
    ensures RepAll(st, a) && RepAll(st, b)
  {
    hide Rep;
    assert (a + b)[..|a|] == a && (a + b)[|a|..] == b;
  }

  lemma RepPair(st: Store, a: Tree, b: Tree)
    requires RepAll(st, [a]) && RepAll(st, [b])
    ensures RepAll(st, [a, b])
  {
    hide Rep;
    assert [a][0] == a && [b][0] == b;
  }

  lemma SameBeside(st: Store, st': Store, n: nat, v: NodeView, ids: multiset<nat>, plus: multiset<nat>)
    requires SameOutside(st, st', ids + plus)
    ensures SameOutside(st, st'[n := v], ids + (plus + multiset{n}))
  {
    forall x: nat | x !in ids + (plus + multiset{n}) ensures x != n && x !in ids + plus { }
  }
}
