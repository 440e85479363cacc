// When a store of node accounts holds a tree, and when a state is well formed.
module Represent {
  import opened Base
  import opened NodeViews
  import opened Shapes
  import opened Engine

  ghost function Tops(ts: seq<Tree>): (ids: seq<nat>)
    ensures |ids| == |ts|
    ensures forall i | 0 <= i < |ts| :: ids[i] == ts[i].idx
  {
    seq(|ts|, i requires 0 <= i < |ts| => ts[i].idx)
  }

  ghost predicate Rep(st: Store, t: Tree)
    decreases t, 1
  {
    match t
    case TLeaf(idx, es) => idx in st && st[idx].Leaf? && st[idx].es == es
    case TNode(idx, keys, kids) => idx in st && st[idx] == Inner(keys, Tops(kids)) && RepAll(st, kids)
  }

  ghost predicate RepAll(st: Store, ts: seq<Tree>)
    decreases ts, 0
  {
    forall i | 0 <= i < |ts| :: Rep(st, ts[i])
  }

  function FirstOr(ids: seq<nat>, nx: nat): nat {
    if |ids| > 0 then ids[0] else nx
  }

  function After(ids: seq<nat>, i: nat, nx: nat): nat {
    if i + 1 < |ids| then ids[i + 1] else nx
  }

  // Account x holds a leaf that points to nx.
  ghost predicate LeafTo(st: Store, x: nat, nx: nat) {
    x in st && st[x].Leaf? && st[x].next == nx
  }

  // The leaves `ids` are linked in this order, and the last one points to `nx`.
  ghost predicate Chain(st: Store, ids: seq<nat>, nx: nat) {
    forall i | 0 <= i < |ids| :: LeafTo(st, ids[i], After(ids, i, nx))
  }

  lemma ChainConcat(st: Store, a: seq<nat>, b: seq<nat>, nx: nat)
    ensures Chain(st, a + b, nx) <==> Chain(st, a, FirstOr(b, nx)) && Chain(st, b, nx)
  {
    hide LeafTo;
    var ab := a + b;
    assert forall i | 0 <= i < |a| :: ab[i] == a[i] && After(ab, i, nx) == After(a, i, FirstOr(b, nx));
    assert forall i | 0 <= i < |b| :: ab[|a| + i] == b[i] && After(ab, |a| + i, nx) == After(b, i, nx);
    if Chain(st, a, FirstOr(b, nx)) && Chain(st, b, nx) {
      forall i | 0 <= i < |ab| ensures LeafTo(st, ab[i], After(ab, i, nx)) {
        if i >= |a| {
          assert ab[|a| + (i - |a|)] == b[i - |a|];
        }
      }
    }
  }

  // Only the accounts named in `ids` may differ.
  ghost predicate SameOutside(st: Store, st': Store, ids: multiset<nat>) {
    forall x: nat | x !in ids :: (x in st <==> x in st') && (x in st ==> st'[x] == st[x])
  }

  lemma {:induction false} IdsOfMember(ts: seq<Tree>, i: nat)
    requires i < |ts|
    ensures Ids(ts[i]) <= IdsOf(ts)
  {
    if i > 0 {
      IdsOfMember(ts[1..], i - 1);
    }
  }

  lemma {:induction false} RepFrame(st: Store, st': Store, t: Tree)
    requires Rep(st, t)
    requires forall x | x in Ids(t) :: x in st && x in st' && st'[x] == st[x]
    ensures Rep(st', t)
    decreases t, 1
  {
    if t.TNode? {
      RepAllFrame(st, st', t.kids);
    }
  }

  lemma {:induction false} RepAllFrame(st: Store, st': Store, ts: seq<Tree>)
    requires RepAll(st, ts)
    requires forall x | x in IdsOf(ts) :: x in st && x in st' && st'[x] == st[x]
    ensures RepAll(st', ts)
    decreases ts, 0
  {
    forall i | 0 <= i < |ts| ensures Rep(st', ts[i]) {
      IdsOfMember(ts, i);
      RepFrame(st, st', ts[i]);
    }
  }

  lemma {:induction false} RepIds(st: Store, t: Tree)
    requires Rep(st, t)
    ensures t.idx in Ids(t)
    ensures forall x | x in Ids(t) :: x in st
    decreases t, 1
  {
    if t.TNode? {
      RepAllIds(st, t.kids);
    }
  }

  lemma {:induction false} RepAllIds(st: Store, ts: seq<Tree>)
    requires RepAll(st, ts)
    ensures forall x | x in IdsOf(ts) :: x in st
    decreases ts, 0
  {
    if ts != [] {
      RepIds(st, ts[0]);
      RepAllIds(st, ts[1..]);
    }
  }

  lemma {:induction false} LeafIdsInIds(t: Tree)
    ensures forall i | 0 <= i < |LeafIds(t)| :: LeafIds(t)[i] in Ids(t)
    decreases t, 1
  {
    if t.TNode? {
      LeafIdsOfInIds(t.kids);
    }
  }

  lemma {:induction false} LeafIdsOfInIds(ts: seq<Tree>)
    ensures forall i | 0 <= i < |LeafIdsOf(ts)| :: LeafIdsOf(ts)[i] in IdsOf(ts)
    decreases ts, 0
  {
    if ts != [] {
      LeafIdsInIds(ts[0]);
      LeafIdsOfInIds(ts[1..]);
      var a, b := LeafIds(ts[0]), LeafIdsOf(ts[1..]);
      forall i | 0 <= i < |LeafIdsOf(ts)| ensures LeafIdsOf(ts)[i] in IdsOf(ts) {
        if i < |a| {
          assert LeafIdsOf(ts)[i] == a[i] && a[i] in Ids(ts[0]);
        } else {
          assert LeafIdsOf(ts)[i] == b[i - |a|];
        }
      }
    }
  }

  lemma ChainFrame(st: Store, st': Store, ids: seq<nat>, nx: nat)
    requires Chain(st, ids, nx)
    requires forall i | 0 <= i < |ids| :: ids[i] in st' && st'[ids[i]] == st[ids[i]]
    ensures Chain(st', ids, nx)
  {
  }

  // Every live node has an index the allocator has handed out.
  ghost predicate Below(s: State) {
    forall x | x in s.nodes :: 1 <= x <= s.highWater
  }

  ghost predicate OccOk(s: State, c: Occ) {
    FanoutOk(s.fanout) && c.fanout == s.fanout && c.leafMin <= s.fanout / 2
  }

  ghost function LastOf(ids: seq<nat>): nat {
    if |ids| > 0 then ids[|ids| - 1] else 0
  }

  // ---- well-formed states ----

  ghost predicate GoodHeader(s: State, lm: nat) {
    FanoutOk(s.fanout) && lm <= s.Min() && s.height <= MAX_TREE_HEIGHT
  }

  // State `s` holds exactly the B+ tree `t`: right shape, every live account in it once,
  // the leaf chain threads its leaves in order.
  ghost predicate Represents(s: State, t: Tree, lm: nat) {
    && GoodHeader(s, lm)
    && s.height >= 1
    && t.idx == s.root
    && WFNode(t, s.height, 0, KEY_LIMIT, Occ(s.fanout, lm))
    && (t.TNode? ==> |t.keys| >= 1)
    && Rep(s.nodes, t)
    && multiset(s.nodes.Keys) == Ids(t)
    && Chain(s.nodes, LeafIds(t), 0)
    && LeafIds(t) != []
    && s.leftmost == LeafIds(t)[0]
    && s.rightmost == LastOf(LeafIds(t))
    && Below(s)
  }

  ghost predicate EmptyTree(s: State, lm: nat) {
    && GoodHeader(s, lm)
    && s.height == 0 && s.root == 0 && s.leftmost == 0 && s.rightmost == 0 && s.nodes == map[]
  }

  ghost predicate ValidWith(s: State, lm: nat) {
    EmptyTree(s, lm) || exists t :: Represents(s, t, lm)
  }

  ghost predicate Valid(s: State) {
    ValidWith(s, 0)
  }
}
