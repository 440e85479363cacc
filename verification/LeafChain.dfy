// The leaves of a state in key order, and what following the chain from leaf to leaf meets.
module LeafChain {
  import opened Base
  import opened NodeViews
  import opened Shapes
  import opened Engine
  import opened Represent
  import opened Search
  import opened Edits
  import opened TopProof
  import opened MapModel
  import opened InsertPlanned
  import opened HotTheorems

  // The entries of the leaves `ids`, in this order.
  ghost function Gathered(st: Store, ids: seq<nat>): seq<Entry> {
    if ids == [] then []
    else (if ids[0] in st && st[ids[0]].Leaf? then st[ids[0]].es else []) + Gathered(st, ids[1..])
  }

  lemma {:induction false} GatheredConcat(st: Store, a: seq<nat>, b: seq<nat>)
    ensures Gathered(st, a + b) == Gathered(st, a) + Gathered(st, b)
  {
    if a == [] {
      assert a + b == b;
    } else {
      GatheredConcat(st, a[1..], b);
      assert (a + b)[1..] == a[1..] + b && (a + b)[0] == a[0];
      hide Gathered;
      Reassoc(if a[0] in st && st[a[0]].Leaf? then st[a[0]].es else [], Gathered(st, a[1..]), Gathered(st, b));
    }
  }

  lemma {:induction false} InGathered(st: Store, ids: seq<nat>, x: nat, e: Entry)
    requires x in ids && x in st && st[x].Leaf? && e in st[x].es
    ensures e in Gathered(st, ids)
  {
    if ids[0] != x {
      InGathered(st, ids[1..], x, e);
    }
  }

  lemma {:induction false} GatheredTree(st: Store, t: Tree)
    requires Rep(st, t)
    ensures Gathered(st, LeafIds(t)) == Entries(t)
    decreases t, 1
  {
    if t.TNode? {
      GatheredTrees(st, t.kids);
    }
  }

  lemma {:induction false} GatheredTrees(st: Store, ts: seq<Tree>)
    requires RepAll(st, ts)
    ensures Gathered(st, LeafIdsOf(ts)) == EntriesOf(ts)
    decreases ts, 0
  {
    if ts != [] {
      GatheredTree(st, ts[0]);
      GatheredTrees(st, ts[1..]);
      hide Gathered, LeafIds, Entries;
      GatheredConcat(st, LeafIds(ts[0]), LeafIdsOf(ts[1..]));
    }
  }

  // ---- the leaves are distinct, and they are all the live leaf accounts ----

  lemma {:induction false} LeafIdsCount(t: Tree)
    ensures multiset(LeafIds(t)) <= Ids(t)
    decreases t, 1
  {
    if t.TNode? {
      LeafIdsOfCount(t.kids);
    }
  }

  lemma {:induction false} LeafIdsOfCount(ts: seq<Tree>)
    ensures multiset(LeafIdsOf(ts)) <= IdsOf(ts)
    decreases ts, 0
  {
    if ts != [] {
      LeafIdsCount(ts[0]);
      LeafIdsOfCount(ts[1..]);
      hide LeafIds, Ids;
      assert multiset(LeafIds(ts[0]) + LeafIdsOf(ts[1..])) == multiset(LeafIds(ts[0])) + multiset(LeafIdsOf(ts[1..]));
    }
  }

  lemma {:induction false} DistinctFrom(ids: seq<nat>, all: multiset<nat>)
    requires multiset(ids) <= all && NoDup(all)
    ensures Distinct(ids)
  {
    forall i, j | 0 <= i < j < |ids| ensures ids[i] != ids[j] {
      assert multiset(ids)[ids[j]] <= all[ids[j]] <= 1;
      if ids[i] == ids[j] {
        CountedTwice(ids, i, j);
      }
    }
  }

  lemma CountedTwice(ids: seq<nat>, i: nat, j: nat)
    requires i < j < |ids| && ids[i] == ids[j]
    ensures multiset(ids)[ids[j]] >= 2
  {
    var a, b := ids[..j], ids[j..];
    assert ids == a + b && a[i] == ids[j] && b[0] == ids[j];
    assert multiset(ids)[ids[j]] == multiset(a)[ids[j]] + multiset(b)[ids[j]];
  }

  lemma {:induction false} LeafInTree(st: Store, t: Tree, x: nat)
    requires Rep(st, t) && x in Ids(t) && x in st && st[x].Leaf?
    ensures x in LeafIds(t)
    decreases t, 1
  {
    if t.TNode? {
      LeafInTrees(st, t.kids, x);
    }
  }

  lemma {:induction false} LeafInTrees(st: Store, ts: seq<Tree>, x: nat)
    requires RepAll(st, ts) && x in IdsOf(ts) && x in st && st[x].Leaf?
    ensures x in LeafIdsOf(ts)
    decreases ts, 0
  {
    if x in Ids(ts[0]) {
      LeafInTree(st, ts[0], x);
    } else {
      LeafInTrees(st, ts[1..], x);
    }
  }

  // The leaves of a state from left to right.
  ghost function Leaves(s: State): seq<nat>
    requires Valid(s)
  {
    if s.height == 0 then [] else LeafIds(TreeOf(s))
  }

  // The chain from leftmost through next visits every live leaf once, in key order, and ends
  // at rightmost.
  lemma LeavesChain(s: State)
    requires Valid(s)
    ensures Distinct(Leaves(s))
    ensures Leaves(s) == [] <==> s.height == 0
    ensures forall x: nat :: x in Leaves(s) <==> x in s.nodes && s.nodes[x].Leaf?
    ensures forall i | 0 <= i < |Leaves(s)| :: Leaves(s)[i] >= 1 && LeafTo(s.nodes, Leaves(s)[i], After(Leaves(s), i, 0))
    ensures s.leftmost == FirstOr(Leaves(s), 0) && s.rightmost == LastOf(Leaves(s))
    ensures StateEntries(s) == Gathered(s.nodes, Leaves(s))
  {
    if s.height > 0 {
      LeavesOfTree(s, TreeOf(s));
    }
  }

  lemma LeavesOfTree(s: State, t: Tree)
    requires Represents(s, t, 0)
    ensures Distinct(LeafIds(t)) && LeafIds(t) != []
    ensures forall x: nat :: x in LeafIds(t) <==> x in s.nodes && s.nodes[x].Leaf?
    ensures forall i | 0 <= i < |LeafIds(t)| :: LeafIds(t)[i] >= 1 && LeafTo(s.nodes, LeafIds(t)[i], After(LeafIds(t), i, 0))
    ensures s.leftmost == FirstOr(LeafIds(t), 0) && s.rightmost == LastOf(LeafIds(t))
    ensures Entries(t) == Gathered(s.nodes, LeafIds(t))
  {
    assert Rep(s.nodes, t) && Chain(s.nodes, LeafIds(t), 0) && Below(s);
    KeysDistinct(s.nodes, Ids(t));
    hide Rep, LeafIds, Ids, WFNode, NoDup, Entries, Gathered, Distinct, Represents, Chain, LeafTo;
    LeafIdsCount(t);
    DistinctFrom(LeafIds(t), Ids(t));
    GatheredTree(s.nodes, t);
    LeafLinks(s.nodes, LeafIds(t));
    forall x: nat ensures x in LeafIds(t) <==> x in s.nodes && s.nodes[x].Leaf? {
      if x in s.nodes && s.nodes[x].Leaf? {
        LeafInTree(s.nodes, t, x);
      }
      if x in LeafIds(t) {
        LeafLive(s.nodes, LeafIds(t), x);
      }
    }
  }

  lemma LeafLinks(st: Store, ids: seq<nat>)
    requires Chain(st, ids, 0)
    ensures forall i | 0 <= i < |ids| :: LeafTo(st, ids[i], After(ids, i, 0)) && ids[i] in st
  {
  }

  lemma LeafLive(st: Store, ids: seq<nat>, x: nat)
    requires Chain(st, ids, 0) && x in ids
    ensures x in st && st[x].Leaf?
  {
    var i :| 0 <= i < |ids| && ids[i] == x;
    assert LeafTo(st, ids[i], After(ids, i, 0));
  }

  // ---- where a key's leaf stands in the chain ----

  // The leaf of `key` is ids[p]; everything before it is smaller, everything behind it larger.
  ghost predicate StandsAt(st: Store, ids: seq<nat>, key: Key, x: nat, p: nat) {
    && p < |ids| && ids[p] == x
    && (forall e | e in Gathered(st, ids[..p]) :: e.key < key)
    && (forall e | e in Gathered(st, ids[p + 1..]) :: key < e.key)
  }

  lemma {:induction false} LeafPosition(st: Store, t: Tree, key: Key, h: nat, lo: int, hi: int, c: Occ) returns (p: nat)
    requires WFNode(t, h, lo, hi, c) && lo <= key < hi && Rep(st, t)
    ensures StandsAt(st, LeafIds(t), key, LeafFor(t, key).idx, p)
    decreases t
  {
    if t.TLeaf? {
      p := 0;
      assert LeafIds(t)[..0] == [] && LeafIds(t)[1..] == [];
    } else {
      RouteRange(t.keys, t.kids, key, h - 1, lo, hi, c);
      var j := Route(t.keys, key);
      WFKid(t.keys, t.kids, j, h - 1, lo, hi, c);
      assert Rep(st, t.kids[j]);
      var q := LeafPosition(st, t.kids[j], key, h - 1, LoAt(t.keys, lo, j), HiAt(t.keys, hi, j), c);
      p := PositionAbove(st, t, j, key, q, h, lo, hi, c);
    }
  }

  lemma PositionAbove(st: Store, t: Tree, j: nat, key: Key, q: nat, h: nat, lo: int, hi: int, c: Occ) returns (p: nat)
    requires WFNode(t, h, lo, hi, c) && t.TNode? && Rep(st, t) && |t.kids| == |t.keys| + 1
    requires j == Route(t.keys, key) && LoAt(t.keys, lo, j) <= key < HiAt(t.keys, hi, j)
    requires StandsAt(st, LeafIds(t.kids[j]), key, LeafFor(t, key).idx, q)
    ensures StandsAt(st, LeafIds(t), key, LeafFor(t, key).idx, p)
  {
    assert RepAll(st, t.kids) && WFKids(t.keys, t.kids, h - 1, lo, hi, c);
    var a, b, d := LeafIdsOf(t.kids[..j]), LeafIds(t.kids[j]), LeafIdsOf(t.kids[j + 1..]);
    p := |a| + q;
    hide Rep, RepAll, WFNode, WFKids, LeafIdsOf, Gathered, Route, LeafFor, StandsAt;
    assert LeafIds(t) == a + b + d by {
      assert t.kids[j..j + 1] == [t.kids[j]];
      FlattenCut(t.kids, j, j + 1);
      FlattenOne(t.kids[j]);
    }
    hide LeafIds, EntriesOf;
    RepAllParts(st, t.kids, j, j + 1);
    SideEntries(t.keys, t.kids, j, key, h - 1, lo, hi, c);
    GatheredTrees(st, t.kids[..j]);
    GatheredTrees(st, t.kids[j + 1..]);
    StandsIn(st, a, b, d, key, LeafFor(t, key).idx, q);
  }

  lemma StandsIn(st: Store, a: seq<nat>, b: seq<nat>, d: seq<nat>, key: Key, x: nat, q: nat)
    requires StandsAt(st, b, key, x, q)
    requires forall e | e in Gathered(st, a) :: e.key < key
    requires forall e | e in Gathered(st, d) :: key < e.key
    ensures StandsAt(st, a + b + d, key, x, |a| + q)
  {
    hide Gathered;
    var b1, b2 := b[..q], b[q + 1..];
    CutAround(a, b, d, q);
    GatheredConcat(st, a, b1);
    GatheredConcat(st, b2, d);
    EitherSide(Gathered(st, a), Gathered(st, b1));
    EitherSide(Gathered(st, b2), Gathered(st, d));
  }

  lemma EitherSide(x: seq<Entry>, y: seq<Entry>)
    ensures forall e: Entry :: e in x + y <==> e in x || e in y
  {
  }

  lemma CutAround(a: seq<nat>, b: seq<nat>, d: seq<nat>, q: nat)
    requires q < |b|
    ensures (a + b + d)[..|a| + q] == a + b[..q]
    ensures (a + b + d)[|a| + q + 1..] == b[q + 1..] + d
    ensures (a + b + d)[|a| + q] == b[q]
  {
  }

  lemma SideEntries(keys: seq<Key>, kids: seq<Tree>, j: nat, key: Key, h: nat, lo: int, hi: int, c: Occ)
    requires WFKids(keys, kids, h, lo, hi, c) && |kids| == |keys| + 1
    requires j <= |keys| && LoAt(keys, lo, j) <= key < HiAt(keys, hi, j)
    ensures forall e | e in EntriesOf(kids[..j]) :: e.key < key
    ensures forall e | e in EntriesOf(kids[j + 1..]) :: key < e.key
  {
    hide WFKids, EntriesOf;
    if j > 0 {
      WFKidsCut(keys, kids, j - 1, h, lo, hi, c);
      EntriesOfSorted(keys[..j - 1], kids[..j], h, lo, keys[j - 1], c);
    } else {
      FlattenNone();
    }
    if j < |keys| {
      WFKidsCut(keys, kids, j, h, lo, hi, c);
      EntriesOfSorted(keys[j + 1..], kids[j + 1..], h, keys[j], hi, c);
    } else {
      FlattenNone();
      assert kids[j + 1..] == [];
    }
  }

  lemma LeafAt(s: State, key: Key) returns (p: nat)
    requires Valid(s) && s.height > 0
    ensures StandsAt(s.nodes, Leaves(s), key, LeafOf(s, key).idx, p)
  {
    p := LeafPosition(s.nodes, TreeOf(s), key, s.height, 0, KEY_LIMIT, Occ(s.fanout, 0));
  }

  // An entry is stored in the leaf its key's search ends in, and nowhere else.
  lemma EntryAtHome(s: State, x: nat, e: Entry)
    requires Valid(s) && x in s.nodes && s.nodes[x].Leaf? && e in s.nodes[x].es
    ensures s.height > 0 && |SearchPath(s, e.key)| > 0 && SearchPath(s, e.key)[|SearchPath(s, e.key)| - 1] == x
  {
    hide Valid, Leaves, Gathered, LeafOf, SearchPath, StateEntries, Distinct, LeafTo, StandsAt;
    LeavesChain(s);
    ValidShaped(s);
    var ids := Leaves(s);
    assert x in ids;
    var p := LeafAt(s, e.key);
    OnlyHome(s.nodes, ids, e, x, LeafOf(s, e.key).idx, p);
    PathSound(s, SearchPath(s, e.key), e.key);
  }

  lemma OnlyHome(st: Store, ids: seq<nat>, e: Entry, x: nat, y: nat, p: nat)
    requires StandsAt(st, ids, e.key, y, p) && x in ids && x in st && st[x].Leaf? && e in st[x].es
    ensures x == y
  {
    hide Gathered;
    assert ids == ids[..p] + [ids[p]] + ids[p + 1..];
    if x in ids[..p] {
      InGathered(st, ids[..p], x, e);
    }
    if x in ids[p + 1..] {
      InGathered(st, ids[p + 1..], x, e);
    }
  }
}
