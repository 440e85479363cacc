// The tree a store of nodes represents, and what makes it a B+ tree.
module Shapes {
  import opened Base
  import opened NodeViews

  type Store = map<nat, NodeView>

  datatype Tree =
    | TLeaf(idx: nat, es: seq<Entry>)
    | TNode(idx: nat, keys: seq<Key>, kids: seq<Tree>)

  // fanout: most keys in a node; leafMin: fewest entries in a leaf that is not the root.
  // leafMin is 0 in general, and fanout / 2 as long as DeleteFast is not used.
  datatype Occ = Occ(fanout: nat, leafMin: nat)

  function Size(t: Tree): nat {
    if t.TLeaf? then |t.es| else |t.keys|
  }

  // ---- what the tree flattens to ----

  ghost function Entries(t: Tree): seq<Entry>
    decreases t, 1
  {
    match t
    case TLeaf(_, es) => es
    case TNode(_, _, kids) => EntriesOf(kids)
  }

  ghost function EntriesOf(ts: seq<Tree>): seq<Entry>
    decreases ts, 0
  {
    if ts == [] then [] else Entries(ts[0]) + EntriesOf(ts[1..])
  }

  // The leaves from left to right.
  ghost function LeafIds(t: Tree): seq<nat>
    decreases t, 1
  {
    match t
    case TLeaf(idx, _) => [idx]
    case TNode(_, _, kids) => LeafIdsOf(kids)
  }

  ghost function LeafIdsOf(ts: seq<Tree>): seq<nat>
    decreases ts, 0
  {
    if ts == [] then [] else LeafIds(ts[0]) + LeafIdsOf(ts[1..])
  }

  // Every node index, with its number of occurrences.
  ghost function Ids(t: Tree): multiset<nat>
    decreases t, 1
  {
    match t
    case TLeaf(idx, _) => multiset{idx}
    case TNode(idx, _, kids) => multiset{idx} + IdsOf(kids)
  }

  ghost function IdsOf(ts: seq<Tree>): multiset<nat>
    decreases ts, 0
  {
    if ts == [] then multiset{} else Ids(ts[0]) + IdsOf(ts[1..])
  }

  lemma FlattenNone()
    ensures EntriesOf([]) == [] && LeafIdsOf([]) == [] && IdsOf([]) == multiset{}
  {
  }

  lemma FlattenCons(t: Tree, ts: seq<Tree>)
    ensures EntriesOf([t] + ts) == Entries(t) + EntriesOf(ts)
    ensures LeafIdsOf([t] + ts) == LeafIds(t) + LeafIdsOf(ts)
    ensures IdsOf([t] + ts) == Ids(t) + IdsOf(ts)
  {
    hide Entries, LeafIds, Ids;
    var all := [t] + ts;
    assert all[0] == t && all[1..] == ts;
  }

  lemma {:induction false} FlattenConcat(a: seq<Tree>, b: seq<Tree>)
    ensures EntriesOf(a + b) == EntriesOf(a) + EntriesOf(b)
    ensures LeafIdsOf(a + b) == LeafIdsOf(a) + LeafIdsOf(b)
    ensures IdsOf(a + b) == IdsOf(a) + IdsOf(b)
  {
    hide *;
    if a == [] {
      FlattenNone();
      assert a + b == b;
    } else {
      var t, ts := a[0], a[1..];
      assert a == [t] + ts && a + b == [t] + (ts + b);
      FlattenConcat(ts, b);
      FlattenCons(t, ts);
      FlattenCons(t, ts + b);
    }
  }

  lemma FlattenOne(t: Tree)
    ensures EntriesOf([t]) == Entries(t)
    ensures LeafIdsOf([t]) == LeafIds(t)
    ensures IdsOf([t]) == Ids(t)
  {
    hide *;
    FlattenCons(t, []);
    FlattenNone();
    assert [t] + [] == [t];
  }

  lemma FlattenTwo(a: Tree, b: Tree)
    ensures EntriesOf([a, b]) == Entries(a) + Entries(b)
    ensures LeafIdsOf([a, b]) == LeafIds(a) + LeafIds(b)
    ensures IdsOf([a, b]) == Ids(a) + Ids(b)
  {
    hide *;
    assert [a, b] == [a] + [b];
    FlattenConcat([a], [b]);
    FlattenOne(a);
    FlattenOne(b);
  }

  lemma CutInThree<T>(s: seq<T>, i: nat, j: nat)
    requires i <= j <= |s|
    ensures s[..i] + s[i..j] + s[j..] == s
  {
  }

  // A sequence cut into three parts flattens part by part.
  lemma FlattenCut(ts: seq<Tree>, i: nat, j: nat)
    requires i <= j <= |ts|
    ensures EntriesOf(ts) == EntriesOf(ts[..i]) + EntriesOf(ts[i..j]) + EntriesOf(ts[j..])
    ensures LeafIdsOf(ts) == LeafIdsOf(ts[..i]) + LeafIdsOf(ts[i..j]) + LeafIdsOf(ts[j..])
    ensures IdsOf(ts) == IdsOf(ts[..i]) + IdsOf(ts[i..j]) + IdsOf(ts[j..])
  {
    hide *;
    CutInThree(ts, i, j);
    FlattenJoin(ts[..i], ts[i..j], ts[j..]);
  }

  lemma FlattenJoin(a: seq<Tree>, b: seq<Tree>, c: seq<Tree>)
    ensures EntriesOf(a + b + c) == EntriesOf(a) + EntriesOf(b) + EntriesOf(c)
    ensures LeafIdsOf(a + b + c) == LeafIdsOf(a) + LeafIdsOf(b) + LeafIdsOf(c)
    ensures IdsOf(a + b + c) == IdsOf(a) + IdsOf(b) + IdsOf(c)
  {
    hide *;
    FlattenConcat(a + b, c);
    FlattenConcat(a, b);
  }

  // ---- well-formedness ----

  ghost predicate EntriesIn(es: seq<Entry>, lo: int, hi: int) {
    && (forall i | 0 <= i < |es| :: lo <= es[i].key < hi)
    && (forall i, j | 0 <= i < j < |es| :: es[i].key < es[j].key)
  }

  // Everything but the lower occupancy bound of the top node.
  ghost predicate WFNode(t: Tree, h: nat, lo: int, hi: int, c: Occ)
    decreases t, 1
  {
    match t
    case TLeaf(_, es) => h == 1 && |es| <= c.fanout && EntriesIn(es, lo, hi)
    case TNode(_, keys, kids) => h > 1 && |keys| <= c.fanout && WFKids(keys, kids, h - 1, lo, hi, c)
  }

  ghost predicate WF(t: Tree, h: nat, lo: int, hi: int, c: Occ)
    decreases t, 2
  {
    WFNode(t, h, lo, hi, c) && Size(t) >= (if t.TLeaf? then c.leafMin else c.fanout / 2)
  }

  // `keys` separate the subtrees `kids`, which fill the range [lo, hi).
  ghost predicate WFKids(keys: seq<Key>, kids: seq<Tree>, h: nat, lo: int, hi: int, c: Occ)
    decreases kids, 0
  {
    && |kids| == |keys| + 1
    && (if |keys| == 0 then
          WF(kids[0], h, lo, hi, c)
        else
          && lo < keys[0] < hi
          && WF(kids[0], h, lo, keys[0], c)
          && WFKids(keys[1..], kids[1..], h, keys[0], hi, c))
  }

  function LoAt(keys: seq<Key>, lo: int, i: nat): int
    requires i <= |keys|
  {
    if i == 0 then lo else keys[i - 1]
  }

  function HiAt(keys: seq<Key>, hi: int, i: nat): int
    requires i <= |keys|
  {
    if i == |keys| then hi else keys[i]
  }

  // Two runs of children with a separator between them are one run of children.
  lemma {:induction false} WFKidsConcat(k1: seq<Key>, c1: seq<Tree>, s: Key, k2: seq<Key>, c2: seq<Tree>,
                                        h: nat, lo: int, hi: int, c: Occ)
    requires |c1| == |k1| + 1
    ensures WFKids(k1 + [s] + k2, c1 + c2, h, lo, hi, c)
       <==> lo < s < hi && WFKids(k1, c1, h, lo, s, c) && WFKids(k2, c2, h, s, hi, c)
  {
    var k := k1 + [s] + k2;
    var kids := c1 + c2;
    if |c2| == |k2| + 1 {
      assert |kids| == |k| + 1;
      if |k1| == 0 {
        assert k[0] == s && k[1..] == k2 && kids[0] == c1[0] && kids[1..] == c2;
      } else {
        assert k[0] == k1[0] && k[1..] == k1[1..] + [s] + k2;
        assert kids[0] == c1[0] && kids[1..] == c1[1..] + c2;
        WFKidsConcat(k1[1..], c1[1..], s, k2, c2, h, k1[0], hi, c);
      }
    }
  }

  // Cut a run of children at separator i.
  lemma WFKidsCut(keys: seq<Key>, kids: seq<Tree>, i: nat, h: nat, lo: int, hi: int, c: Occ)
    requires i < |keys|
    requires WFKids(keys, kids, h, lo, hi, c)
    ensures |kids| == |keys| + 1
    ensures lo < keys[i] < hi
    ensures WFKids(keys[..i], kids[..i + 1], h, lo, keys[i], c)
    ensures WFKids(keys[i + 1..], kids[i + 1..], h, keys[i], hi, c)
  {
    assert |kids| == |keys| + 1;
    hide *;
    assert keys[..i] + [keys[i]] + keys[i + 1..] == keys;
    assert kids[..i + 1] + kids[i + 1..] == kids;
    WFKidsConcat(keys[..i], kids[..i + 1], keys[i], keys[i + 1..], kids[i + 1..], h, lo, hi, c);
  }

  lemma {:induction false} WFKidsSorted(keys: seq<Key>, kids: seq<Tree>, h: nat, lo: int, hi: int, c: Occ)
    requires WFKids(keys, kids, h, lo, hi, c)
    ensures forall i | 0 <= i < |keys| :: lo < keys[i] < hi
    ensures forall i, j | 0 <= i < j < |keys| :: keys[i] < keys[j]
  {
    if |keys| > 0 {
      WFKidsSorted(keys[1..], kids[1..], h, keys[0], hi, c);
      forall i, j | 0 <= i < j < |keys| ensures keys[i] < keys[j] {
        assert keys[j] == keys[1..][j - 1];
        if i > 0 { assert keys[i] == keys[1..][i - 1]; }
      }
      forall i | 0 <= i < |keys| ensures lo < keys[i] < hi {
        if i > 0 { assert keys[i] == keys[1..][i - 1]; }
      }
    }
  }

  // Children i..j of a run are a run of their own.
  lemma WFKidsMid(keys: seq<Key>, kids: seq<Tree>, i: nat, j: nat, h: nat, lo: int, hi: int, c: Occ)
    requires i <= j <= |keys|
    requires WFKids(keys, kids, h, lo, hi, c)
    ensures |kids| == |keys| + 1
    ensures WFKids(keys[i..j], kids[i..j + 1], h, LoAt(keys, lo, i), HiAt(keys, hi, j), c)
  {
    var k1, c1, hi1 := keys[..j], kids[..j + 1], HiAt(keys, hi, j);
    assert WFKids(k1, c1, h, lo, hi1, c) by {
      if j < |keys| {
        WFKidsCut(keys, kids, j, h, lo, hi, c);
      } else {
        assert k1 == keys && c1 == kids;
      }
    }
    if i > 0 {
      WFKidsCut(k1, c1, i - 1, h, lo, hi1, c);
      assert k1[i..] == keys[i..j] && c1[i..] == kids[i..j + 1];
    } else {
      assert keys[i..j] == k1 && kids[i..j + 1] == c1;
    }
  }

  // A run that takes the place of children 0..j.
  lemma WFKidsSpliceLeft(keys: seq<Key>, kids: seq<Tree>, j: nat, mk: seq<Key>, ms: seq<Tree>,
                         h: nat, lo: int, hi: int, c: Occ)
    requires j <= |keys|
    requires |ms| == |mk| + 1
    requires WFKids(keys, kids, h, lo, hi, c)
    requires WFKids(mk, ms, h, lo, HiAt(keys, hi, j), c)
    requires j < |keys| ==> lo < keys[j] < hi
    ensures |kids| == |keys| + 1
    ensures WFKids(mk + keys[j..], ms + kids[j + 1..], h, lo, hi, c)
  {
    assert |kids| == |keys| + 1;
    hide WFKids;
    if j == |keys| {
      assert mk + keys[j..] == mk && ms + kids[j + 1..] == ms;
    } else {
      WFKidsCut(keys, kids, j, h, lo, hi, c);
      assert mk + keys[j..] == mk + [keys[j]] + keys[j + 1..];
      WFKidsConcat(mk, ms, keys[j], keys[j + 1..], kids[j + 1..], h, lo, hi, c);
    }
  }

  // Put `ms`, separated by `mk`, in the place of children i..j of a run.
  lemma WFKidsSplice(keys: seq<Key>, kids: seq<Tree>, i: nat, j: nat, mk: seq<Key>, ms: seq<Tree>,
                     h: nat, lo: int, hi: int, c: Occ)
    requires i <= j <= |keys|
    requires |ms| == |mk| + 1
    requires WFKids(keys, kids, h, lo, hi, c)
    requires WFKids(mk, ms, h, LoAt(keys, lo, i), HiAt(keys, hi, j), c)
    ensures |kids| == |keys| + 1
    ensures WFKids(keys[..i] + mk + keys[j..], kids[..i] + ms + kids[j + 1..], h, lo, hi, c)
  {
    WFKidsSorted(keys, kids, h, lo, hi, c);
    assert |kids| == |keys| + 1;
    hide WFKids;
    var hiJ := HiAt(keys, hi, j);
    var k1, c1 := keys[..i] + mk, kids[..i] + ms;
    if i == 0 {
      assert k1 == mk && c1 == ms;
    } else {
      WFKidsCut(keys, kids, i - 1, h, lo, hi, c);
      assert keys[..i - 1] + [keys[i - 1]] + mk == k1;
      WFKidsConcat(keys[..i - 1], kids[..i], keys[i - 1], mk, ms, h, lo, hiJ, c);
    }
    WFKidsSpliceLeft(keys, kids, j, k1, c1, h, lo, hi, c);
  }

  lemma WFKid(keys: seq<Key>, kids: seq<Tree>, i: nat, h: nat, lo: int, hi: int, c: Occ)
    requires i <= |keys|
    requires WFKids(keys, kids, h, lo, hi, c)
    ensures |kids| == |keys| + 1
    ensures WF(kids[i], h, LoAt(keys, lo, i), HiAt(keys, hi, i), c)
  {
    WFKidsMid(keys, kids, i, i, h, lo, hi, c);
    assert kids[i..i + 1] == [kids[i]] && keys[i..i] == [];
  }
}
