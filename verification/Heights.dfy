// How tall a tree can be for what it holds.
module Heights {
  import opened Base
  import opened Shapes
  import opened Engine
  import opened Represent
  import opened CompactTheorem
  import opened MapModel
  import opened LeafChain
  import opened Runs

  function Power(b: nat, n: nat): nat {
    if n == 0 then 1 else b * Power(b, n - 1)
  }

  lemma MoreKids(a: nat, b: nat, x: nat, m: nat, rest: nat)
    requires m >= 1 && a >= x && rest >= (m - 1) * x && b == a + rest
    ensures b >= m * x
  {
    assert m * x == x + (m - 1) * x;
  }

  lemma Widens(m: nat, w: nat, x: nat)
    requires m >= w
    ensures m * x >= w * x
  {
  }

  // A subtree below the root has at least (fanout / 2 + 1) children on every level.
  lemma {:induction false} SubtreeLeaves(t: Tree, h: nat, lo: int, hi: int, c: Occ)
    requires WF(t, h, lo, hi, c)
    ensures h >= 1 && |LeafIds(t)| >= Power(c.fanout / 2 + 1, h - 1)
    decreases t, 1
  {
    if t.TNode? {
      KidsLeaves(t.keys, t.kids, h - 1, lo, hi, c);
      Widens(|t.kids|, c.fanout / 2 + 1, Power(c.fanout / 2 + 1, h - 2));
    }
  }

  lemma {:induction false} KidsLeaves(keys: seq<Key>, kids: seq<Tree>, h: nat, lo: int, hi: int, c: Occ)
    requires WFKids(keys, kids, h, lo, hi, c)
    ensures |kids| == |keys| + 1 && h >= 1
    ensures |LeafIdsOf(kids)| >= |kids| * Power(c.fanout / 2 + 1, h - 1)
    decreases kids, 0
  {
    HeadFlat(kids);
    if |keys| == 0 {
      SubtreeLeaves(kids[0], h, lo, hi, c);
    } else {
      SubtreeLeaves(kids[0], h, lo, keys[0], c);
      KidsLeaves(keys[1..], kids[1..], h, keys[0], hi, c);
      hide LeafIdsOf, LeafIds, WFKids, Power;
      MoreKids(|LeafIds(kids[0])|, |LeafIdsOf(kids)|, Power(c.fanout / 2 + 1, h - 1), |kids|, |LeafIdsOf(kids[1..])|);
    }
  }

  // Every leaf below the root holds at least leafMin entries.
  lemma {:induction false} SubtreeEntries(t: Tree, h: nat, lo: int, hi: int, c: Occ)
    requires WF(t, h, lo, hi, c)
    ensures |Entries(t)| >= c.leafMin * |LeafIds(t)|
    decreases t, 1
  {
    if t.TNode? {
      KidsEntries(t.keys, t.kids, h - 1, lo, hi, c);
    }
  }

  lemma {:induction false} KidsEntries(keys: seq<Key>, kids: seq<Tree>, h: nat, lo: int, hi: int, c: Occ)
    requires WFKids(keys, kids, h, lo, hi, c)
    ensures |EntriesOf(kids)| >= c.leafMin * |LeafIdsOf(kids)|
    decreases kids, 0
  {
    HeadFlat(kids);
    if |keys| == 0 {
      SubtreeEntries(kids[0], h, lo, hi, c);
      assert kids[1..] == [];
      FlattenNone();
    } else {
      SubtreeEntries(kids[0], h, lo, keys[0], c);
      KidsEntries(keys[1..], kids[1..], h, keys[0], hi, c);
      hide EntriesOf, Entries, LeafIdsOf, LeafIds, WFKids;
      Distributes(c.leafMin, |LeafIds(kids[0])|, |LeafIdsOf(kids[1..])|);
    }
  }

  lemma Distributes(a: nat, b: nat, c: nat)
    ensures a * (b + c) == a * b + a * c
  {
  }

  lemma TreeBounds(t: Tree, h: nat, c: Occ)
    requires WFNode(t, h, 0, KEY_LIMIT, c) && h >= 2 && t.TNode? && |t.keys| >= 1
    ensures |LeafIds(t)| >= 2 * Power(c.fanout / 2 + 1, h - 2)
    ensures |Entries(t)| >= c.leafMin * |LeafIds(t)|
  {
    KidsLeaves(t.keys, t.kids, h - 1, 0, KEY_LIMIT, c);
    KidsEntries(t.keys, t.kids, h - 1, 0, KEY_LIMIT, c);
    Widens(|t.kids|, 2, Power(c.fanout / 2 + 1, h - 2));
  }

  // A reachable tree of height h >= 2 has at least 2 * (fanout / 2 + 1)^(h - 2) leaves; without
  // DeleteFast it holds at least fanout / 2 times as many keys.
  lemma HeightBounds(s: State, lm: nat)
    requires ValidWith(s, lm) && Valid(s) && s.height >= 2
    ensures |Leaves(s)| >= 2 * Power(s.fanout / 2 + 1, s.height - 2)
    ensures |StateEntries(s)| >= lm * |Leaves(s)|
  {
    var t :| Represents(s, t, lm);
    TreeOfIs(s, t, lm);
    TreeBounds(t, s.height, Occ(s.fanout, lm));
  }

  lemma ReachableHeight(fanout: nat, ixs: seq<Ix>)
    requires FanoutOk(fanout) && Valid(InitTree(fanout)) && Run(InitTree(fanout), ixs).height >= 2
    ensures var s := Run(InitTree(fanout), ixs);
            && |Leaves(s)| >= 2 * Power(s.fanout / 2 + 1, s.height - 2)
            && (WithoutDeleteFast(ixs) ==> |StateEntries(s)| >= (fanout / 2) * |Leaves(s)|)
  {
    ReachableValid(fanout, ixs);
    hide ValidWith, Leaves, StateEntries, Power, Run, WithoutDeleteFast;
    var s := Run(InitTree(fanout), ixs);
    assert ValidWith(s, 0) by { ZeroMin(s); }
    HeightBounds(s, 0);
    if WithoutDeleteFast(ixs) {
      HeightBounds(s, fanout / 2);
    }
  }

  lemma ZeroMin(s: State)
    requires Valid(s)
    ensures ValidWith(s, 0)
  {
  }
}
