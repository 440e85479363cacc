// From an edit of the whole tree back to a well-formed state.
module TopProof {
  import opened Base
  import opened Shapes
  import opened Engine
  import opened Represent
  import opened Edits

  // Indices taken on are new, and none of them is given up again at once.
  ghost predicate Unused(plus: multiset<nat>, ids: multiset<nat>, minus: multiset<nat>) {
    NoDup(plus) && forall x: nat | x in plus :: x !in ids && x !in minus
  }

  lemma IdCounts(ids: multiset<nat>, ids': multiset<nat>, minus: multiset<nat>, plus: multiset<nat>)
    requires NoDup(ids) && Unused(plus, ids, minus)
    requires ids' + minus == ids + plus
    ensures NoDup(ids')
    ensures forall x: nat :: x in plus ==> x in ids'
  {
    forall x: nat ensures ids'[x] <= 1 && (x in plus ==> x in ids') {
      assert ids'[x] + minus[x] == (ids' + minus)[x] == ids[x] + plus[x];
      assert ids[x] <= 1 && plus[x] <= 1;
    }
  }

  lemma LiveMembers(st: Store, st': Store, ids: multiset<nat>, ids': multiset<nat>, plus: multiset<nat>)
    requires forall x: nat :: x in st ==> x in ids
    requires SameOutside(st, st', ids + plus)
    requires forall x: nat | x in ids && x !in ids' :: x !in st'
    requires forall x: nat :: x in plus ==> x in ids'
    ensures forall x: nat :: x in st' ==> x in ids'
  {
    forall x: nat | x in st' ensures x in ids' {
      assert x in ids + plus || x in st;
    }
  }

  lemma KeysAre(st: Store, ids: multiset<nat>)
    requires NoDup(ids) && forall x: nat :: x in st <==> x in ids
    ensures multiset(st.Keys) == ids
  {
    forall x: nat ensures multiset(st.Keys)[x] == ids[x] {
      assert ids[x] <= 1;
    }
  }

  lemma KeysDistinct(st: Store, ids: multiset<nat>)
    requires multiset(st.Keys) == ids
    ensures NoDup(ids) && forall x: nat :: x in st <==> x in ids
  {
    forall x: nat ensures ids[x] <= 1 && (x in st <==> x in ids) {
      assert ids[x] == multiset(st.Keys)[x];
    }
  }

  // The live accounts are again exactly the nodes of the tree.
  lemma LiveNodes(st: Store, st': Store, ts: seq<Tree>, ms: seq<Tree>, minus: multiset<nat>, plus: multiset<nat>, nx: nat)
    requires multiset(st.Keys) == IdsOf(ts)
    requires IdsOf(ms) + minus == IdsOf(ts) + plus
    requires Stored(st, st', ts, ms, plus, nx)
    requires Unused(plus, IdsOf(ts), minus)
    ensures multiset(st'.Keys) == IdsOf(ms)
  {
    hide IdsOf, LeafIdsOf, RepAll, Chain, SameOutside, NoDup, Unused;
    KeysDistinct(st, IdsOf(ts));
    IdCounts(IdsOf(ts), IdsOf(ms), minus, plus);
    LiveMembers(st, st', IdsOf(ts), IdsOf(ms), plus);
    RepAllIds(st', ms);
    KeysAre(st', IdsOf(ms));
  }

  lemma LiveBelow(s: State, s': State, ids: multiset<nat>, plus: multiset<nat>)
    requires Below(s) && SameOutside(s.nodes, s'.nodes, ids + plus)
    requires s.highWater <= s'.highWater
    requires forall x: nat | x in ids :: x in s.nodes
    requires forall x: nat | x in plus :: 1 <= x <= s'.highWater
    ensures Below(s')
  {
    forall x | x in s'.nodes ensures 1 <= x <= s'.highWater {
      if x !in ids && x !in plus {
        assert x !in ids + plus;
      }
    }
  }

  // The header after an edit of the tree `t` into `t'`.
  ghost predicate TopHeader(s: State, s': State, t': Tree, lm: nat) {
    && s'.fanout == s.fanout && 1 <= s'.height <= MAX_TREE_HEIGHT
    && s'.root == t'.idx && s'.leftmost == s.leftmost
    && s'.rightmost == LastOf(LeafIds(t')) && s.highWater <= s'.highWater
    && WFNode(t', s'.height, 0, KEY_LIMIT, Occ(s.fanout, lm))
    && (t'.TNode? ==> |t'.keys| >= 1)
  }

  lemma TopRepresents(s: State, s': State, t: Tree, t': Tree, lm: nat,
                      cut: seq<Entry>, put: seq<Entry>, minus: multiset<nat>, plus: multiset<nat>)
    requires Represents(s, t, lm)
    requires Flat([t], [t'], cut, put, minus, plus)
    requires Stored(s.nodes, s'.nodes, [t], [t'], plus, 0)
    requires Unused(plus, Ids(t), minus) && forall x: nat | x in plus :: 1 <= x <= s'.highWater
    requires TopHeader(s, s', t', lm)
    ensures Represents(s', t', lm)
    ensures Edited(Entries(t), Entries(t'), cut, put)
  {
    FlattenOne(t);
    FlattenOne(t');
    hide IdsOf, Ids, LeafIdsOf, LeafIds, EntriesOf, Entries, Chain, Rep, SameOutside, NoDup, Unused, Edited, WFNode, Below;
    LiveNodes(s.nodes, s'.nodes, [t], [t'], minus, plus, 0);
    RepIds(s.nodes, t);
    LiveBelow(s, s', Ids(t), plus);
    assert Rep(s'.nodes, [t'][0]);
  }
}