// MultiLeafInsertFast: the checks of phase 1 still hold while phase 2 writes.
module MultiLeafTheorem {
  import opened Base
  import opened NodeViews
  import opened Engine
  import opened Represent
  import opened InsertPlanned
  import opened MapModel
  import opened HotTheorems
  import opened Structure
  import opened LeafChain
  import opened BatchTheorems

  function Last<T>(s: seq<T>): T
    requires |s| > 0
  {
    s[|s| - 1]
  }

  // Blocks as the instruction's size checks leave them.
  predicate BlocksSized(blocks: seq<Block>, pathLen: nat) {
    && 0 < |blocks| <= 8
    && forall b | b in blocks :: |b.path| == pathLen && 0 < |b.es| <= 12
  }

  // ---- single inserts keep the structure ----

  ghost predicate Grown(a: State, b: State) {
    forall x | x in a.nodes && a.nodes[x].Leaf? :: x in b.nodes && b.nodes[x].Leaf? && |a.nodes[x].es| <= |b.nodes[x].es|
  }

  // What inserts along `path` leave as it was.
  ghost predicate OnlyLeaf(a: State, b: State, path: seq<nat>) {
    && SameStructure(a, b) && Roomy(b) && AllShaped(b.nodes) && Grown(a, b)
    && forall x | x in a.nodes && (|path| == 0 || x != Last(path)) :: x in b.nodes && b.nodes[x] == a.nodes[x]
  }

  lemma OneFrame(s: State, e: Entry, path: seq<nat>)
    requires AllShaped(s.nodes) && Roomy(s) && InsertFast(s, e, path).Ok?
    ensures OnlyLeaf(s, InsertFast(s, e, path).value, path)
  {
    var leaf := FastLeaf(s, path, e.key).value;
    InsertedLength(s.nodes[leaf].es, e);
    hide Inserted, Holds, FastLeaf;
    LeafRewritten(s, leaf, Inserted(s.nodes[leaf].es, e));
  }

  lemma FrameTrans(a: State, b: State, c: State, path: seq<nat>)
    requires OnlyLeaf(a, b, path) && OnlyLeaf(b, c, path)
    ensures OnlyLeaf(a, c, path)
  {
    SameTrans(a, b, c);
    hide SameStructure, Roomy, AllShaped;
  }

  lemma {:induction false} EachFrame(s: State, path: seq<nat>, es: seq<Entry>, i: nat)
    requires AllShaped(s.nodes) && Roomy(s) && InsertEach(s, path, es, i).Ok?
    ensures OnlyLeaf(s, InsertEach(s, path, es, i).value, path)
    decreases |es| - i
  {
    if i < |es| {
      OneFrame(s, es[i], path);
      var s1 := InsertFast(s, es[i], path).value;
      EachFrame(s1, path, es, i + 1);
      hide InsertFast, OnlyLeaf;
      FrameTrans(s, s1, InsertEach(s1, path, es, i + 1).value, path);
    } else {
      Reflexive(s);
    }
  }

  lemma EachKeepsShape(s: State, path: seq<nat>, es: seq<Entry>, i: nat)
    requires AllShaped(s.nodes)
    ensures InsertEach(s, path, es, i).Ok? ==> AllShaped(InsertEach(s, path, es, i).value.nodes)
    decreases |es| - i
  {
    if i < |es| && InsertFast(s, es[i], path).Ok? {
      FastKeepsShape(s, es[i], path);
      EachKeepsShape(InsertFast(s, es[i], path).value, path, es, i + 1);
    }
  }

  // InsertFast for every entry of blocks[li..], each along its block's path.
  function InsertBlocks(s: State, blocks: seq<Block>, li: nat): Result<State>
    requires AllShaped(s.nodes)
    decreases |blocks| - li
  {
    if li >= |blocks| then Ok(s)
    else
      EachKeepsShape(s, blocks[li].path, blocks[li].es, 0);
      var s1 :- InsertEach(s, blocks[li].path, blocks[li].es, 0);
      InsertBlocks(s1, blocks, li + 1)
  }

  // ---- what phase 1 finds out ----

  // Block `m` fits into its leaf, and all of it belongs there.
  ghost predicate BlockFits(s: State, b: Block)
    requires AllShaped(s.nodes) && |b.path| > 0
  {
    var leaf := Last(b.path);
    && leaf in s.nodes && s.nodes[leaf].Leaf? && |s.nodes[leaf].es| + |b.es| <= s.fanout
    && AllRoute(s, b.path, b.es, 0, leaf)
  }

  // Leaf follows leaf, and key follows key, across the blocks.
  ghost predicate BlocksInOrder(s: State, blocks: seq<Block>)
    requires forall b | b in blocks :: |b.path| > 0 && |b.es| > 0
  {
    && (forall m | 0 <= m < |blocks| :: StrictlyAscending(blocks[m].es))
    && (forall m | 0 < m < |blocks| :: NextIs(s, blocks[m - 1].path, Last(blocks[m].path)))
    && (forall m | 0 < m < |blocks| :: Last(blocks[m - 1].es).key < blocks[m].es[0].key)
  }

  // The verdict on one block.
  ghost predicate BlockPasses(s: State, blocks: seq<Block>, m: nat)
    requires AllShaped(s.nodes) && m < |blocks|
    requires forall b | b in blocks :: |b.path| == s.height > 0 && |b.es| > 0
  {
    var b := blocks[m];
    && Descend(s, b.path, b.es[0].key, 0, s.root).Ok?
    && (var leaf := Descend(s, b.path, b.es[0].key, 0, s.root).value; |s.nodes[leaf].es| + |b.es| <= s.fanout)
    && RoutesToLeaf(s, b.path, Last(b.es).key, 0)
    && StrictlyAscending(b.es)
    && (m > 0 ==> NextIs(s, blocks[m - 1].path, Last(b.path)) && Last(blocks[m - 1].es).key < b.es[0].key)
  }

  lemma {:induction false} ChecksEach(s: State, blocks: seq<Block>, li: nat)
    requires AllShaped(s.nodes) && li <= |blocks|
    requires forall b | b in blocks :: |b.path| == s.height > 0 && |b.es| > 0
    ensures CheckBlocks(s, blocks, li) == None <==> forall m | li <= m < |blocks| :: BlockPasses(s, blocks, m)
    decreases |blocks| - li
  {
    if li < |blocks| {
      ChecksEach(s, blocks, li + 1);
      var b := blocks[li];
      assert Descend(s, b.path, b.es[0].key, 0, s.root).Ok? ==>
               PathOpen(s.nodes, b.path, 0) && Descend(s, b.path, b.es[0].key, 0, s.root).value == Last(b.path);
      assert CheckBlocks(s, blocks, li) == None <==> BlockPasses(s, blocks, li) && CheckBlocks(s, blocks, li + 1) == None by {
        hide Descend, RoutesToLeaf, StrictlyAscending, NextIs, PathOpen;
      }
      hide CheckBlocks, BlockPasses;
    }
  }

  lemma PassesFits(s: State, blocks: seq<Block>, m: nat)
    requires Valid(s) && AllShaped(s.nodes) && m < |blocks|
    requires forall b | b in blocks :: |b.path| == s.height > 0 && |b.es| > 0
    requires BlockPasses(s, blocks, m)
    ensures BlockFits(s, blocks[m])
  {
    var b := blocks[m];
    hide Valid, StrictlyAscending, RoutesToLeaf, AllRoute, Descend;
    assert FastLeaf(s, b.path, b.es[0].key) == Ok(Last(b.path));
    RunRoutes(s, b.path, b.es, Last(b.path));
  }

  lemma FitsPasses(s: State, blocks: seq<Block>, m: nat)
    requires AllShaped(s.nodes) && m < |blocks|
    requires forall b | b in blocks :: |b.path| == s.height > 0 && |b.es| > 0
    requires BlockFits(s, blocks[m]) && BlocksInOrder(s, blocks)
    ensures BlockPasses(s, blocks, m)
  {
    var b := blocks[m];
    assert FastLeaf(s, b.path, b.es[0].key) == Ok(Last(b.path)) && FastLeaf(s, b.path, Last(b.es).key) == Ok(Last(b.path));
    RoutesIff(s, b.path, b.es[0].key, Last(b.es).key, 0, s.root);
    hide Descend, RoutesToLeaf, StrictlyAscending, NextIs, AllRoute;
  }

  // ---- phase 2 ----

  ghost predicate LeavesDiffer(blocks: seq<Block>)
    requires forall b | b in blocks :: |b.path| > 0
  {
    forall i, j | 0 <= i < j < |blocks| :: Last(blocks[i].path) != Last(blocks[j].path)
  }

  lemma ChainStep(s: State, x: nat, y: nat, p: nat)
    requires Valid(s) && p < |Leaves(s)| && x == Leaves(s)[p]
    requires x in s.nodes && s.nodes[x].Leaf? && s.nodes[x].next == y && y in Leaves(s)
    ensures p + 1 < |Leaves(s)| && y == Leaves(s)[p + 1]
  {
    LeavesChain(s);
    assert LeafTo(s.nodes, Leaves(s)[p], After(Leaves(s), p, 0));
  }

  lemma BlockLeafLive(s: State, blocks: seq<Block>, m: nat)
    requires AllShaped(s.nodes) && m < |blocks|
    requires forall b | b in blocks :: |b.path| > 0 && |b.es| > 0 && BlockFits(s, b)
    ensures Last(blocks[m].path) in s.nodes && s.nodes[Last(blocks[m].path)].Leaf?
  {
    assert blocks[m] in blocks;
    hide AllRoute;
  }

  lemma {:induction false} LeafPlaces(s: State, blocks: seq<Block>, p: nat, m: nat)
    requires Valid(s) && AllShaped(s.nodes) && m < |blocks|
    requires forall b | b in blocks :: |b.path| > 0 && |b.es| > 0 && BlockFits(s, b)
    requires BlocksInOrder(s, blocks)
    requires p < |Leaves(s)| && Leaves(s)[p] == Last(blocks[0].path)
    ensures p + m < |Leaves(s)| && Leaves(s)[p + m] == Last(blocks[m].path)
  {
    hide Leaves, Valid, BlockFits, StrictlyAscending;
    if m > 0 {
      LeafPlaces(s, blocks, p, m - 1);
      BlockLeafLive(s, blocks, m - 1);
      BlockLeafLive(s, blocks, m);
      assert NextIs(s, blocks[m - 1].path, Last(blocks[m].path));
      LeafListed(s, Last(blocks[m].path));
      ChainStep(s, Last(blocks[m - 1].path), Last(blocks[m].path), p + m - 1);
    }
  }

  lemma LeafListed(s: State, x: nat)
    requires Valid(s) && x in s.nodes && s.nodes[x].Leaf?
    ensures x in Leaves(s)
  {
    LeavesChain(s);
  }

  // Adjacent leaves are leaves p, p + 1, ... of the chain, so no two blocks share one.
  lemma AdjacentDiffer(s: State, blocks: seq<Block>)
    requires Valid(s) && AllShaped(s.nodes)
    requires forall b | b in blocks :: |b.path| > 0 && |b.es| > 0 && BlockFits(s, b)
    requires BlocksInOrder(s, blocks)
    ensures LeavesDiffer(blocks)
  {
    hide Leaves, Valid, BlockFits, BlocksInOrder, Distinct;
    if |blocks| > 0 {
      BlockLeafLive(s, blocks, 0);
      LeafListed(s, Last(blocks[0].path));
      var p :| 0 <= p < |Leaves(s)| && Leaves(s)[p] == Last(blocks[0].path);
      forall i, j | 0 <= i < j < |blocks| ensures Last(blocks[i].path) != Last(blocks[j].path) {
        LeafPlaces(s, blocks, p, i);
        LeafPlaces(s, blocks, p, j);
        LeavesApart(s, p + i, p + j);
      }
    }
  }

  lemma LeavesApart(s: State, i: nat, j: nat)
    requires Valid(s) && i < j < |Leaves(s)|
    ensures Leaves(s)[i] != Leaves(s)[j]
  {
    LeavesChain(s);
  }

  lemma FitsStill(a: State, b: State, path: seq<nat>, blk: Block)
    requires AllShaped(a.nodes) && Roomy(a) && OnlyLeaf(a, b, path) && |blk.path| > 0 && |path| > 0
    requires BlockFits(a, blk) && Last(blk.path) != Last(path)
    ensures BlockFits(b, blk)
  {
    hide AllRoute;
    AllRouteSame(a, b, blk.path, blk.es, 0, Last(blk.path));
  }

  lemma {:induction false} WriteIsEach(s: State, blocks: seq<Block>, li: nat)
    requires AllShaped(s.nodes) && Roomy(s) && li <= |blocks|
    requires forall b | b in blocks :: |b.path| > 0 && StrictlyAscending(b.es)
    requires LeavesDiffer(blocks) && forall m | li <= m < |blocks| :: BlockFits(s, blocks[m])
    ensures WriteBlocks(s, blocks, li) == InsertBlocks(s, blocks, li)
    decreases |blocks| - li
  {
    if li < |blocks| {
      var b := blocks[li];
      assert BlockFits(s, b);
      AscendingAll(b.es);
      FillIsEach(s, b.path, Last(b.path), b.es, 0);
      hide FillLeaf, InsertEach, StrictlyAscending, AscendingFrom, BlockFits, OnlyLeaf;
      assert s.At(Last(b.path)).Leaf? by { LeafOfBlock(s, b); }
      if InsertEach(s, b.path, b.es, 0).Ok? {
        EachFrame(s, b.path, b.es, 0);
        var s1 := InsertEach(s, b.path, b.es, 0).value;
        FrameShape(s, s1, b.path);
        forall m | li + 1 <= m < |blocks| ensures BlockFits(s1, blocks[m]) {
          FitsStill(s, s1, b.path, blocks[m]);
        }
        WriteIsEach(s1, blocks, li + 1);
      }
    }
  }

  lemma LeafOfBlock(s: State, b: Block)
    requires AllShaped(s.nodes) && |b.path| > 0 && BlockFits(s, b)
    ensures s.At(Last(b.path)).Leaf?
  {
  }

  lemma FrameShape(a: State, b: State, path: seq<nat>)
    requires OnlyLeaf(a, b, path)
    ensures AllShaped(b.nodes) && Roomy(b)
  {
  }

  // ---- and back: single inserts that succeed would have passed phase 1 ----

  lemma {:induction false} BlocksFit(s0: State, s: State, blocks: seq<Block>, li: nat)
    requires AllShaped(s0.nodes) && Roomy(s0) && AllShaped(s.nodes) && Roomy(s)
    requires SameStructure(s, s0) && Grown(s0, s) && li <= |blocks|
    requires forall b | b in blocks :: |b.path| > 0 && |b.es| > 0
    requires InsertBlocks(s, blocks, li).Ok?
    ensures forall m | li <= m < |blocks| :: BlockFits(s0, blocks[m])
    decreases |blocks| - li
  {
    if li < |blocks| {
      var b := blocks[li];
      hide InsertEach, OnlyLeaf, AllRoute, Grown, SameStructure, BlockFits;
      EachFits(s, b.path, b.es, 0);
      AllRouteSame(s, s0, b.path, b.es, 0, Last(b.path));
      FitsBefore(s0, s, b);
      EachFrame(s, b.path, b.es, 0);
      var s1 := InsertEach(s, b.path, b.es, 0).value;
      GrownTrans(s0, s, s1, b.path);
      BlocksFit(s0, s1, blocks, li + 1);
    }
  }

  lemma FitsBefore(s0: State, s: State, b: Block)
    requires AllShaped(s0.nodes) && SameStructure(s, s0) && Grown(s0, s) && |b.path| > 0
    requires var leaf := Last(b.path); leaf in s.nodes && s.nodes[leaf].Leaf? && |s.nodes[leaf].es| + |b.es| <= s.fanout
    requires AllRoute(s0, b.path, b.es, 0, Last(b.path))
    ensures BlockFits(s0, b)
  {
    hide AllRoute;
    assert Last(b.path) in s.nodes.Keys;
    assert SameNode(s.nodes[Last(b.path)], s0.nodes[Last(b.path)]);
  }

  lemma GrownTrans(s0: State, s: State, s1: State, path: seq<nat>)
    requires SameStructure(s, s0) && Grown(s0, s) && OnlyLeaf(s, s1, path)
    ensures SameStructure(s1, s0) && Grown(s0, s1) && AllShaped(s1.nodes) && Roomy(s1)
  {
    SameFlip(s, s1);
    SameTrans(s1, s, s0);
  }

  lemma SameFlip(a: State, b: State)
    requires SameStructure(a, b)
    ensures SameStructure(b, a)
  {
    assert a == b.(nodes := a.nodes);
    forall x | x in b.nodes ensures SameNode(b.nodes[x], a.nodes[x]) {
      assert x in a.nodes.Keys;
      assert SameNode(a.nodes[x], b.nodes[x]);
    }
  }

  // MultiLeafInsertFast is accepted exactly when its leaves are adjacent, its keys ascend
  // throughout, and InsertFast accepts the entries one after the other; then it does the same.
  lemma MultiLeafIsSingles(s: State, blocks: seq<Block>)
    requires Valid(s) && AllShaped(s.nodes) && s.height > 0 && BlocksSized(blocks, s.height)
    ensures MultiLeafInsertFast(s, s.height, blocks).Ok? <==> BlocksInOrder(s, blocks) && InsertBlocks(s, blocks, 0).Ok?
    ensures MultiLeafInsertFast(s, s.height, blocks).Ok? ==>
            MultiLeafInsertFast(s, s.height, blocks) == InsertBlocks(s, blocks, 0)
  {
    ValidShaped(s);
    ChecksEach(s, blocks, 0);
    hide Valid, CheckBlocks, WriteBlocks, InsertBlocks, BlockFits, StrictlyAscending, SameStructure, Grown;
    if CheckBlocks(s, blocks, 0) == None {
      forall b | b in blocks ensures BlockFits(s, b) {
        var m :| 0 <= m < |blocks| && blocks[m] == b;
        PassesFits(s, blocks, m);
      }
      OrderPassed(s, blocks);
      hide BlockPasses;
      AdjacentDiffer(s, blocks);
      AllAscend(s, blocks);
      WriteIsEach(s, blocks, 0);
    } else if BlocksInOrder(s, blocks) && InsertBlocks(s, blocks, 0).Ok? {
      SelfGrown(s);
      BlocksFit(s, s, blocks, 0);
      hide BlocksInOrder, BlockPasses;
      forall m | 0 <= m < |blocks| ensures BlockPasses(s, blocks, m) {
        FitsPasses(s, blocks, m);
      }
      assert false;
    }
  }

  lemma OrderPassed(s: State, blocks: seq<Block>)
    requires AllShaped(s.nodes)
    requires forall b | b in blocks :: |b.path| == s.height > 0 && |b.es| > 0
    requires forall m | 0 <= m < |blocks| :: BlockPasses(s, blocks, m)
    ensures BlocksInOrder(s, blocks)
  {
    hide StrictlyAscending, NextIs, Descend, RoutesToLeaf;
    forall m | 0 <= m < |blocks|
      ensures StrictlyAscending(blocks[m].es)
      ensures m > 0 ==> NextIs(s, blocks[m - 1].path, Last(blocks[m].path)) && Last(blocks[m - 1].es).key < blocks[m].es[0].key
    {
      assert BlockPasses(s, blocks, m);
    }
  }

  lemma AllAscend(s: State, blocks: seq<Block>)
    requires forall b | b in blocks :: |b.path| > 0 && |b.es| > 0
    requires BlocksInOrder(s, blocks)
    ensures forall b | b in blocks :: StrictlyAscending(b.es)
  {
    hide StrictlyAscending;
  }

  lemma SelfGrown(s: State)
    ensures SameStructure(s, s) && Grown(s, s)
  {
  }

  // ---- what it does to the map ----

  function Flattened(blocks: seq<Block>, li: nat): seq<Entry>
    decreases |blocks| - li
  {
    if li >= |blocks| then [] else blocks[li].es + Flattened(blocks, li + 1)
  }

  lemma {:induction false} AddAllConcat(m: map<Key, Val>, a: seq<Entry>, b: seq<Entry>, i: nat)
    requires i <= |a|
    ensures AddAll(m, a + b, i) == AddAll(AddAll(m, a, i), b, 0)
    decreases |a| - i
  {
    if i < |a| {
      assert (a + b)[i] == a[i];
      AddAllConcat(m[a[i].key := a[i].val], a, b, i + 1);
    } else {
      AddAllShift(m, a, b, 0);
    }
  }

  lemma {:induction false} AddAllShift(m: map<Key, Val>, a: seq<Entry>, b: seq<Entry>, i: nat)
    requires i <= |b|
    ensures AddAll(m, a + b, |a| + i) == AddAll(m, b, i)
    decreases |b| - i
  {
    if i < |b| {
      assert (a + b)[|a| + i] == b[i];
      AddAllShift(m[b[i].key := b[i].val], a, b, i + 1);
    }
  }

  lemma {:induction false} BlocksCorrect(s: State, lm: nat, blocks: seq<Block>, li: nat)
    requires ValidWith(s, lm) && Valid(s) && AllShaped(s.nodes) && InsertBlocks(s, blocks, li).Ok?
    ensures var s' := InsertBlocks(s, blocks, li).value;
            && ValidWith(s', lm) && Valid(s')
            && Contents(s') == AddAll(Contents(s), Flattened(blocks, li), 0)
    decreases |blocks| - li
  {
    hide ValidWith, Valid, Contents, InsertEach, AddAll, AllShaped;
    if li < |blocks| {
      var b := blocks[li];
      EachCorrect(s, lm, b.path, b.es, 0);
      var s1 := InsertEach(s, b.path, b.es, 0).value;
      BlocksCorrect(s1, lm, blocks, li + 1);
      AddAllConcat(Contents(s), b.es, Flattened(blocks, li + 1), 0);
    } else {
      AddNone(Contents(s));
    }
  }

  lemma AddNone(m: map<Key, Val>)
    ensures AddAll(m, [], 0) == m
  {
  }

  lemma MultiLeafCorrect(s: State, lm: nat, pathLen: nat, blocks: seq<Block>)
    requires ValidWith(s, lm) && Valid(s) && AllShaped(s.nodes) && forall b | b in blocks :: |b.path| == pathLen
    requires MultiLeafInsertFast(s, pathLen, blocks).Ok?
    ensures var s' := MultiLeafInsertFast(s, pathLen, blocks).value;
            && ValidWith(s', lm) && Valid(s')
            && Contents(s') == AddAll(Contents(s), Flattened(blocks, 0), 0)
  {
    hide ValidWith, Valid, Contents, CheckBlocks, WriteBlocks, InsertBlocks, AllShaped;
    if |blocks| > 0 {
      MultiLeafIsSingles(s, blocks);
      hide MultiLeafInsertFast;
      BlocksCorrect(s, lm, blocks, 0);
    } else {
      AddNone(Contents(s));
    }
  }

  // Exactly: no block at all, or at most 8 blocks of at most 12 entries each, on adjacent leaves, in
  // order, and such that the single inserts would be accepted.
  lemma MultiLeafIff(s: State, pathLen: nat, blocks: seq<Block>)
    requires Valid(s) && AllShaped(s.nodes) && forall b | b in blocks :: |b.path| == pathLen
    ensures MultiLeafInsertFast(s, pathLen, blocks).Ok? <==>
            blocks == []
            || (pathLen == s.height > 0 && |blocks| <= 8 && (forall b | b in blocks :: 0 < |b.es| <= 12)
                && BlocksInOrder(s, blocks) && InsertBlocks(s, blocks, 0).Ok?)
  {
    hide Valid, AllShaped, CheckBlocks, WriteBlocks, InsertBlocks, BlocksInOrder;
    if blocks != [] && pathLen == s.height > 0 && BlocksSized(blocks, s.height) {
      MultiLeafIsSingles(s, blocks);
    }
  }
}
