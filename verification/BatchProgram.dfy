// The batch instructions as the program runs them.
module BatchProgram {
  import opened Base
  import opened NodeViews
  import opened Shapes
  import opened Engine
  import opened Represent
  import opened InsertProof
  import opened HotTheorems
  import opened BatchTheorems
  import opened MultiLeafTheorem
  import opened NodeOps
  import opened Accounts
  import opened Tidy
  import opened HotProgram

  // path_routes_to_leaf: the walk without any check.
  method CheckRoute(t: Torna, path: seq<nat>, key: Key) returns (ok: bool)
    requires Sound(t) && PathOpen(t.Abs().nodes, path, 0)
    ensures t.Wf() && t.Footprint() == old(t.Footprint()) && t.Abs() == old(t.Abs())
    ensures ok == RoutesToLeaf(old(t.Abs()), path, key, 0)
  {
    hide Torna.Wf, Torna.Abs, Torna.Footprint, TidyState, AllShaped, TidyNode, Node.Valid, Node.View, RoutesToLeaf, Route;
    ghost var s := t.Abs();
    var lvl := 0;
    while lvl < |path| - 1
      invariant 0 <= lvl < |path| && PathOpen(s.nodes, path, lvl)
      invariant t.Wf() && t.Footprint() == old(t.Footprint()) && t.Abs() == s
      invariant RoutesToLeaf(s, path, key, 0) == RoutesToLeaf(s, path, key, lvl)
    {
      LookTidy(t, path[lvl]);
      RouteLevel(s, path, key, lvl);
      var desc := RouteIn(t, path[lvl], key);
      if path[lvl + 1] != desc {
        return false;
      }
      lvl := lvl + 1;
    }
    RouteLevel(s, path, key, lvl);
    return true;
  }

  lemma RouteLevel(s: State, path: seq<nat>, key: Key, lvl: nat)
    requires PathOpen(s.nodes, path, lvl)
    ensures lvl == |path| - 1 ==> RoutesToLeaf(s, path, key, lvl)
    ensures lvl < |path| - 1 ==>
            && PathOpen(s.nodes, path, lvl + 1) && s.nodes[path[lvl]].Inner? && Shaped(s.nodes[path[lvl]])
            && RoutesToLeaf(s, path, key, lvl) ==
               (path[lvl + 1] == s.nodes[path[lvl]].kids[Route(s.nodes[path[lvl]].keys, key)] && RoutesToLeaf(s, path, key, lvl + 1))
  {
  }

  // ---- one leaf ----

  lemma FillStep(s: State, leaf: nat, es: seq<Entry>, i: nat)
    requires leaf in s.nodes && s.nodes[leaf].Leaf? && i < |es|
    ensures var v := s.nodes[leaf];
            FillLeaf(s, leaf, es, i) ==
            if i > 0 && es[i - 1].key >= es[i].key then Err(BadIxData)
            else if Holds(v.es, es[i].key) then Err(DuplicateKey)
            else FillLeaf(s.Set(leaf, Leaf(Inserted(v.es, es[i]), v.next)), leaf, es, i + 1)
  {
  }

  // A leaf at work: sorted, with room for `room` more entries.
  ghost predicate HasRoom(s: State, leaf: nat, room: int) {
    && leaf in s.nodes && s.nodes[leaf].Leaf? && EntriesIn(s.nodes[leaf].es, 0, KEY_LIMIT)
    && |s.nodes[leaf].es| + room <= s.fanout
  }

  lemma RoomLeft(s: State, leaf: nat, e: Entry, room: int)
    requires HasRoom(s, leaf, room) && room >= 1
    ensures Ascending(KeysOf(s.nodes[leaf].es)) && |s.nodes[leaf].es| <= s.fanout
    ensures !Holds(s.nodes[leaf].es, e.key) ==> HasRoom(s.Set(leaf, Leaf(Inserted(s.nodes[leaf].es, e), s.nodes[leaf].next)), leaf, room - 1)
  {
    EntriesAscend(s.nodes[leaf].es, 0, KEY_LIMIT);
    if !Holds(s.nodes[leaf].es, e.key) {
      InsertedIn(s.nodes[leaf].es, e, 0, KEY_LIMIT);
      InsertedLength(s.nodes[leaf].es, e);
    }
  }

  method Fill(t: Torna, leaf: nat, es: seq<Entry>) returns (r: Option<Error>)
    requires t.Wf() && HasRoom(t.Abs(), leaf, |es|)
    modifies t.Footprint()
    ensures t.Wf() && t.Footprint() == old(t.Footprint())
    ensures Outcome(FillLeaf(old(t.Abs()), leaf, es, 0), r, t.Abs())
  {
    hide Torna.Wf, Torna.Abs, Torna.Footprint, FillLeaf, HasRoom, Inserted, Holds, Ascending;
    ghost var s := t.Abs();
    var i := 0;
    Room(t.Abs(), leaf, |es|);
    while i < |es|
      invariant 0 <= i <= |es| && t.Wf() && t.Footprint() == old(t.Footprint())
      invariant HasRoom(t.Abs(), leaf, |es| - i) && leaf in t.Abs().nodes && t.Abs().nodes[leaf].Leaf?
      invariant FillLeaf(s, leaf, es, 0) == FillLeaf(t.Abs(), leaf, es, i)
    {
      FillStep(t.Abs(), leaf, es, i);
      RoomLeft(t.Abs(), leaf, es[i], |es| - i);
      if i > 0 && es[i - 1].key >= es[i].key {
        return Some(BadIxData);
      }
      Header(t);
      Look(t, leaf);
      var dup := t.LeafInsert(leaf, es[i]);
      if dup {
        return Some(DuplicateKey);
      }
      i := i + 1;
    }
    FillDone(t.Abs(), leaf, es);
    return None;
  }

  lemma Room(s: State, leaf: nat, room: int)
    requires HasRoom(s, leaf, room)
    ensures leaf in s.nodes && s.nodes[leaf].Leaf?
  {
  }

  lemma FillDone(s: State, leaf: nat, es: seq<Entry>)
    requires leaf in s.nodes && s.nodes[leaf].Leaf?
    ensures FillLeaf(s, leaf, es, |es|) == Ok(s)
  {
  }

  lemma LeafRoom(t: Torna, x: nat, room: int)
    requires Sound(t) && x in t.Abs().nodes && t.Abs().nodes[x].Leaf? && |t.Abs().nodes[x].es| + room <= t.fanout
    ensures HasRoom(t.Abs(), x, room)
  {
  }

  method DoBulkInsertFast(t: Torna, path: seq<nat>, es: seq<Entry>) returns (r: Option<Error>)
    requires Sound(t)
    modifies t.Footprint()
    ensures t.Wf() && t.Footprint() == old(t.Footprint())
    ensures Outcome(BulkInsertFast(old(t.Abs()), path, es), r, t.Abs())
  {
    hide Torna.Wf, Torna.Abs, Torna.Footprint, FastLeaf, FillLeaf, RoutesToLeaf, TidyState, AllShaped, Ascending, HasRoom;
    if |es| == 0 {
      return None;
    }
    Header(t);
    var leaf := FindFastLeaf(t, path, es[0].key);
    if leaf.Err? {
      return Some(leaf.error);
    }
    Found(t, path, es[0].key);
    if t.nodes[leaf.value].keyCount + |es| > t.fanout {
      return Some(NeedSplitSlot);
    }
    LeafRoom(t, leaf.value, |es|);
    var routes := CheckRoute(t, path, es[|es| - 1].key);
    if !routes {
      return Some(BadPath);
    }
    r := Fill(t, leaf.value, es);
  }

  // ---- several leaves ----

  method Ascends(es: seq<Entry>) returns (ok: bool)
    ensures ok == StrictlyAscending(es)
  {
    var i := 1;
    while i < |es|
      invariant 1 <= i
      invariant forall j | 0 < j < i && j < |es| :: es[j - 1].key < es[j].key
    {
      if es[i - 1].key >= es[i].key {
        return false;
      }
      i := i + 1;
    }
    return true;
  }

  // The verdict of phase 1 on one block; `prevNext` is where the block before it points to.
  ghost function BlockVerdict(s: State, blocks: seq<Block>, li: nat): Option<Error>
    requires AllShaped(s.nodes) && li < |blocks|
    requires forall b | b in blocks :: |b.path| == s.height > 0 && |b.es| > 0
  {
    var b := blocks[li];
    match Descend(s, b.path, b.es[0].key, 0, s.root)
    case Err(e) => Some(e)
    case Ok(leaf) =>
      if |s.nodes[leaf].es| + |b.es| > s.fanout then Some(NeedSplitSlot)
      else if li > 0 && !NextIs(s, blocks[li - 1].path, leaf) then Some(LeafNotAdjacent)
      else if !RoutesToLeaf(s, b.path, b.es[|b.es| - 1].key, 0) then Some(BadPath)
      else if li > 0 && blocks[li - 1].es[|blocks[li - 1].es| - 1].key >= b.es[0].key then Some(BadIxData)
      else if !StrictlyAscending(b.es) then Some(BadIxData)
      else None
  }

  lemma CheckStep(s: State, blocks: seq<Block>, li: nat)
    requires AllShaped(s.nodes) && li < |blocks|
    requires forall b | b in blocks :: |b.path| == s.height > 0 && |b.es| > 0
    ensures CheckBlocks(s, blocks, li) == if BlockVerdict(s, blocks, li).Some? then BlockVerdict(s, blocks, li) else CheckBlocks(s, blocks, li + 1)
  {
    hide Descend, RoutesToLeaf, StrictlyAscending, NextIs;
  }

  method CheckBlock(t: Torna, blocks: seq<Block>, li: nat) returns (r: Option<Error>)
    requires Sound(t) && li < |blocks|
    requires forall b | b in blocks :: |b.path| == t.Abs().height > 0 && |b.es| > 0
    requires li > 0 ==> Last(blocks[li - 1].path) in t.Abs().nodes && t.Abs().nodes[Last(blocks[li - 1].path)].Leaf?
    ensures t.Wf() && t.Footprint() == old(t.Footprint()) && t.Abs() == old(t.Abs())
    ensures r == BlockVerdict(old(t.Abs()), blocks, li)
    ensures r == None ==> Last(blocks[li].path) in t.Abs().nodes && t.Abs().nodes[Last(blocks[li].path)].Leaf?
  {
    hide Torna.Wf, Torna.Abs, Descend, RoutesToLeaf, StrictlyAscending, TidyState, AllShaped, Node.Valid, Node.View;
    var b := blocks[li];
    Header(t);
    assert b in blocks;
    var leaf := DescendTo(t, b.path, b.es[0].key);
    if leaf.Err? {
      return Some(leaf.error);
    }
    Look(t, leaf.value);
    if t.nodes[leaf.value].keyCount + |b.es| > t.fanout {
      return Some(NeedSplitSlot);
    }
    if li > 0 {
      Look(t, Last(blocks[li - 1].path));
      if t.nodes[Last(blocks[li - 1].path)].next != leaf.value {
        return Some(LeafNotAdjacent);
      }
    }
    var routes := CheckRoute(t, b.path, b.es[|b.es| - 1].key);
    if !routes {
      return Some(BadPath);
    }
    if li > 0 && blocks[li - 1].es[|blocks[li - 1].es| - 1].key >= b.es[0].key {
      return Some(BadIxData);
    }
    var ok := Ascends(b.es);
    t.Untouched();
    if !ok {
      return Some(BadIxData);
    }
    return None;
  }

  method CheckAll(t: Torna, blocks: seq<Block>) returns (r: Option<Error>)
    requires Sound(t)
    requires forall b | b in blocks :: |b.path| == t.Abs().height > 0 && |b.es| > 0
    ensures t.Wf() && t.Footprint() == old(t.Footprint()) && t.Abs() == old(t.Abs())
    ensures r == CheckBlocks(old(t.Abs()), blocks, 0)
  {
    hide Torna.Wf, Torna.Abs, Torna.Footprint, CheckBlocks, BlockVerdict, TidyState, AllShaped;
    ghost var s := t.Abs();
    var li := 0;
    while li < |blocks|
      invariant 0 <= li <= |blocks| && t.Wf() && t.Footprint() == old(t.Footprint()) && t.Abs() == s
      invariant CheckBlocks(s, blocks, 0) == CheckBlocks(s, blocks, li)
      invariant li > 0 ==> Last(blocks[li - 1].path) in s.nodes && s.nodes[Last(blocks[li - 1].path)].Leaf?
    {
      CheckStep(s, blocks, li);
      r := CheckBlock(t, blocks, li);
      if r.Some? {
        return;
      }
      li := li + 1;
    }
    CheckDone(s, blocks);
    return None;
  }

  lemma CheckDone(s: State, blocks: seq<Block>)
    requires AllShaped(s.nodes)
    requires forall b | b in blocks :: |b.path| == s.height > 0 && |b.es| > 0
    ensures CheckBlocks(s, blocks, |blocks|) == None
  {
  }

  // Phase 1 leaves room in every leaf for as long as phase 2 runs.
  ghost predicate RoomAhead(s: State, blocks: seq<Block>, li: nat)
    requires forall b | b in blocks :: |b.path| > 0
  {
    forall m | li <= m < |blocks| :: HasRoom(s, Last(blocks[m].path), |blocks[m].es|)
  }

  lemma {:induction false} FillElsewhere(s: State, leaf: nat, es: seq<Entry>, i: nat)
    requires leaf in s.nodes && s.nodes[leaf].Leaf? && FillLeaf(s, leaf, es, i).Ok?
    ensures var s' := FillLeaf(s, leaf, es, i).value;
            s'.fanout == s.fanout && forall x | x in s.nodes && x != leaf :: x in s'.nodes && s'.nodes[x] == s.nodes[x]
    decreases |es| - i
  {
    if i < |es| {
      FillElsewhere(s.Set(leaf, Leaf(Inserted(s.nodes[leaf].es, es[i]), s.nodes[leaf].next)), leaf, es, i + 1);
    }
  }

  lemma StillRoom(s: State, blocks: seq<Block>, li: nat)
    requires li < |blocks| && (forall b | b in blocks :: |b.path| > 0) && LeavesDiffer(blocks) && RoomAhead(s, blocks, li)
    ensures HasRoom(s, Last(blocks[li].path), |blocks[li].es|)
    ensures var leaf := Last(blocks[li].path); leaf in s.nodes && s.nodes[leaf].Leaf?
    ensures var r := FillLeaf(s, Last(blocks[li].path), blocks[li].es, 0); r.Ok? ==> RoomAhead(r.value, blocks, li + 1)
  {
    var leaf := Last(blocks[li].path);
    assert HasRoom(s, leaf, |blocks[li].es|);
    if FillLeaf(s, leaf, blocks[li].es, 0).Ok? {
      FillElsewhere(s, leaf, blocks[li].es, 0);
      hide FillLeaf, EntriesIn;
      var s' := FillLeaf(s, leaf, blocks[li].es, 0).value;
      forall m | li + 1 <= m < |blocks| ensures HasRoom(s', Last(blocks[m].path), |blocks[m].es|) {
        assert HasRoom(s, Last(blocks[m].path), |blocks[m].es|);
      }
    }
  }

  lemma WriteStep(s: State, blocks: seq<Block>, li: nat)
    requires li < |blocks| && forall b | b in blocks :: |b.path| > 0
    requires Last(blocks[li].path) in s.nodes && s.nodes[Last(blocks[li].path)].Leaf?
    ensures var r := FillLeaf(s, Last(blocks[li].path), blocks[li].es, 0);
            WriteBlocks(s, blocks, li) == if r.Ok? then WriteBlocks(r.value, blocks, li + 1) else Err(r.error)
  {
    hide FillLeaf;
  }

  lemma WriteDone(s: State, blocks: seq<Block>)
    requires forall b | b in blocks :: |b.path| > 0
    ensures WriteBlocks(s, blocks, |blocks|) == Ok(s)
  {
  }

  method WriteAll(t: Torna, blocks: seq<Block>) returns (r: Option<Error>)
    requires t.Wf() && (forall b | b in blocks :: |b.path| > 0) && LeavesDiffer(blocks) && RoomAhead(t.Abs(), blocks, 0)
    modifies t.Footprint()
    ensures t.Wf() && t.Footprint() == old(t.Footprint())
    ensures Outcome(WriteBlocks(old(t.Abs()), blocks, 0), r, t.Abs())
  {
    hide Torna.Wf, Torna.Abs, Torna.Footprint, FillLeaf, WriteBlocks, RoomAhead, HasRoom, LeavesDiffer;
    ghost var s := t.Abs();
    var li := 0;
    while li < |blocks|
      invariant 0 <= li <= |blocks| && t.Wf() && t.Footprint() == old(t.Footprint())
      invariant RoomAhead(t.Abs(), blocks, li)
      invariant WriteBlocks(s, blocks, 0) == WriteBlocks(t.Abs(), blocks, li)
    {
      StillRoom(t.Abs(), blocks, li);
      WriteStep(t.Abs(), blocks, li);
      r := Fill(t, blocks[li].path[|blocks[li].path| - 1], blocks[li].es);
      if r.Some? {
        return;
      }
      li := li + 1;
    }
    WriteDone(t.Abs(), blocks);
    return None;
  }

  // What phase 1 has established for phase 2.
  lemma ReadyToWrite(s: State, blocks: seq<Block>)
    requires Valid(s) && AllShaped(s.nodes) && (forall b | b in blocks :: |b.path| == s.height > 0 && |b.es| > 0)
    requires CheckBlocks(s, blocks, 0) == None
    ensures (forall b | b in blocks :: |b.path| > 0) && LeavesDiffer(blocks) && RoomAhead(s, blocks, 0)
  {
    ChecksEach(s, blocks, 0);
    hide Valid, CheckBlocks, BlockFits;
    forall b | b in blocks ensures BlockFits(s, b) {
      var m :| 0 <= m < |blocks| && blocks[m] == b;
      PassesFits(s, blocks, m);
    }
    OrderPassed(s, blocks);
    AdjacentDiffer(s, blocks);
    ValidTidy(s);
    hide BlockPasses, BlocksInOrder, LeavesDiffer, TidyState;
    forall m | 0 <= m < |blocks| ensures HasRoom(s, Last(blocks[m].path), |blocks[m].es|) {
      FitsRoom(s, blocks[m]);
    }
  }

  lemma FitsRoom(s: State, b: Block)
    requires TidyState(s) && AllShaped(s.nodes) && |b.path| > 0 && BlockFits(s, b)
    ensures HasRoom(s, Last(b.path), |b.es|)
  {
    hide AllRoute;
    assert TidyNode(s.nodes[Last(b.path)], s.fanout);
  }

  method DoMultiLeafInsertFast(t: Torna, pathLen: nat, blocks: seq<Block>) returns (r: Option<Error>)
    requires Sound(t) && Valid(t.Abs()) && forall b | b in blocks :: |b.path| == pathLen
    modifies t.Footprint()
    ensures t.Wf() && t.Footprint() == old(t.Footprint())
    ensures Outcome(MultiLeafInsertFast(old(t.Abs()), pathLen, blocks), r, t.Abs())
  {
    hide Torna.Wf, Torna.Abs, Torna.Footprint, CheckBlocks, WriteBlocks, TidyState, AllShaped, Valid, RoomAhead, LeavesDiffer;
    if |blocks| == 0 {
      return None;
    }
    if |blocks| > MAX_MULTI_LEAF_LEAVES {
      return Some(MultiLeafOverflow);
    }
    if pathLen == 0 {
      return Some(TreeUninit);
    }
    var li := 0;
    while li < |blocks|
      invariant 0 <= li <= |blocks| && t.Abs() == old(t.Abs())
      invariant forall m | 0 <= m < li :: 0 < |blocks[m].es| <= MAX_MULTI_LEAF_EPL
    {
      if |blocks[li].es| == 0 || |blocks[li].es| > MAX_MULTI_LEAF_EPL {
        assert blocks[li] in blocks;
        return Some(MultiLeafOverflow);
      }
      li := li + 1;
    }
    Header(t);
    if pathLen != t.height {
      return Some(BadPath);
    }
    r := CheckAll(t, blocks);
    if r.Some? {
      return;
    }
    ReadyToWrite(t.Abs(), blocks);
    r := WriteAll(t, blocks);
  }
}
