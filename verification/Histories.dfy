// What holds between two states of one run: node indices are never handed out twice, and an
// unchanged structure epoch means an unchanged structure.
module Histories {
  import opened Base
  import opened NodeViews
  import opened Engine
  import opened Represent
  import opened MapModel
  import opened DeleteTheorem
  import opened HotTheorems
  import opened Structure
  import opened Scans
  import opened Runs

  // Whatever comes alive has an index above the old high-water mark.
  ghost predicate Allocates(s: State, s': State) {
    && s.highWater <= s'.highWater && s'.fanout == s.fanout
    && forall x | x in s'.nodes && x !in s.nodes :: x > s.highWater
  }

  // One state of a run and a later one.
  ghost predicate Follows(s: State, s': State) {
    Allocates(s, s') && (s'.epoch > s.epoch || SameStructure(s, s'))
  }

  lemma FollowsTrans(a: State, b: State, c: State)
    requires Follows(a, b) && Follows(b, c)
    ensures Follows(a, c)
  {
    hide SameNodes;
    if c.epoch <= a.epoch {
      SameTrans(a, b, c);
    }
  }

  lemma SameFollows(s: State, s': State)
    requires SameStructure(s, s')
    ensures Follows(s, s')
  {
    forall x | x in s'.nodes ensures x in s.nodes {
      assert x in s'.nodes.Keys;
    }
  }

  // ---- Insert ----

  // The levels of a split cascade only add nodes at the allocator's mark.
  ghost predicate Climbs(s: State, u: Rise) {
    Allocates(s, u.s) && u.s.epoch == s.epoch && (u.split ==> u.used > 0) && (u.used > 0 ==> u.s.highWater > s.highWater)
  }

  lemma LeafAllocates(s: State, idx: nat, e: Entry, spares: seq<nat>)
    requires idx in s.nodes && s.nodes[idx].Leaf? && InsertLeaf(s, idx, e, spares).Ok?
    ensures Climbs(s, InsertLeaf(s, idx, e, spares).value)
  {
    hide Inserted, Holds;
  }

  lemma InnerAllocates(s: State, u: Rise, idx: nat, spares: seq<nat>)
    requires idx in u.s.nodes && u.s.nodes[idx].Inner? && Shaped(u.s.nodes[idx]) && u.used <= |spares|
    requires Climbs(s, u) && InsertInner(u, idx, spares).Ok?
    ensures Climbs(s, InsertInner(u, idx, spares).value)
  {
    hide LowerBound;
  }

  lemma {:induction false} InsertUpAllocates(s: State, path: seq<nat>, e: Entry, spares: seq<nat>, lvl: nat)
    requires PathOpen(s.nodes, path, lvl) && InsertUp(s, path, e, spares, lvl).Ok?
    ensures Climbs(s, InsertUp(s, path, e, spares, lvl).value)
    decreases |path| - lvl
  {
    hide InsertLeaf, InsertInner, Climbs;
    if lvl < |path| - 1 {
      InsertUpAllocates(s, path, e, spares, lvl + 1);
      var u := InsertUp(s, path, e, spares, lvl + 1).value;
      if u.split {
        InnerAllocates(s, u, path[lvl], spares);
      }
    } else {
      LeafAllocates(s, path[lvl], e, spares);
    }
  }

  // Without a split only the leaf is written.
  lemma {:induction false} InsertUpInLeaf(s: State, path: seq<nat>, e: Entry, spares: seq<nat>, lvl: nat)
    requires PathOpen(s.nodes, path, lvl) && InsertUp(s, path, e, spares, lvl).Ok?
    ensures var u, leaf := InsertUp(s, path, e, spares, lvl).value, path[|path| - 1];
            u.used == 0 ==> !u.split && u.s == s.Set(leaf, Leaf(Inserted(s.nodes[leaf].es, e), s.nodes[leaf].next))
    decreases |path| - lvl
  {
    hide LowerBound, Inserted, Holds;
    if lvl < |path| - 1 {
      InsertUpInLeaf(s, path, e, spares, lvl + 1);
    }
  }

  lemma LeafSetSame(s: State, leaf: nat, es: seq<Entry>)
    requires leaf in s.nodes && s.nodes[leaf].Leaf?
    ensures SameStructure(s, s.Set(leaf, Leaf(es, s.nodes[leaf].next)))
  {
    assert s.Set(leaf, Leaf(es, s.nodes[leaf].next)).nodes.Keys == s.nodes.Keys;
  }

  lemma InsertFollows(s: State, e: Entry, path: seq<nat>, spares: seq<nat>)
    requires AllShaped(s.nodes) && Insert(s, e, path, spares).Ok?
    ensures var s' := Insert(s, e, path, spares).value;
            Follows(s, s') && (s'.epoch != s.epoch ==> s'.highWater > s.highWater)
  {
    if s.height > 0 {
      InsertUpAllocates(s, path, e, spares, 0);
      InsertUpInLeaf(s, path, e, spares, 0);
      hide InsertUp, Inserted, SameStructure;
      var u, leaf := InsertUp(s, path, e, spares, 0).value, path[|path| - 1];
      if u.used == 0 {
        LeafSetSame(s, leaf, Inserted(s.nodes[leaf].es, e));
      } else if u.split {
        GrowAllocates(s, u, spares);
      }
    }
  }

  lemma GrowAllocates(s: State, u: Rise, spares: seq<nat>)
    requires Climbs(s, u) && u.used <= |spares| && GrowRoot(u, spares).Ok?
    ensures Allocates(s, GrowRoot(u, spares).value) && GrowRoot(u, spares).value.epoch == s.epoch
    ensures GrowRoot(u, spares).value.highWater > s.highWater
  {
  }

  // ---- the others ----

  lemma DeleteFollows(s: State, rq: DeleteRq)
    requires Valid(s) && AllShaped(s.nodes) && Delete(s, rq).Ok?
    ensures Follows(s, Delete(s, rq).value)
  {
    hide Contents, StateEntries, Delete, AllShaped, EmptyTree, Represents, SameStructure;
    DeleteCorrect(s, 0, rq);
  }

  lemma CompactFollows(s: State, path: seq<nat>)
    requires AllShaped(s.nodes) && CompactLeaf(s, path).Ok?
    ensures Follows(s, CompactLeaf(s, path).value)
  {
  }

  lemma FastFollows(s: State, ix: Ix)
    requires AllShaped(s.nodes) && Roomy(s) && Apply(s, ix).Ok?
    requires ix.IxInsertFast? || ix.IxUpdateFast? || ix.IxDeleteFast? || ix.IxFind? || ix.IxRangeScan?
    ensures SameStructure(s, Apply(s, ix).value)
  {
    Reflexive(s);
    hide FastLeaf, Inserted, Updated, Removed, Holds, SameStructure, RangeScan, Find;
    match ix
    case IxInsertFast(e, path) =>
      var leaf := FastLeaf(s, path, e.key).value;
      LeafSetSame(s, leaf, Inserted(s.nodes[leaf].es, e));
    case IxUpdateFast(e, path) =>
      var leaf := FastLeaf(s, path, e.key).value;
      LeafSetSame(s, leaf, Updated(s.nodes[leaf].es, e));
    case IxDeleteFast(key, path) =>
      var leaf := FastLeaf(s, path, key).value;
      if Holds(s.nodes[leaf].es, key) {
        LeafSetSame(s, leaf, Removed(s.nodes[leaf].es, key));
      }
    case _ =>
  }

  lemma {:induction false} FillFollows(s: State, leaf: nat, es: seq<Entry>, i: nat)
    requires leaf in s.nodes && s.nodes[leaf].Leaf? && FillLeaf(s, leaf, es, i).Ok?
    ensures SameStructure(s, FillLeaf(s, leaf, es, i).value)
    decreases |es| - i
  {
    if i < |es| {
      var es1 := Inserted(s.nodes[leaf].es, es[i]);
      LeafSetSame(s, leaf, es1);
      var s1 := s.Set(leaf, Leaf(es1, s.nodes[leaf].next));
      FillFollows(s1, leaf, es, i + 1);
      hide SameStructure, Inserted, Holds;
      SameTrans(s, s1, FillLeaf(s1, leaf, es, i + 1).value);
    } else {
      Reflexive(s);
    }
  }

  lemma {:induction false} WriteFollows(s: State, blocks: seq<Block>, li: nat)
    requires forall b | b in blocks :: |b.path| > 0
    requires WriteBlocks(s, blocks, li).Ok?
    ensures SameStructure(s, WriteBlocks(s, blocks, li).value)
    decreases |blocks| - li
  {
    if li < |blocks| {
      var b := blocks[li];
      var leaf := b.path[|b.path| - 1];
      FillFollows(s, leaf, b.es, 0);
      var s1 := FillLeaf(s, leaf, b.es, 0).value;
      WriteFollows(s1, blocks, li + 1);
      hide SameStructure, FillLeaf;
      SameTrans(s, s1, WriteBlocks(s1, blocks, li + 1).value);
    } else {
      Reflexive(s);
    }
  }

  lemma BatchFollows(s: State, ix: Ix)
    requires AllShaped(s.nodes) && Apply(s, ix).Ok?
    requires ix.IxBulkInsertFast? || ix.IxMultiLeafInsertFast?
    ensures SameStructure(s, Apply(s, ix).value)
  {
    Reflexive(s);
    hide FillLeaf, WriteBlocks, SameStructure, CheckBlocks, RoutesToLeaf;
    if ix.IxBulkInsertFast? {
      if |ix.es| > 0 {
        FillFollows(s, FastLeaf(s, ix.path, ix.es[0].key).value, ix.es, 0);
      }
    } else if |ix.blocks| > 0 {
      WriteFollows(s, ix.blocks, 0);
    }
  }

  lemma StepFollows(s: State, ix: Ix)
    requires Valid(s)
    ensures AllShaped(s.nodes) && Follows(s, Exec(s, ix))
  {
    ValidShaped(s);
    Reflexive(s);
    SameFollows(s, s);
    hide Valid, AllShaped, Follows, SameStructure, Insert, Delete, CompactLeaf, BulkInsertFast, MultiLeafInsertFast, InsertFast,
      UpdateFast, DeleteFast, Find, RangeScan;
    if Apply(s, ix).Ok? {
      match ix
      case IxInsert(e, path, spares) => InsertFollows(s, e, path, spares);
      case IxDelete(rq) => DeleteFollows(s, rq);
      case IxCompactLeaf(path) => CompactFollows(s, path);
      case IxBulkInsertFast(_, _) => BatchFollows(s, ix); SameFollows(s, Exec(s, ix));
      case IxMultiLeafInsertFast(_, _) => BatchFollows(s, ix); SameFollows(s, Exec(s, ix));
      case _ => FastFollows(s, ix); SameFollows(s, Exec(s, ix));
    }
  }

  lemma {:induction false} RunFollows(s: State, ixs: seq<Ix>)
    requires Valid(s)
    ensures Follows(s, Run(s, ixs))
    decreases |ixs|
  {
    if ixs == [] {
      Reflexive(s);
      SameFollows(s, s);
    } else {
      StepFollows(s, ixs[0]);
      StepValid(s, ixs[0]);
      var s1 := Exec(s, ixs[0]);
      hide Valid, AllShaped, Follows, Exec, Contents, Effect;
      RunFollows(s1, ixs[1..]);
      FollowsTrans(s, s1, Run(s1, ixs[1..]));
    }
  }

  // ---- the two theorems ----

  // A node index that was ever in use and is free again stays free: no address is reused.
  lemma NeverReused(s: State, ixs: seq<Ix>, x: nat)
    requires Valid(s) && x <= s.highWater && x !in s.nodes
    ensures x !in Run(s, ixs).nodes
  {
    RunFollows(s, ixs);
  }

  // Two states of a run with one structure epoch have one structure, and route every key alike.
  lemma SameEpoch(s: State, ixs: seq<Ix>)
    requires Valid(s) && Run(s, ixs).epoch == s.epoch
    ensures SameStructure(s, Run(s, ixs))
    ensures forall key: Key :: SearchPath(Run(s, ixs), key) == SearchPath(s, key)
  {
    RunFollows(s, ixs);
    var s' := Run(s, ixs);
    forall key: Key ensures SearchPath(s', key) == SearchPath(s, key) {
      SameSearch(s, s', key);
    }
  }

  lemma SameSearch(a: State, b: State, key: Key)
    requires Valid(a) && Valid(b) && SameStructure(a, b)
    ensures SearchPath(b, key) == SearchPath(a, key)
  {
    ValidShaped(a);
    ValidShaped(b);
    if a.height > 0 {
      var p := SearchPath(a, key);
      hide Valid, SearchPath, SameNodes, FastLeaf, LeafOf;
      PathSound(a, p, key);
      FastLeafSame(a, b, p, key);
      PathSound(b, p, key);
    }
  }
}
