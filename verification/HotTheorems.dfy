// The hot-path instructions act on the map as insert, update, delete and lookup, and only
// ever along the one search path of their key.
module HotTheorems {
  import opened Base
  import opened NodeViews
  import opened Shapes
  import opened Engine
  import opened Represent
  import opened Search
  import opened Edits
  import opened DeleteTheorem
  import opened MapModel
  import opened HotPath

  ghost function SearchPath(s: State, key: Key): seq<nat>
    requires Valid(s)
  {
    if s.height == 0 then [] else PathIn(TreeOf(s), key)
  }

  ghost function LeafOf(s: State, key: Key): Tree
    requires Valid(s) && s.height > 0
  {
    LeafFor(TreeOf(s), key)
  }

  lemma ValidShaped(s: State)
    requires Valid(s)
    ensures AllShaped(s.nodes)
    ensures forall x | x in s.nodes :: Count(s.nodes[x]) <= s.fanout
  {
    if s.height > 0 {
      RepresentsShaped(s, TreeOf(s), 0);
    }
  }

  // Whatever accounts a client supplies, the engine accepts the search path and nothing else.
  lemma PathSound(s: State, path: seq<nat>, key: Key)
    requires Valid(s) && AllShaped(s.nodes) && s.height > 0
    ensures FastLeaf(s, path, key).Ok? <==> path == SearchPath(s, key)
    ensures |SearchPath(s, key)| == s.height
    ensures LeafOf(s, key).TLeaf? && LeafOf(s, key).idx in s.nodes
    ensures s.nodes[LeafOf(s, key).idx].Leaf? && s.nodes[LeafOf(s, key).idx].es == LeafOf(s, key).es
    ensures FastLeaf(s, path, key).Ok? ==> FastLeaf(s, path, key).value == LeafOf(s, key).idx
  {
    var t := TreeOf(s);
    PathLength(t, key, s.height, 0, KEY_LIMIT, Occ(s.fanout, 0));
    LeafHeld(s.nodes, t, key, s.height, 0, KEY_LIMIT, Occ(s.fanout, 0));
    if |path| == s.height {
      AcceptedPath(s, t, 0, path, key);
    }
  }

  // A tree without leaves accepts no path at all.
  lemma NoPathInEmptyTree(s: State, path: seq<nat>, key: Key)
    requires AllShaped(s.nodes) && s.height == 0
    ensures FastLeaf(s, path, key).Err?
  {
  }

  lemma LeafSorted(s: State, key: Key)
    requires Valid(s) && s.height > 0
    ensures LeafOf(s, key).TLeaf?
    ensures Holds(LeafOf(s, key).es, key) <==> key in Contents(s)
    ensures key in Contents(s) ==> LeafOf(s, key).es[Pos(LeafOf(s, key).es, key)] == Entry(key, Contents(s)[key])
    ensures |LeafOf(s, key).es| <= s.fanout
  {
    var t, c := TreeOf(s), Occ(s.fanout, 0);
    var lo, hi := LeafInRange(t, key, s.height, 0, KEY_LIMIT, c);
    HoldsIff(LeafOf(s, key).es, key, lo, hi);
    StateSorted(s);
    hide EntriesIn, Represents;
    HasKeyLists(StateEntries(s), Contents(s), key);
    LookupInLeaf(t, Entry(key, []), s.height, 0, KEY_LIMIT, c);
    if key in Contents(s) {
      var es := LeafOf(s, key).es;
      var e := es[Pos(es, key)];
      assert e in es;
      LookupInLeaf(t, e, s.height, 0, KEY_LIMIT, c);
    }
  }

  lemma {:induction false} LeafInRange(t: Tree, key: Key, h: nat, lo: int, hi: int, c: Occ) returns (a: int, b: int)
    requires WFNode(t, h, lo, hi, c) && lo <= key < hi
    ensures LeafFor(t, key).TLeaf? && EntriesIn(LeafFor(t, key).es, a, b) && a <= key < b
    ensures |LeafFor(t, key).es| <= c.fanout && (h == 1 || |LeafFor(t, key).es| >= c.leafMin)
    decreases t
  {
    a, b := lo, hi;
    if t.TNode? {
      RouteRange(t.keys, t.kids, key, h - 1, lo, hi, c);
      var j := Route(t.keys, key);
      WFKid(t.keys, t.kids, j, h - 1, lo, hi, c);
      a, b := LeafInRange(t.kids[j], key, h - 1, LoAt(t.keys, lo, j), HiAt(t.keys, hi, j), c);
    }
  }

  // One accepted leaf write, seen from the whole state.
  lemma LeafWriteCorrect(s: State, lm: nat, key: Key, es: seq<Entry>, cut: seq<Entry>, put: seq<Entry>)
    requires ValidWith(s, lm) && Valid(s) && s.height > 0 && LeafOf(s, key).TLeaf?
    requires Fits(LeafOf(s, key).es, es, key) && Edited(LeafOf(s, key).es, es, cut, put)
    requires |es| <= s.fanout && (|es| >= lm || s.height == 1)
    ensures var x := LeafOf(s, key).idx;
            && x in s.nodes && s.nodes[x].Leaf?
            && var s' := s.Set(x, Leaf(es, s.nodes[x].next));
            && ValidWith(s', lm) && Valid(s')
            && TreeOf(s') == SetLeaf(TreeOf(s), key, es)
            && Edited(StateEntries(s), StateEntries(s'), cut, put)
  {
    var t :| Represents(s, t, lm);
    TreeOfIs(s, t, lm);
    LeafWritten(s, t, lm, key, es, cut, put);
    var x := LeafOf(s, key).idx;
    TreeOfIs(s.Set(x, Leaf(es, s.nodes[x].next)), SetLeaf(t, key, es), lm);
  }

  lemma InsertedLength(es: seq<Entry>, e: Entry)
    ensures |Inserted(es, e)| == |es| + 1
  {
  }

  lemma RemovedLength(es: seq<Entry>, key: Key)
    requires Holds(es, key)
    ensures |Removed(es, key)| + 1 == |es|
  {
  }

  // InsertFast: accepted exactly on the search path of an absent key whose leaf has room.
  lemma InsertFastCorrect(s: State, lm: nat, e: Entry, path: seq<nat>)
    requires ValidWith(s, lm) && Valid(s) && AllShaped(s.nodes)
    ensures InsertFast(s, e, path).Ok? <==>
            s.height > 0 && path == SearchPath(s, e.key) && LeafOf(s, e.key).TLeaf?
            && |LeafOf(s, e.key).es| < s.fanout && e.key !in Contents(s)
    ensures InsertFast(s, e, path).Ok? ==>
            var s' := InsertFast(s, e, path).value;
            && ValidWith(s', lm) && Valid(s')
            && Edited(StateEntries(s), StateEntries(s'), [], [e])
            && Contents(s') == Contents(s)[e.key := e.val]
  {
    if s.height == 0 {
      NoPathInEmptyTree(s, path, e.key);
    } else {
      PathSound(s, path, e.key);
      LeafSorted(s, e.key);
      if InsertFast(s, e, path).Ok? {
        InsertFastEffect(s, lm, e, path);
      }
    }
    hide Contents, StateEntries, LeafOf, SearchPath, Holds, FastLeaf, ValidWith;
  }

  lemma InsertFastEffect(s: State, lm: nat, e: Entry, path: seq<nat>)
    requires ValidWith(s, lm) && Valid(s) && AllShaped(s.nodes) && s.height > 0
    requires LeafOf(s, e.key).TLeaf? && FastLeaf(s, path, e.key) == Ok(LeafOf(s, e.key).idx)
    requires LeafOf(s, e.key).idx in s.nodes && s.nodes[LeafOf(s, e.key).idx].Leaf? && s.nodes[LeafOf(s, e.key).idx].es == LeafOf(s, e.key).es
    requires InsertFast(s, e, path).Ok?
    ensures var s' := InsertFast(s, e, path).value;
            && ValidWith(s', lm) && Valid(s')
            && TreeOf(s') == SetLeaf(TreeOf(s), e.key, Inserted(LeafOf(s, e.key).es, e))
            && Edited(StateEntries(s), StateEntries(s'), [], [e])
            && Contents(s') == Contents(s)[e.key := e.val]
  {
    hide Valid, Holds, FastLeaf, ValidWith, Inserted, Fits, Edited;
    var es := LeafOf(s, e.key).es;
    var es' := Inserted(es, e);
    InsertFits(es, e);
    InsertedLength(es, e);
    LeafSpan(s, lm, e.key);
    InsertEdits(es, e);
    LeafWriteCorrect(s, lm, e.key, es', [], [e]);
    var s' := InsertFast(s, e, path).value;
    StateSorted(s);
    StateSorted(s');
    hide EntriesIn;
    InsertedMap(StateEntries(s), StateEntries(s'), e);
  }

  lemma InsertEdits(es: seq<Entry>, e: Entry)
    ensures Edited(es, Inserted(es, e), [], [e])
  {
    assert EditAt(es, Inserted(es, e), [], [e], Pos(es, e.key));
  }

  lemma LeafSpan(s: State, lm: nat, key: Key)
    requires ValidWith(s, lm) && Valid(s) && s.height > 0
    ensures LeafOf(s, key).TLeaf? && (s.height == 1 || |LeafOf(s, key).es| >= lm)
  {
    var t :| Represents(s, t, lm);
    TreeOfIs(s, t, lm);
    var a, b := LeafInRange(t, key, s.height, 0, KEY_LIMIT, Occ(s.fanout, lm));
  }

  // UpdateFast: accepted exactly on the search path of a present key.
  lemma UpdateFastCorrect(s: State, lm: nat, e: Entry, path: seq<nat>)
    requires ValidWith(s, lm) && Valid(s) && AllShaped(s.nodes)
    ensures UpdateFast(s, e, path).Ok? <==> s.height > 0 && path == SearchPath(s, e.key) && e.key in Contents(s)
    ensures UpdateFast(s, e, path).Ok? ==>
            var s' := UpdateFast(s, e, path).value;
            && ValidWith(s', lm) && Valid(s')
            && Edited(StateEntries(s), StateEntries(s'), [Entry(e.key, Contents(s)[e.key])], [e])
            && Contents(s') == Contents(s)[e.key := e.val]
  {
    if s.height == 0 {
      NoPathInEmptyTree(s, path, e.key);
    } else {
      PathSound(s, path, e.key);
      LeafSorted(s, e.key);
      if UpdateFast(s, e, path).Ok? {
        UpdateFastEffect(s, lm, e, path);
      }
    }
    hide Contents, StateEntries, LeafOf, SearchPath, Holds, FastLeaf, ValidWith;
  }

  lemma UpdateFastEffect(s: State, lm: nat, e: Entry, path: seq<nat>)
    requires ValidWith(s, lm) && Valid(s) && AllShaped(s.nodes) && s.height > 0 && e.key in Contents(s)
    requires LeafOf(s, e.key).TLeaf? && FastLeaf(s, path, e.key) == Ok(LeafOf(s, e.key).idx)
    requires LeafOf(s, e.key).idx in s.nodes && s.nodes[LeafOf(s, e.key).idx].Leaf? && s.nodes[LeafOf(s, e.key).idx].es == LeafOf(s, e.key).es
    requires UpdateFast(s, e, path).Ok?
    ensures var s' := UpdateFast(s, e, path).value;
            && ValidWith(s', lm) && Valid(s')
            && Edited(StateEntries(s), StateEntries(s'), [Entry(e.key, Contents(s)[e.key])], [e])
            && Contents(s') == Contents(s)[e.key := e.val]
  {
    hide Valid, Holds, FastLeaf, ValidWith, Fits, Edited;
    var es := LeafOf(s, e.key).es;
    LeafSorted(s, e.key);
    UpdateFits(es, e);
    LeafSpan(s, lm, e.key);
    var e0 := Entry(e.key, Contents(s)[e.key]);
    LeafWriteCorrect(s, lm, e.key, Updated(es, e), [e0], [e]);
    var s' := UpdateFast(s, e, path).value;
    StateSorted(s);
    StateSorted(s');
    hide EntriesIn, Updated;
    UpdatedMap(StateEntries(s), StateEntries(s'), e0, e);
  }

  // DeleteFast: accepted exactly on the search path; a key that is not there is left alone.
  lemma DeleteFastCorrect(s: State, key: Key, path: seq<nat>)
    requires Valid(s) && AllShaped(s.nodes)
    ensures DeleteFast(s, key, path).Ok? <==> s.height > 0 && path == SearchPath(s, key)
    ensures DeleteFast(s, key, path).Ok? ==>
            var (s', found) := DeleteFast(s, key, path).value;
            && Valid(s')
            && (key !in Contents(s) ==> s' == s && found == None)
            && (key in Contents(s) ==>
                  && found == Some(Contents(s)[key])
                  && Edited(StateEntries(s), StateEntries(s'), [Entry(key, Contents(s)[key])], [])
                  && Contents(s') == Contents(s) - {key})
  {
    if s.height == 0 {
      NoPathInEmptyTree(s, path, key);
    } else {
      PathSound(s, path, key);
      LeafSorted(s, key);
      if DeleteFast(s, key, path).Ok? && key in Contents(s) {
        DeleteFastEffect(s, key, path);
      }
    }
    hide Contents, StateEntries, LeafOf, SearchPath, Holds, FastLeaf, Valid, Edited;
  }

  lemma DeleteFastEffect(s: State, key: Key, path: seq<nat>)
    requires Valid(s) && AllShaped(s.nodes) && s.height > 0 && key in Contents(s)
    requires LeafOf(s, key).TLeaf? && FastLeaf(s, path, key) == Ok(LeafOf(s, key).idx)
    requires LeafOf(s, key).idx in s.nodes && s.nodes[LeafOf(s, key).idx].Leaf? && s.nodes[LeafOf(s, key).idx].es == LeafOf(s, key).es
    requires DeleteFast(s, key, path).Ok?
    ensures var (s', found) := DeleteFast(s, key, path).value;
            && Valid(s') && found == Some(Contents(s)[key])
            && Edited(StateEntries(s), StateEntries(s'), [Entry(key, Contents(s)[key])], [])
            && Contents(s') == Contents(s) - {key}
  {
    hide Holds, FastLeaf, Fits, Edited;
    var es := LeafOf(s, key).es;
    LeafSorted(s, key);
    RemoveFits(es, key);
    RemoveEdits(es, key);
    var e0 := Entry(key, Contents(s)[key]);
    LeafWriteCorrect(s, 0, key, Removed(es, key), [e0], []);
    var s' := DeleteFast(s, key, path).value.0;
    StateSorted(s);
    StateSorted(s');
    hide EntriesIn, Removed, Valid;
    RemovedMap(StateEntries(s), StateEntries(s'), e0);
  }

  lemma RemoveEdits(es: seq<Entry>, key: Key)
    requires Holds(es, key)
    ensures Edited(es, Removed(es, key), [es[Pos(es, key)]], []) && |Removed(es, key)| <= |es|
  {
    var p := Pos(es, key);
    assert es[p..p + 1] == [es[p]];
    assert EditAt(es, Removed(es, key), [es[p]], [], p);
  }

  // Find is map lookup.
  lemma FindCorrect(s: State, key: Key, path: seq<nat>)
    requires Valid(s) && AllShaped(s.nodes)
    ensures Find(s, key, path).Ok? <==> s.height == 0 || path == SearchPath(s, key)
    ensures Find(s, key, path).Ok? ==>
            Find(s, key, path).value == if key in Contents(s) then Some(Contents(s)[key]) else None
  {
    if s.height > 0 {
      PathSound(s, path, key);
      LeafSorted(s, key);
    }
    hide Holds, Pos, LeafOf, Descend, Represents;
  }
}
