// The hot path and Find as the program runs them, level by level on the accounts.
module HotProgram {
  import opened Base
  import opened NodeViews
  import opened Shapes
  import opened Engine
  import opened Represent
  import opened NodeOps
  import opened Accounts
  import opened Tidy

  // The accounts are in order, one by one.
  ghost predicate Sound(t: Torna)
    reads t, t.nodes.Values, t.Footprint()
  {
    t.Wf() && TidyState(t.Abs()) && AllShaped(t.Abs().nodes)
  }

  // Reading one account.
  lemma Look(t: Torna, x: nat)
    requires t.Wf() && x in t.Abs().nodes
    ensures x in t.nodes && t.nodes[x].Valid() && t.nodes[x].View() == t.Abs().nodes[x] && t.nodes[x].fanout == t.fanout
    ensures t.nodes[x].isLeaf == t.Abs().nodes[x].Leaf? && t.nodes[x].keyCount == Count(t.Abs().nodes[x])
    ensures Shaped(t.Abs().nodes[x])
    ensures t.nodes[x].isLeaf ==> t.nodes[x].Entries() == t.Abs().nodes[x].es && t.nodes[x].next == t.Abs().nodes[x].next
    ensures !t.nodes[x].isLeaf ==> t.nodes[x].Keys() == t.Abs().nodes[x].keys && t.nodes[x].Kids() == t.Abs().nodes[x].kids
  {
    t.Live();
    assert x in t.Abs().nodes.Keys;
    t.Separate(x, {x});
    Fields(t.nodes[x]);
  }

  lemma LookTidy(t: Torna, x: nat)
    requires Sound(t) && x in t.Abs().nodes
    ensures TidyNode(t.Abs().nodes[x], t.fanout)
    ensures t.Abs().nodes[x].Leaf? ==> Ascending(KeysOf(t.Abs().nodes[x].es))
  {
    if t.Abs().nodes[x].Leaf? {
      EntriesAscend(t.Abs().nodes[x].es, 0, KEY_LIMIT);
    }
  }

  lemma Header(t: Torna)
    requires t.Wf()
    ensures var s := t.Abs();
            && s.fanout == t.fanout && s.root == t.root && s.height == t.height && s.leftmost == t.leftmost
            && s.rightmost == t.rightmost && s.epoch == t.epoch && s.highWater == t.highWater
  {
  }

  // The child a node routes `key` to.
  method RouteIn(t: Torna, x: nat, key: Key) returns (desc: nat)
    requires t.Wf() && x in t.Abs().nodes && t.Abs().nodes[x].Inner? && TidyNode(t.Abs().nodes[x], t.fanout)
    ensures t.Wf() && t.Footprint() == old(t.Footprint()) && t.Abs() == old(t.Abs())
    ensures Shaped(t.Abs().nodes[x]) && desc == t.Abs().nodes[x].kids[Route(t.Abs().nodes[x].keys, key)]
  {
    hide Torna.Wf, Torna.Abs, Node.View, Route;
    RouteIs(t.Abs().nodes[x], key);
    Look(t, x);
    var n := t.nodes[x];
    var pos := n.FindLowerBound(key);
    if pos < n.keyCount && n.keys[pos] == key {
      desc := n.kids[pos + 1];
    } else {
      desc := n.kids[pos];
    }
    t.Untouched();
  }

  lemma RouteIs(v: NodeView, key: Key)
    requires v.Inner?
    ensures var p := LowerBound(v.keys, key);
            Route(v.keys, key) == if p < |v.keys| && v.keys[p] == key then p + 1 else p
  {
  }

  // One level of the walk.
  lemma DescendLevel(s: State, path: seq<nat>, key: Key, lvl: nat, want: nat)
    requires lvl < |path| && AllShaped(s.nodes)
    ensures CheckNode(s, path[lvl], want).Some? ==> Descend(s, path, key, lvl, want) == Err(CheckNode(s, path[lvl], want).value)
    ensures CheckNode(s, path[lvl], want) == None ==>
            && path[lvl] in s.nodes
            && (s.nodes[path[lvl]].Leaf? != (lvl == |path| - 1) ==> Descend(s, path, key, lvl, want) == Err(BadPath))
            && (s.nodes[path[lvl]].Leaf? && lvl == |path| - 1 ==> Descend(s, path, key, lvl, want) == Ok(path[lvl]))
            && (s.nodes[path[lvl]].Inner? && lvl < |path| - 1 ==>
                  && Shaped(s.nodes[path[lvl]])
                  && Descend(s, path, key, lvl, want)
                     == Descend(s, path, key, lvl + 1, s.nodes[path[lvl]].kids[Route(s.nodes[path[lvl]].keys, key)]))
  {
  }

  method DescendTo(t: Torna, path: seq<nat>, key: Key) returns (r: Result<nat>)
    requires Sound(t) && |path| > 0
    ensures t.Wf() && t.Footprint() == old(t.Footprint()) && t.Abs() == old(t.Abs()) && r == Descend(t.Abs(), path, key, 0, t.root)
  {
    hide Torna.Wf, Torna.Abs, TidyState, AllShaped, TidyNode, Descend, CheckNode, Node.Valid, Node.View;
    ghost var s := t.Abs();
    var e := t.CheckAccount(path[0], t.root);
    DescendLevel(s, path, key, 0, t.root);
    if e.Some? {
      return Err(e.value);
    }
    var lvl := 0;
    ghost var want := t.root;
    while lvl < |path| - 1
      invariant 0 <= lvl < |path| && t.Wf() && t.Footprint() == old(t.Footprint()) && t.Abs() == s
      invariant CheckNode(s, path[lvl], want) == None
      invariant Descend(s, path, key, 0, t.root) == Descend(s, path, key, lvl, want)
    {
      DescendLevel(s, path, key, lvl, want);
      Look(t, path[lvl]);
      LookTidy(t, path[lvl]);
      if t.nodes[path[lvl]].isLeaf {
        return Err(BadPath);
      }
      var desc := RouteIn(t, path[lvl], key);
      e := t.CheckAccount(path[lvl + 1], desc);
      DescendLevel(s, path, key, lvl + 1, desc);
      if e.Some? {
        return Err(e.value);
      }
      want := desc;
      lvl := lvl + 1;
    }
    DescendLevel(s, path, key, lvl, want);
    Look(t, path[lvl]);
    if !t.nodes[path[lvl]].isLeaf {
      return Err(BadPath);
    }
    return Ok(path[lvl]);
  }

  method FindFastLeaf(t: Torna, path: seq<nat>, key: Key) returns (r: Result<nat>)
    requires Sound(t)
    ensures t.Wf() && t.Footprint() == old(t.Footprint()) && t.Abs() == old(t.Abs()) && r == FastLeaf(t.Abs(), path, key)
  {
    hide Torna.Wf, Torna.Abs, TidyState, AllShaped, Descend;
    Header(t);
    if |path| == 0 {
      return Err(TreeUninit);
    }
    if |path| != t.height {
      return Err(BadPath);
    }
    r := DescendTo(t, path, key);
  }

  // The outcome of an instruction that returns nothing: the new state, or the error.
  ghost predicate Outcome(spec: Result<State>, r: Option<Error>, s: State) {
    match spec
    case Ok(s') => r == None && s == s'
    case Err(e) => r == Some(e)
  }

  // What is known of a leaf that was found.
  lemma Found(t: Torna, path: seq<nat>, key: Key)
    requires Sound(t) && FastLeaf(t.Abs(), path, key).Ok?
    ensures var x := FastLeaf(t.Abs(), path, key).value;
            && x in t.Abs().nodes && t.Abs().nodes[x].Leaf? && x in t.nodes && t.nodes[x].keyCount == |t.Abs().nodes[x].es|
            && Ascending(KeysOf(t.Abs().nodes[x].es)) && |t.Abs().nodes[x].es| <= t.fanout
  {
    var x := FastLeaf(t.Abs(), path, key).value;
    LookTidy(t, x);
    Look(t, x);
  }

  method DoInsertFast(t: Torna, e: Entry, path: seq<nat>) returns (r: Option<Error>)
    requires Sound(t)
    modifies t.Footprint()
    ensures t.Wf() && t.Footprint() == old(t.Footprint())
    ensures Outcome(InsertFast(old(t.Abs()), e, path), r, t.Abs())
  {
    hide Torna.Wf, Torna.Abs, Torna.Footprint, Torna.Grown, FastLeaf, Inserted, Holds, TidyState, AllShaped, Ascending;
    Header(t);
    var leaf := FindFastLeaf(t, path, e.key);
    if leaf.Err? {
      return Some(leaf.error);
    }
    Found(t, path, e.key);
    if t.nodes[leaf.value].keyCount >= t.fanout {
      return Some(NeedSplitSlot);
    }
    var dup := t.LeafInsert(leaf.value, e);
    return if dup then Some(DuplicateKey) else None;
  }

  method DoUpdateFast(t: Torna, e: Entry, path: seq<nat>) returns (r: Option<Error>)
    requires Sound(t)
    modifies t.Footprint()
    ensures t.Wf() && t.Footprint() == old(t.Footprint())
    ensures Outcome(UpdateFast(old(t.Abs()), e, path), r, t.Abs())
  {
    hide Torna.Wf, Torna.Abs, Torna.Footprint, FastLeaf, Updated, Holds, TidyState, AllShaped, Ascending;
    var leaf := FindFastLeaf(t, path, e.key);
    if leaf.Err? {
      return Some(leaf.error);
    }
    Found(t, path, e.key);
    var found := t.LeafUpdate(leaf.value, e);
    return if found then None else Some(KeyNotFound);
  }

  // Deleting a key that is not there succeeds; the answer says what was removed.
  method DoDeleteFast(t: Torna, key: Key, path: seq<nat>) returns (r: Result<Option<Val>>)
    requires Sound(t)
    modifies t.Footprint()
    ensures t.Wf() && t.Footprint() == old(t.Footprint())
    ensures match DeleteFast(old(t.Abs()), key, path)
            case Ok(out) => r == Ok(out.1) && t.Abs() == out.0
            case Err(e) => r == Err(e)
  {
    hide Torna.Wf, Torna.Abs, Torna.Footprint, FastLeaf, Removed, ValueIn, TidyState, AllShaped, Ascending;
    var leaf := FindFastLeaf(t, path, key);
    if leaf.Err? {
      return Err(leaf.error);
    }
    Found(t, path, key);
    ValueThere(t.Abs().nodes[leaf.value].es, key);
    var out := t.LeafDelete(leaf.value, key);
    return Ok(out);
  }

  lemma ValueThere(es: seq<Entry>, key: Key)
    ensures ValueIn(es, key).Some? <==> Holds(es, key)
  {
  }

  method DoFind(t: Torna, key: Key, path: seq<nat>) returns (r: Result<Option<Val>>)
    requires Sound(t)
    ensures t.Wf() && t.Abs() == old(t.Abs())
    ensures r == Find(old(t.Abs()), key, path)
  {
    hide Torna.Wf, Torna.Abs, TidyState, AllShaped, Ascending, Descend, Node.Valid, Node.View, Pos, Holds;
    Header(t);
    if t.height == 0 {
      return Ok(None);
    }
    if |path| != t.height {
      return Err(BadPath);
    }
    var leaf := DescendTo(t, path, key);
    if leaf.Err? {
      return Err(leaf.error);
    }
    var v := ReadValue(t, leaf.value, key);
    return Ok(v);
  }

  // The value stored under `key` in one leaf.
  method ReadValue(t: Torna, x: nat, key: Key) returns (v: Option<Val>)
    requires Sound(t) && x in t.Abs().nodes && t.Abs().nodes[x].Leaf?
    ensures t.Wf() && t.Abs() == old(t.Abs())
    ensures v == ValueIn(old(t.Abs()).nodes[x].es, key)
  {
    LookTidy(t, x);
    Look(t, x);
    var n := t.nodes[x];
    EntriesZip(n);
    hide Torna.Wf, Torna.Abs, TidyState, AllShaped, Ascending, Node.View, Pos, Holds;
    var pos, found := n.Locate(key);
    if found {
      ZipAt(n.Keys(), n.Vals(), pos);
      v := Some(n.vals[pos]);
    } else {
      v := None;
    }
    t.Untouched();
  }
}
