// The client planner: it reads the accounts off-chain and resolves what an instruction needs.
// All reads of one call see the same state.
module Planner {
  import opened Base
  import opened NodeViews
  import opened Shapes
  import opened Engine
  import opened Represent
  import opened Search
  import opened MapModel
  import opened InsertPlanned
  import opened HotTheorems
  import opened NodeOps
  import opened Tidy
  import opened LeafChain
  import opened DeletePlanned
  import opened Scans
  import opened Structure
  import opened Runs
  import opened Histories

  // ---- the descent path ----

  method LowerBoundOf(keys: seq<Key>, key: Key) returns (lo: nat)
    requires Ascending(keys)
    ensures lo == LowerBound(keys, key) && lo <= |keys|
  {
    lo := 0;
    var hi := |keys|;
    while lo < hi
      invariant lo <= hi <= |keys|
      invariant forall i | 0 <= i < lo :: keys[i] < key
      invariant forall i | hi <= i < |keys| :: key <= keys[i]
    {
      var m := (lo + hi) / 2;
      if keys[m] < key {
        lo := m + 1;
      } else {
        hi := m;
      }
    }
    LowerBoundUnique(keys, key, lo);
  }

  // Subtree `t` is where the walk stands: what is left of the path leads through it.
  ghost predicate WalkAt(st: Store, t: Tree, h: nat, lo: int, hi: int, key: Key, fanout: nat) {
    Rep(st, t) && WFNode(t, h, lo, hi, Occ(fanout, 0)) && lo <= key < hi
  }

  lemma WalkDown(st: Store, t: Tree, h: nat, lo: int, hi: int, key: Key, fanout: nat) returns (k: Tree, lo': int, hi': int)
    requires WalkAt(st, t, h, lo, hi, key, fanout) && h > 1
    ensures t.TNode? && t.idx in st && st[t.idx].Inner? && Shaped(st[t.idx]) && Ascending(st[t.idx].keys)
    ensures WalkAt(st, k, h - 1, lo', hi', key, fanout) && k.idx == st[t.idx].kids[Route(st[t.idx].keys, key)]
    ensures PathIn(t, key) == [t.idx] + PathIn(k, key)
  {
    var c := Occ(fanout, 0);
    RouteRange(t.keys, t.kids, key, h - 1, lo, hi, c);
    WFKidsSorted(t.keys, t.kids, h - 1, lo, hi, c);
    var j := Route(t.keys, key);
    WFKid(t.keys, t.kids, j, h - 1, lo, hi, c);
    assert RepAll(st, t.kids);
    assert Rep(st, t.kids[j]);
    k, lo', hi' := t.kids[j], LoAt(t.keys, lo, j), HiAt(t.keys, hi, j);
  }

  lemma WalkEnds(st: Store, t: Tree, h: nat, lo: int, hi: int, key: Key, fanout: nat)
    requires WalkAt(st, t, h, lo, hi, key, fanout) && h == 1
    ensures PathIn(t, key) == [t.idx]
  {
  }

  lemma WalkStarts(s: State, key: Key)
    requires Valid(s) && s.height > 0
    ensures WalkAt(s.nodes, TreeOf(s), s.height, 0, KEY_LIMIT, key, s.fanout) && TreeOf(s).idx == s.root
  {
  }

  lemma SlotIsRoute(v: NodeView, key: Key)
    requires v.Inner? && Shaped(v)
    ensures var p := LowerBound(v.keys, key);
            Route(v.keys, key) == (if p < |v.keys| && v.keys[p] == key then p + 1 else p)
    ensures |v.kids| == |v.keys| + 1
  {
  }

  // The search path of `key`, or nothing if an account cannot be read.
  method Path(s: State, key: Key) returns (p: Option<seq<nat>>)
    requires Valid(s)
    ensures p == Some(SearchPath(s, key))
  {
    hide Valid, SearchPath, WalkAt, PathIn, Ascending, TreeOf, Route, LowerBound, Shaped;
    if s.height == 0 {
      NoPath(s, key);
      return Some([]);
    }
    ghost var t, lo, hi := TreeOf(s), 0, KEY_LIMIT;
    SearchPathIs(s, key);
    WalkStarts(s, key);
    var cur := s.root;
    var path := [cur];
    var lvl := 0;
    assert path[..0] + PathIn(t, key) == PathIn(t, key);
    while lvl < s.height - 1
      invariant 0 <= lvl < s.height && |path| == lvl + 1 && path[lvl] == cur == t.idx
      invariant WalkAt(s.nodes, t, s.height - lvl, lo, hi, key, s.fanout)
      invariant SearchPath(s, key) == path[..lvl] + PathIn(t, key)
    {
      ghost var k, lo', hi' := WalkDown(s.nodes, t, s.height - lvl, lo, hi, key, s.fanout);
      if cur !in s.nodes {
        return None;
      }
      var v := s.nodes[cur];
      var p0 := LowerBoundOf(v.keys, key);
      var slot := if p0 < |v.keys| && v.keys[p0] == key then p0 + 1 else p0;
      SlotIsRoute(v, key);
      cur := v.kids[slot];
      PathGrows(path, cur, PathIn(t, key), PathIn(k, key));
      path := path + [cur];
      t, lo, hi := k, lo', hi';
      lvl := lvl + 1;
    }
    WalkEnds(s.nodes, t, 1, lo, hi, key, s.fanout);
    assert path == path[..lvl] + [cur];
    return Some(path);
  }

  lemma SearchPathIs(s: State, key: Key)
    requires Valid(s) && s.height > 0
    ensures SearchPath(s, key) == PathIn(TreeOf(s), key)
  {
  }

  lemma PathGrows(path: seq<nat>, cur: nat, rest: seq<nat>, rest': seq<nat>)
    requires |path| > 0 && rest == [path[|path| - 1]] + rest'
    ensures path[..|path| - 1] + rest == (path + [cur])[..|path|] + rest'
  {
    assert path == path[..|path| - 1] + [path[|path| - 1]];
    assert (path + [cur])[..|path|] == path;
  }

  // ---- plans ----

  // Path and spares for a cold Insert: height + 2 of them.
  method InsertPlan(s: State, key: Key) returns (plan: Option<(seq<nat>, seq<nat>)>)
    requires Valid(s)
    ensures plan == Some((SearchPath(s, key), NextSpares(s.highWater, s.height + 2)))
  {
    var p := Path(s, key);
    if p == None {
      return None;
    }
    hide Valid, SearchPath;
    var n := s.height + 2;
    var spares := [];
    var i := 0;
    while i < n
      invariant 0 <= i <= n && |spares| == i
      invariant forall k | 0 <= k < i :: spares[k] == s.highWater + 1 + k
    {
      spares := spares + [s.highWater + 1 + i];
      i := i + 1;
    }
    assert spares == NextSpares(s.highWater, n);
    return Some((p.value, spares));
  }

  method FindKid(kids: seq<nat>, x: nat) returns (our: nat)
    ensures our == IndexOf(kids, x)
  {
    our := 0;
    while our < |kids|
      invariant 0 <= our <= |kids|
      invariant forall i | 0 <= i < our :: kids[i] != x
    {
      if kids[our] == x {
        FirstIndex(kids, x, our);
        return;
      }
      our := our + 1;
    }
    FirstIndex(kids, x, our);
  }

  // Path and siblings for a cold Delete: the right neighbour, or the left one of a last child.
  // Without a tree, or where the accounts do not fit together, there is no plan.
  method DeletePlan(s: State, key: Key) returns (plan: Option<DeleteRq>)
    requires Valid(s)
    ensures s.height == 0 ==> plan == None
    ensures s.height > 0 ==> |SearchPath(s, key)| > 0 && plan == Some(PlannedDelete(s.nodes, key, SearchPath(s, key)))
  {
    if s.height == 0 {
      return None;
    }
    var p := Path(s, key);
    if p == None {
      return None;
    }
    SiblingsThere(s, key);
    PathNotEmpty(s, key);
    hide Valid, SearchPath, SideFor, SibFor, HasSibling;
    var path := p.value;
    var height := |path|;
    var sides, sibs := [0], [];
    var l := 1;
    while l < height
      invariant 1 <= l <= height && |sides| == l && |sibs| == l - 1 && sides[0] == 0
      invariant forall k | 0 < k < l :: sides[k] == SideFor(s.nodes, path, k) && sibs[k - 1] == SibFor(s.nodes, path, k)
    {
      SiblingIs(s.nodes, path, l);
      if path[l - 1] !in s.nodes {
        return None;
      }
      var v := s.nodes[path[l - 1]];
      var our := FindKid(v.kids, path[l]);
      if our == |v.kids| {
        return None;
      }
      if our < |v.keys| {
        sides, sibs := sides + [1], sibs + [v.kids[our + 1]];
      } else if our > 0 {
        sides, sibs := sides + [2], sibs + [v.kids[our - 1]];
      } else {
        return None;
      }
      l := l + 1;
    }
    plan := Some(DeleteRq(key, path, sides, sibs));
    assert plan.value == PlannedDelete(s.nodes, key, path);
  }

  lemma PathNotEmpty(s: State, key: Key)
    requires Valid(s) && s.height > 0
    ensures |SearchPath(s, key)| == s.height
  {
    PathLength(TreeOf(s), key, s.height, 0, KEY_LIMIT, Occ(s.fanout, 0));
  }

  lemma SiblingIs(st: Store, path: seq<nat>, l: nat)
    requires 0 < l < |path| && HasSibling(st, path, l)
    ensures path[l - 1] in st && st[path[l - 1]].Inner? && Shaped(st[path[l - 1]])
    ensures var v := st[path[l - 1]];
            var our := IndexOf(v.kids, path[l]);
            && our < |v.kids| && (our < |v.keys| || our > 0)
            && SideFor(st, path, l) == (if our < |v.keys| then 1 else 2)
            && SibFor(st, path, l) == (if our < |v.keys| then v.kids[our + 1] else v.kids[our - 1])
  {
  }

  // ---- reads ----

  lemma GatheredStep(s: State, ids: seq<nat>, p: nat)
    requires Linked(s, ids) && p < |ids|
    ensures ids[p] in s.nodes && s.nodes[ids[p]].Leaf? && ids[p] != 0
    ensures s.nodes[ids[p]].next == (if p + 1 < |ids| then ids[p + 1] else 0)
    ensures Gathered(s.nodes, ids[..p + 1]) == Gathered(s.nodes, ids[..p]) + s.nodes[ids[p]].es
  {
    LinkedAt(s, ids, p);
    GatheredSnoc(s.nodes, ids, 0, p + 1);
    assert ids[0..p + 1] == ids[..p + 1] && ids[0..p] == ids[..p];
  }

  lemma ScanStarts(s: State)
    requires Valid(s)
    ensures Linked(s, Leaves(s)) && StateEntries(s) == Gathered(s.nodes, Leaves(s))
    ensures s.leftmost == (if |Leaves(s)| > 0 then Leaves(s)[0] else 0)
    ensures Leaves(s)[..0] == [] && Gathered(s.nodes, []) == []
  {
    LeavesChain(s);
    hide Valid, Leaves, StateEntries, Distinct, LeafTo;
    IsLinked(s, Leaves(s));
  }

  lemma FirstJoin(a: seq<Entry>, b: seq<Entry>, max: nat)
    ensures First(a + b, max) == if |a| >= max then First(a, max) else a + First(b, max - |a|)
  {
    if |a| < max && max < |a| + |b| {
      assert (a + b)[..max] == a + b[..max - |a|];
    } else if max <= |a| {
      assert max < |a + b| ==> (a + b)[..max] == a[..max];
    }
  }

  // The first `max` entries in key order, by following the chain from leftmost.
  method Scan(s: State, max: nat) returns (out: seq<Entry>)
    requires Valid(s)
    ensures out == First(StateEntries(s), max)
  {
    hide Valid, Leaves, StateEntries, Gathered, Linked, First;
    out := [];
    ghost var ids := Leaves(s);
    ScanStarts(s);
    if s.height == 0 {
      NothingThere(s);
      FirstNone(max);
      return;
    }
    var idx := s.leftmost;
    ghost var p := 0;
    FirstNone(max);
    while idx != 0 && |out| < max
      invariant p <= |ids| && idx == (if p < |ids| then ids[p] else 0)
      invariant out == First(Gathered(s.nodes, ids[..p]), max)
      decreases |ids| - p
    {
      GatheredStep(s, ids, p);
      if idx !in s.nodes {
        break;
      }
      ghost var all := Gathered(s.nodes, ids[..p]);
      FirstShort(all, max);
      var es := s.nodes[idx].es;
      var i := 0;
      while i < |es| && |out| < max
        invariant 0 <= i <= |es| && |out| <= max && out == all + es[..i]
      {
        out := out + [es[i]];
        i := i + 1;
      }
      FirstTaken(all, es, i, max);
      idx := s.nodes[idx].next;
      p := p + 1;
    }
    if p < |ids| {
      LinkedAt(s, ids, p);
    }
    ScanEnds(s, ids, p, max);
  }

  lemma NothingThere(s: State)
    requires Valid(s) && s.height == 0
    ensures StateEntries(s) == [] && Leaves(s) == []
  {
  }

  lemma FirstNone(max: nat)
    ensures First<Entry>([], max) == []
  {
  }

  lemma FirstShort(a: seq<Entry>, max: nat)
    requires |First(a, max)| < max
    ensures First(a, max) == a
  {
  }

  lemma FirstTaken(a: seq<Entry>, es: seq<Entry>, i: nat, max: nat)
    requires i <= |es| && |a| + i <= max && (i == |es| || |a| + i == max)
    ensures First(a + es, max) == a + es[..i]
  {
    FirstJoin(a, es, max);
    if |a| == max {
      assert a + es[..i] == a && First(a, max) == a;
    }
  }

  lemma ScanEnds(s: State, ids: seq<nat>, p: nat, max: nat)
    requires p <= |ids| && (p == |ids| || |First(Gathered(s.nodes, ids[..p]), max)| >= max)
    ensures First(Gathered(s.nodes, ids[..p]), max) == First(Gathered(s.nodes, ids), max)
  {
    GatheredParts(s.nodes, ids, p, |ids|);
    NothingGathered(s.nodes, ids[|ids|..]);
    FirstJoin(Gathered(s.nodes, ids[..p]), Gathered(s.nodes, ids[p..|ids|]), max);
    if p == |ids| {
      assert ids[..p] == ids;
    }
  }

  // The smallest entry.
  method Best(s: State) returns (e: Option<Entry>)
    requires Valid(s)
    ensures e == if |StateEntries(s)| > 0 then Some(StateEntries(s)[0]) else None
  {
    var out := Scan(s, 1);
    e := if |out| > 0 then Some(out[0]) else None;
  }

  // The value stored at `key`.
  method Get(s: State, key: Key) returns (v: Option<Val>)
    requires Valid(s)
    ensures v == if key in Contents(s) then Some(Contents(s)[key]) else None
  {
    if s.height == 0 {
      return None;
    }
    ValidTidy(s);
    PathNotEmpty(s, key);
    PathSound(s, SearchPath(s, key), key);
    LeafSorted(s, key);
    var p := Path(s, key);
    if p == None {
      return None;
    }
    hide Valid, SearchPath, LeafOf, Contents, AllShaped, Holds, FastLeaf;
    var leaf := p.value[|p.value| - 1];
    LeafEnds(s, key, p.value);
    if leaf !in s.nodes {
      return None;
    }
    var es := s.nodes[leaf].es;
    var pos := LowerBoundOf(KeysOf(es), key);
    FoundAt(es, key);
    if pos < |es| && es[pos].key == key {
      v := Some(es[pos].val);
    } else {
      v := None;
    }
  }

  lemma FoundAt(es: seq<Entry>, key: Key)
    ensures Holds(es, key) <==> (LowerBound(KeysOf(es), key) < |es| && es[LowerBound(KeysOf(es), key)].key == key)
    ensures Pos(es, key) == LowerBound(KeysOf(es), key)
  {
  }

  lemma LeafEnds(s: State, key: Key, path: seq<nat>)
    requires Valid(s) && s.height > 0 && path == SearchPath(s, key) && |path| > 0 && TidyState(s)
    ensures path[|path| - 1] == LeafOf(s, key).idx
    ensures var x := LeafOf(s, key).idx; x in s.nodes && s.nodes[x].Leaf? ==> Ascending(KeysOf(s.nodes[x].es))
  {
    PathLength(TreeOf(s), key, s.height, 0, KEY_LIMIT, Occ(s.fanout, 0));
    var x := LeafOf(s, key).idx;
    if x in s.nodes && s.nodes[x].Leaf? {
      assert TidyNode(s.nodes[x], s.fanout);
      EntriesAscend(s.nodes[x].es, 0, KEY_LIMIT);
    }
  }

  // The leaf accounts a forward scan of `max` entries goes through, and no more.
  method ScanLeaves(s: State, max: nat) returns (out: seq<nat>)
    requires Valid(s)
    ensures out <= Leaves(s)
    ensures out == Leaves(s) || |Gathered(s.nodes, out)| >= max
    ensures |out| > 0 ==> |Gathered(s.nodes, out[..|out| - 1])| < max
  {
    hide Valid, Leaves, StateEntries, Gathered, Linked;
    out := [];
    ghost var ids := Leaves(s);
    ScanStarts(s);
    if s.height == 0 {
      NothingThere(s);
      return;
    }
    var idx, seen := s.leftmost, 0;
    while idx != 0 && seen < max
      invariant |out| <= |ids| && out == ids[..|out|] && idx == (if |out| < |ids| then ids[|out|] else 0)
      invariant seen == |Gathered(s.nodes, out)|
      invariant |out| > 0 ==> |Gathered(s.nodes, out[..|out| - 1])| < max
      decreases |ids| - |out|
    {
      GatheredStep(s, ids, |out|);
      assert (out + [idx])[..|out|] == out && ids[..|out| + 1] == out + [idx];
      out := out + [idx];
      if idx !in s.nodes {
        break;
      }
      seen := seen + |s.nodes[idx].es|;
      idx := s.nodes[idx].next;
    }
    if |out| < |ids| {
      LinkedAt(s, ids, |out|);
    } else {
      assert out == ids;
    }
  }

  // ---- retry ----

  datatype Attempt<T, E> = Done(value: T) | Stale | Fatal(error: E)

  // Re-resolve and resubmit while the answer is that the path went stale.
  method Retry<T, E>(attempts: nat, f: nat -> Attempt<T, E>) returns (r: Option<Attempt<T, E>>)
    ensures r == None <==> forall i | 0 <= i < attempts :: f(i).Stale?
    ensures r.Some? ==> exists i :: 0 <= i < attempts && f(i) == r.value && !r.value.Stale? && forall j | 0 <= j < i :: f(j).Stale?
  {
    var i := 0;
    while i < attempts
      invariant 0 <= i <= attempts
      invariant forall j | 0 <= j < i :: f(j).Stale?
    {
      var a := f(i);
      match a {
        case Done(_) => return Some(a);
        case Fatal(_) => return Some(a);
        case Stale =>
      }
      i := i + 1;
    }
    return None;
  }

  // ---- plans and the engine ----

  // The planned Insert succeeds exactly when the key is absent and path and spares fit into the
  // 40 accounts of an instruction.
  lemma InsertPlanLands(s: State, e: Entry)
    requires Valid(s) && AllShaped(s.nodes)
    ensures Apply(s, IxInsert(e, SearchPath(s, e.key), NextSpares(s.highWater, s.height + 2))).Ok? <==>
            s.height <= 17 && e.key !in Contents(s)
  {
    hide Valid, SearchPath, Contents, Insert, AllShaped;
    InsertPlannedIff(s, e, NextSpares(s.highWater, s.height + 2));
    if s.height > 0 {
      PathNotEmpty(s, e.key);
    } else {
      NoPath(s, e.key);
    }
  }

  lemma NoPath(s: State, key: Key)
    requires Valid(s) && s.height == 0
    ensures SearchPath(s, key) == []
  {
  }

  // And the planned Delete exactly when it is present and path and siblings fit.
  lemma DeletePlanLands(s: State, key: Key)
    requires Valid(s) && AllShaped(s.nodes) && s.height > 0 && |SearchPath(s, key)| > 0
    ensures Apply(s, IxDelete(PlannedDelete(s.nodes, key, SearchPath(s, key)))).Ok? <==> s.height <= 19 && key in Contents(s)
  {
    hide Valid, SearchPath, Contents, Delete, AllShaped, SideFor, SibFor;
    DeletePlannedIff(s, key);
    PathNotEmpty(s, key);
  }

  // A plan resolved before other instructions landed is the plan that would be resolved now, as
  // long as the structure epoch is the same.
  lemma StalePlanHolds(s: State, ixs: seq<Ix>, key: Key)
    requires Valid(s) && Run(s, ixs).epoch == s.epoch
    ensures var s' := Run(s, ixs);
            && SearchPath(s', key) == SearchPath(s, key) && s'.height == s.height
            && NextSpares(s'.highWater, s'.height + 2) == NextSpares(s.highWater, s.height + 2)
            && (|SearchPath(s, key)| > 0 ==>
                PlannedDelete(s'.nodes, key, SearchPath(s', key)) == PlannedDelete(s.nodes, key, SearchPath(s, key)))
  {
    hide Run, SearchPath, Valid, PlannedDelete, SameNodes;
    SameEpoch(s, ixs);
    if |SearchPath(s, key)| > 0 {
      PlannedSame(s.nodes, Run(s, ixs).nodes, key, SearchPath(s, key));
    }
  }

  lemma PlannedSame(a: Store, b: Store, key: Key, path: seq<nat>)
    requires SameNodes(a, b) && |path| > 0
    ensures PlannedDelete(b, key, path) == PlannedDelete(a, key, path)
  {
    hide SideFor, SibFor, SameNodes;
    forall l | 0 < l < |path| ensures SideFor(b, path, l) == SideFor(a, path, l) && SibFor(b, path, l) == SibFor(a, path, l) {
      SidesSame(a, b, path, l);
    }
  }

  // So an Insert planned then succeeds now exactly when its key is absent now,
  lemma StaleInsertLands(s: State, ixs: seq<Ix>, e: Entry)
    requires Valid(s) && Run(s, ixs).epoch == s.epoch
    ensures var s' := Run(s, ixs);
            && AllShaped(s'.nodes)
            && (Apply(s', IxInsert(e, SearchPath(s, e.key), NextSpares(s.highWater, s.height + 2))).Ok? <==>
                s.height <= 17 && e.key !in Contents(s'))
  {
    hide Valid, SearchPath, Contents, Apply, AllShaped, Run, NextSpares;
    StalePlanHolds(s, ixs, e.key);
    ValidShaped(Run(s, ixs));
    InsertPlanLands(Run(s, ixs), e);
  }

  // and a Delete exactly when its key is present now.
  lemma StaleDeleteLands(s: State, ixs: seq<Ix>, key: Key)
    requires Valid(s) && s.height > 0 && |SearchPath(s, key)| > 0 && Run(s, ixs).epoch == s.epoch
    ensures var s' := Run(s, ixs);
            && AllShaped(s'.nodes)
            && (Apply(s', IxDelete(PlannedDelete(s.nodes, key, SearchPath(s, key)))).Ok? <==>
                s.height <= 19 && key in Contents(s'))
  {
    hide Valid, SearchPath, Contents, Apply, AllShaped, Run, PlannedDelete;
    StalePlanHolds(s, ixs, key);
    ValidShaped(Run(s, ixs));
    DeletePlanLands(Run(s, ixs), key);
  }

  lemma SidesSame(a: Store, b: Store, path: seq<nat>, l: nat)
    requires SameNodes(a, b) && 0 < l < |path|
    ensures SideFor(b, path, l) == SideFor(a, path, l) && SibFor(b, path, l) == SibFor(a, path, l)
  {
    var x := path[l - 1];
    assert x in a.Keys <==> x in b.Keys;
    if x in a {
      assert SameNode(a[x], b[x]);
    }
  }
}
