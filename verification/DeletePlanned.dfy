// The siblings a client resolves before the instruction carry Delete through its whole cascade.
module DeletePlanned {
  import opened Base
  import opened NodeViews
  import opened Shapes
  import opened Engine
  import opened Represent
  import opened Search
  import opened Edits
  import opened InsertProof
  import opened InsertTheorem
  import opened DeleteProof
  import opened DeleteTheorem
  import opened MapModel
  import opened HotTheorems

  // The right neighbour of path[l] under its parent, or the left one if it is the last child.
  function SideFor(st: Store, path: seq<nat>, l: nat): nat
    requires 0 < l < |path|
  {
    if path[l - 1] in st && st[path[l - 1]].Inner? && IndexOf(st[path[l - 1]].kids, path[l]) < |st[path[l - 1]].keys| then 1 else 2
  }

  function SibFor(st: Store, path: seq<nat>, l: nat): nat
    requires 0 < l < |path|
  {
    if path[l - 1] in st && st[path[l - 1]].Inner? then
      var kids := st[path[l - 1]].kids;
      var our := IndexOf(kids, path[l]);
      if our + 1 < |kids| then kids[our + 1] else if 0 < our <= |kids| then kids[our - 1] else 0
    else 0
  }

  // The request of a client that has read state `s`.
  function PlannedDelete(st: Store, key: Key, path: seq<nat>): (rq: DeleteRq)
    requires |path| > 0
    ensures rq.key == key && rq.path == path && |rq.sides| == |path| && |rq.sibs| == |path| - 1
    ensures rq.sides[0] == 0 && forall l | 0 < l < |path| :: rq.sides[l] == SideFor(st, path, l) && rq.sibs[l - 1] == SibFor(st, path, l)
  {
    DeleteRq(key, path,
             seq(|path|, l requires 0 <= l < |path| => if l == 0 then 0 else SideFor(st, path, l)),
             seq(|path| - 1, l requires 0 <= l < |path| - 1 => SibFor(st, path, l + 1)))
  }

  // Every level but the root has a sibling, so the one of level l comes l - 1 places in.
  lemma {:induction false} OffsetIs(sides: seq<nat>, l: nat)
    requires 0 < |sides| && sides[0] == 0 && (forall i | 0 < i < |sides| :: sides[i] != 0) && l <= |sides|
    ensures SibOff(sides, l) == if l == 0 then 0 else l - 1
  {
    if l > 0 {
      OffsetIs(sides, l - 1);
    }
  }

  lemma PlannedOk(st: Store, key: Key, path: seq<nat>)
    requires |path| > 0
    ensures RqOk(PlannedDelete(st, key, path))
    ensures forall l | 0 < l < |path| :: SibOff(PlannedDelete(st, key, path).sides, l) == l - 1
  {
    var rq := PlannedDelete(st, key, path);
    OffsetIs(rq.sides, |rq.sides|);
    forall l | 0 < l < |path| ensures SibOff(rq.sides, l) == l - 1 {
      OffsetIs(rq.sides, l);
    }
  }

  // What was resolved for one level is a neighbour there.
  lemma SidePlanned(s: State, rq: DeleteRq, t: Tree, j: nat, lvl: nat, h: nat, lo: int, hi: int, c: Occ, nx: nat)
    requires Ready(s, t, h, lo, hi, c, nx) && t.TNode? && j <= |t.keys| && |t.keys| >= 1 && |t.kids| == |t.keys| + 1
    requires lvl + 1 < |rq.path| && rq.path[lvl] == t.idx && rq.path[lvl + 1] == t.kids[j].idx
    requires RqOk(rq) && SibOff(rq.sides, lvl + 1) == lvl && |rq.sibs| == |rq.path| - 1
    requires rq.sides[lvl + 1] == SideFor(s.nodes, rq.path, lvl + 1) && rq.sibs[lvl] == SibFor(s.nodes, rq.path, lvl + 1)
    ensures SideOk(rq, t, j, lvl + 1)
  {
    hide Ready, IdsOf, NoDup;
    ReadyNode(s, t, h, lo, hi, c, nx);
    IndexOfTop(t.kids, j);
  }

  lemma {:induction false} SidesPlanned(s: State, rq: DeleteRq, t: Tree, lvl: nat, h: nat, lo: int, hi: int, c: Occ, nx: nat)
    requires Ready(s, t, h, lo, hi, c, nx) && lo <= rq.key < hi && (t.TNode? ==> |t.keys| >= 1)
    requires lvl < |rq.path| && rq.path[lvl..] == PathIn(t, rq.key)
    requires RqOk(rq) && |rq.sibs| == |rq.path| - 1 && forall l | 0 < l < |rq.path| :: SibOff(rq.sides, l) == l - 1
    requires forall l | 0 < l < |rq.path| :: rq.sides[l] == SideFor(s.nodes, rq.path, l) && rq.sibs[l - 1] == SibFor(s.nodes, rq.path, l)
    ensures SidesGood(rq, t, lvl)
    decreases t
  {
    hide Ready, SideOk, SibOff, PathIn, SideFor, SibFor, HasKey, LeafIdsOf, FirstOr;
    if t.TNode? {
      var j := StepDown(s, rq.path, rq.key, lvl, t, h, lo, hi, c, nx);
      KeysBelow(s, t, j, h, lo, hi, c, nx);
      SidePlanned(s, rq, t, j, lvl, h, lo, hi, c, nx);
      SidesPlanned(s, rq, t.kids[j], lvl + 1, h - 1, LoAt(t.keys, lo, j), HiAt(t.keys, hi, j), c, FirstOr(LeafIdsOf(t.kids[j + 1..]), nx));
    }
  }

  lemma KeysBelow(s: State, t: Tree, j: nat, h: nat, lo: int, hi: int, c: Occ, nx: nat)
    requires Ready(s, t, h, lo, hi, c, nx) && t.TNode? && j <= |t.keys|
    ensures |t.kids| == |t.keys| + 1 && (t.kids[j].TNode? ==> |t.kids[j].keys| >= 1)
  {
    ReadyNode(s, t, h, lo, hi, c, nx);
    WFKid(t.keys, t.kids, j, h - 1, lo, hi, c);
  }

  // What every level of the path offers a planner on a valid state.
  ghost predicate HasSibling(st: Store, path: seq<nat>, l: nat)
    requires 0 < l < |path|
  {
    && path[l - 1] in st && st[path[l - 1]].Inner? && Shaped(st[path[l - 1]]) && |st[path[l - 1]].keys| >= 1
    && IndexOf(st[path[l - 1]].kids, path[l]) < |st[path[l - 1]].kids|
  }

  lemma {:induction false} SiblingsAhead(s: State, path: seq<nat>, key: Key, lvl: nat, t: Tree, h: nat, lo: int, hi: int, c: Occ, nx: nat)
    requires Ready(s, t, h, lo, hi, c, nx) && lo <= key < hi && (t.TNode? ==> |t.keys| >= 1)
    requires lvl < |path| && path[lvl..] == PathIn(t, key)
    ensures forall l | lvl < l < |path| :: HasSibling(s.nodes, path, l)
    decreases t
  {
    hide Ready, PathIn, LeafIdsOf, FirstOr, HasKey, IdsOf, NoDup;
    if t.TNode? {
      var j := StepDown(s, path, key, lvl, t, h, lo, hi, c, nx);
      KeysBelow(s, t, j, h, lo, hi, c, nx);
      ReadyNode(s, t, h, lo, hi, c, nx);
      IndexOfTop(t.kids, j);
      assert HasSibling(s.nodes, path, lvl + 1);
      SiblingsAhead(s, path, key, lvl + 1, t.kids[j], h - 1, LoAt(t.keys, lo, j), HiAt(t.keys, hi, j), c, FirstOr(LeafIdsOf(t.kids[j + 1..]), nx));
    } else {
      LeafPath(t, path, key, lvl);
    }
  }

  lemma LeafPath(t: Tree, path: seq<nat>, key: Key, lvl: nat)
    requires t.TLeaf? && lvl < |path| && path[lvl..] == PathIn(t, key)
    ensures lvl == |path| - 1
  {
    assert |path[lvl..]| == 1;
  }

  lemma SiblingsThere(s: State, key: Key)
    requires Valid(s) && s.height > 0
    ensures forall l | 0 < l < |SearchPath(s, key)| :: HasSibling(s.nodes, SearchPath(s, key), l)
  {
    var t := TreeOf(s);
    TopReady(s, t, 0);
    PathLength(t, key, s.height, 0, KEY_LIMIT, Occ(s.fanout, 0));
    var path := SearchPath(s, key);
    assert path[0..] == path;
    hide Ready, HasSibling, PathIn;
    SiblingsAhead(s, path, key, 0, t, s.height, 0, KEY_LIMIT, Occ(s.fanout, 0), 0);
  }

  // With the search path and the siblings resolved beforehand, Delete succeeds exactly when the
  // key is there, however far its cascade of borrows and merges goes.
  lemma DeletePlannedIff(s: State, key: Key)
    requires Valid(s) && AllShaped(s.nodes) && s.height > 0 && |SearchPath(s, key)| > 0
    ensures var rq := PlannedDelete(s.nodes, key, SearchPath(s, key));
            Delete(s, rq).Ok? <==> key in Contents(s)
  {
    var t := TreeOf(s);
    var path := SearchPath(s, key);
    var rq := PlannedDelete(s.nodes, key, path);
    PlannedOk(s.nodes, key, path);
    TopReady(s, t, 0);
    assert path[0..] == path;
    StateSorted(s);
    HasKeyLists(StateEntries(s), Contents(s), key);
    hide Ready, Represents, Contents, HasKey, SidesGood, Delete, PathIn, SideFor, SibFor, SibOff, EntriesIn, PlannedDelete;
    if Delete(s, rq).Ok? {
      DeleteCorrect(s, 0, rq);
    } else if key in Contents(s) {
      SidesPlanned(s, rq, t, 0, s.height, 0, KEY_LIMIT, Occ(s.fanout, 0), 0);
      var e := DeleteStep(s, t, 0, rq);
      assert false;
    }
  }
}
