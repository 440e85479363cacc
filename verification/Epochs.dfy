// When the structure epoch moves without the structure: exactly on a Delete that leaves its leaf
// enough entries. A borrow counts as structural here, because it moves a separator and with it
// the search paths of keys; KeepsNodesIff gives the condition for a reading that counts only
// nodes that come or go and a new root.
module Epochs {
  import opened Base
  import opened NodeViews
  import opened Engine
  import opened Represent
  import opened MapModel
  import opened DeleteProof
  import opened DeleteTheorem
  import opened DeleteSites
  import opened HotTheorems
  import opened Structure
  import opened LeafChain
  import opened Scans
  import opened Runs
  import opened Histories

  // The leaf a Delete takes its key from can spare it: it stays at or above the minimum, or it is
  // the root and does not become empty.
  predicate Spares(s: State, rq: DeleteRq) {
    |rq.path| > 0 && Count(s.At(rq.path[|rq.path| - 1])) > (if s.height == 1 then 1 else s.fanout / 2)
  }

  // The sibling supplied for the leaf has an entry to lend.
  predicate Lends(s: State, rq: DeleteRq) {
    && |rq.path| > 1 && |rq.sides| == |rq.path| && SibOff(rq.sides, |rq.path| - 1) < |rq.sibs|
    && Count(s.At(rq.sibs[SibOff(rq.sides, |rq.path| - 1)])) > s.fanout / 2
  }

  // ---- what is known of an accepted Delete ----

  lemma DeleteParts(s: State, rq: DeleteRq)
    requires AllShaped(s.nodes) && Delete(s, rq).Ok?
    ensures RqOk(rq) && |rq.path| == s.height > 0 && rq.path[0] == s.root && Descend(s, rq.path, rq.key, 0, s.root).Ok?
    ensures var x := rq.path[|rq.path| - 1]; x in s.nodes && s.nodes[x].Leaf?
    ensures DeleteUp(s, rq, 0).Ok? && Delete(s, rq).value == Collapse(DeleteUp(s, rq, 0).value.s, rq.path).Bumped()
  {
    hide AllShaped, DeleteUp, Collapse;
  }

  lemma {:induction false} LowerOk(s: State, rq: DeleteRq, l: nat, m: nat)
    requires RqOk(rq) && l <= m < |rq.path| && DeleteUp(s, rq, l).Ok?
    ensures DeleteUp(s, rq, m).Ok?
    decreases m - l
  {
    hide Fix;
    if l < m {
      LowerOk(s, rq, l + 1, m);
    }
  }

  // The leaf level takes the key out and nothing else.
  lemma LeafTaken(s: State, rq: DeleteRq)
    requires RqOk(rq) && |rq.path| > 0 && DeleteUp(s, rq, |rq.path| - 1).Ok?
    ensures var x := rq.path[|rq.path| - 1];
            && s.At(x).Leaf? && Holds(s.At(x).es, rq.key) && x in s.nodes
            && DeleteUp(s, rq, |rq.path| - 1).value == Fall(s.Set(x, Leaf(Removed(s.At(x).es, rq.key), s.At(x).next)), false)
            && |Removed(s.At(x).es, rq.key)| == |s.At(x).es| - 1
  {
  }

  // ---- what one repair does to the live accounts ----

  // A borrow keeps every account, moves an entry or child between the two, and leaves the parent
  // as many separators as before; a merge closes one of the two.
  ghost predicate Mended(d: State, f: Fall, node: nat, sib: nat, par: nat) {
    && node in d.nodes && sib in d.nodes && par in d.nodes
    && f.s.epoch == d.epoch
    && (f.stop ==>
          && f.s == d.(nodes := f.s.nodes) && f.s.nodes.Keys == d.nodes.Keys
          && (forall x | x in d.nodes && x !in {node, sib, par} :: f.s.nodes[x] == d.nodes[x])
          && (forall x | x in d.nodes :: f.s.nodes[x].Leaf? == d.nodes[x].Leaf? && (x == par ==> Count(f.s.nodes[x]) == Count(d.nodes[x])))
          && (d.nodes[node].Leaf? && d.nodes[sib].Leaf? ==>
                exists e :: e in d.nodes[sib].es && e in f.s.nodes[node].es))
    && (!f.stop ==>
          f.s.nodes.Keys == d.nodes.Keys - {node} || f.s.nodes.Keys == d.nodes.Keys - {sib})
  }

  lemma LentRight(d: State, l: nat, r: nat, par: nat, sep: nat)
    requires l in d.nodes && r in d.nodes && par in d.nodes && l != r && l != par && r != par
    requires d.nodes[l].Leaf? == d.nodes[r].Leaf? && d.nodes[par].Inner? && BorrowFromRight(d, l, r, par, sep).Ok?
    ensures Mended(d, Fall(BorrowFromRight(d, l, r, par, sep).value, true), l, r, par)
  {
    if d.nodes[l].Leaf? {
      assert d.nodes[r].es[0] in BorrowFromRight(d, l, r, par, sep).value.nodes[l].es;
    }
  }

  lemma LentLeft(d: State, l: nat, r: nat, par: nat, sep: nat)
    requires l in d.nodes && r in d.nodes && par in d.nodes && l != r && l != par && r != par
    requires d.nodes[l].Leaf? == d.nodes[r].Leaf? && d.nodes[par].Inner? && BorrowFromLeft(d, l, r, par, sep).Ok?
    ensures Mended(d, Fall(BorrowFromLeft(d, l, r, par, sep).value, true), r, l, par)
  {
    if d.nodes[l].Leaf? {
      var es := d.nodes[l].es;
      assert es[|es| - 1] in BorrowFromLeft(d, l, r, par, sep).value.nodes[r].es;
    }
  }

  lemma Joined(d: State, l: nat, r: nat, par: nat, sep: nat)
    requires l in d.nodes && r in d.nodes && par in d.nodes && l != r && l != par && r != par
    requires Merge(d, l, r, par, sep).Ok?
    ensures Mended(d, Fall(Merge(d, l, r, par, sep).value, false), l, r, par)
    ensures Mended(d, Fall(Merge(d, l, r, par, sep).value, false), r, l, par)
  {
    hide RemoveAt;
    assert Merge(d, l, r, par, sep).value.nodes.Keys == d.nodes.Keys - {r};
  }

  lemma FixMends(s: State, d: State, rq: DeleteRq, l: nat)
    requires RqOk(rq) && 0 < l < |rq.path| && RepairSite(s, d, rq.path[l], rq.path[l - 1]) && Fix(d, rq, l).Ok?
    ensures SibOff(rq.sides, l) < |rq.sibs|
    ensures var sib := rq.sibs[SibOff(rq.sides, l)];
            && Mended(d, Fix(d, rq, l).value, rq.path[l], sib, rq.path[l - 1])
            && sib in s.nodes && d.At(sib) == s.At(sib) && sib != rq.path[l]
            && d.At(sib).Leaf? == d.At(rq.path[l]).Leaf?
            && Fix(d, rq, l).value.stop == (Count(d.At(sib)) > d.Min())
  {
    hide Fix, SibOff, Mended, Repair, BorrowFromRight, BorrowFromLeft, Merge, IndexOf;
    var node, par := rq.path[l], rq.path[l - 1];
    var v := d.nodes[par];
    var our, right := IndexOf(v.kids, node), rq.sides[l] == 1;
    FixIs(d, rq, l);
    var sib := rq.sibs[SibOff(rq.sides, l)];
    CheckedIs(d, sib, v.kids[if right then our + 1 else our - 1]);
    assert Sibling(s, d, sib, node, par);
    RepairIs(d, node, sib, par, our, right);
    if Count(d.At(sib)) > d.Min() {
      if right {
        LentRight(d, node, sib, par, our);
      } else {
        LentLeft(d, sib, node, par, our - 1);
      }
    } else {
      if right {
        Joined(d, node, sib, par, our);
      } else {
        Joined(d, sib, node, par, our - 1);
      }
    }
  }

  // ---- the levels above ----

  // The request is on the search path of its key in a well-formed tree.
  ghost predicate OnPath(s: State, rq: DeleteRq) {
    && Valid(s) && AllShaped(s.nodes) && RqOk(rq) && |rq.path| == s.height > 0
    && Descend(s, rq.path, rq.key, 0, s.root).Ok?
  }

  lemma SiteThere(s: State, rq: DeleteRq, l: nat)
    requires OnPath(s, rq) && 0 < l < |rq.path| && DeleteUp(s, rq, l).Ok?
    ensures RepairSite(s, DeleteUp(s, rq, l).value.s, rq.path[l], rq.path[l - 1])
  {
    hide Valid, AllShaped, Descend, DeleteUp, RepairSite;
    SiteOfLevel(s, rq, l);
  }

  lemma LevelUp(s: State, rq: DeleteRq, l: nat)
    requires RqOk(rq) && l + 1 < |rq.path| && DeleteUp(s, rq, l).Ok?
    ensures DeleteUp(s, rq, l + 1).Ok?
    ensures var d := DeleteUp(s, rq, l + 1).value;
            if d.stop || Count(d.s.At(rq.path[l + 1])) >= d.s.Min() then DeleteUp(s, rq, l).value == Fall(d.s, true)
            else Fix(d.s, rq, l + 1).Ok? && DeleteUp(s, rq, l).value == Fix(d.s, rq, l + 1).value
  {
    hide Fix;
  }

  // Going up, no account comes back to life.
  lemma {:induction false} KeysFall(s: State, rq: DeleteRq, l: nat, m: nat)
    requires OnPath(s, rq) && l <= m < |rq.path| && DeleteUp(s, rq, l).Ok?
    ensures DeleteUp(s, rq, m).Ok? && DeleteUp(s, rq, l).value.s.nodes.Keys <= DeleteUp(s, rq, m).value.s.nodes.Keys
    ensures DeleteUp(s, rq, l).value.s.epoch == DeleteUp(s, rq, m).value.s.epoch
    decreases m - l
  {
    hide Valid, AllShaped, Descend, DeleteUp, RepairSite, Fix, SibOff;
    if l < m {
      LevelUp(s, rq, l);
      KeysFall(s, rq, l + 1, m);
      var d := DeleteUp(s, rq, l + 1).value;
      if !d.stop && Count(d.s.At(rq.path[l + 1])) < d.s.Min() {
        SiteThere(s, rq, l + 1);
        FixMends(s, d.s, rq, l + 1);
      }
    }
  }

  // A cascade that has stopped stays as it is.
  lemma {:induction false} StaysStopped(s: State, rq: DeleteRq, l: nat, m: nat)
    requires RqOk(rq) && l <= m < |rq.path| && DeleteUp(s, rq, l).Ok? && DeleteUp(s, rq, m).Ok? && DeleteUp(s, rq, m).value.stop
    ensures DeleteUp(s, rq, l).value == DeleteUp(s, rq, m).value
    decreases m - l
  {
    hide DeleteUp, Fix;
    if l < m {
      LevelUp(s, rq, l);
      StaysStopped(s, rq, l + 1, m);
    }
  }

  // ---- where an entry lives ----

  // If an entry is in different leaves of two states, their structures differ.
  lemma MovedEntry(a: State, b: State, x: nat, y: nat, e: Entry)
    requires Valid(a) && Valid(b) && x != y
    requires x in a.nodes && a.nodes[x].Leaf? && e in a.nodes[x].es
    requires y in b.nodes && b.nodes[y].Leaf? && e in b.nodes[y].es
    ensures !SameStructure(a, b)
  {
    hide Valid, SearchPath, SameNodes;
    EntryAtHome(a, x, e);
    EntryAtHome(b, y, e);
    if SameStructure(a, b) {
      SameSearch(a, b, e.key);
    }
  }

  // ---- a Delete whose leaf cannot spare the key ----

  ghost predicate SameLive(s: State, s': State) {
    s'.nodes.Keys == s.nodes.Keys && s'.root == s.root && s'.height == s.height
  }

  // The state the cascade leaves above the leaf level: either a borrow ended it, or an account is gone.
  lemma FirstRepair(s: State, rq: DeleteRq)
    requires OnPath(s, rq) && s.height > 1 && DeleteUp(s, rq, 0).Ok? && !Spares(s, rq)
    ensures Lends(s, rq) ==> Borrowed(s, rq, DeleteUp(s, rq, 0).value.s)
    ensures !Lends(s, rq) ==> exists r :: r in s.nodes && r !in DeleteUp(s, rq, 0).value.s.nodes
  {
    hide Valid, AllShaped, Descend, DeleteUp, RepairSite, Fix, SibOff, Holds, Removed, Mended;
    var last := |rq.path| - 1;
    var x := rq.path[last];
    KeysFall(s, rq, 0, last);
    KeysFall(s, rq, 0, last - 1);
    LeafTaken(s, rq);
    LevelUp(s, rq, last - 1);
    var d := DeleteUp(s, rq, last).value.s;
    SiteThere(s, rq, last);
    FixMends(s, d, rq, last);
    var f, sib := Fix(d, rq, last).value, rq.sibs[SibOff(rq.sides, last)];
    assert Lends(s, rq) == f.stop;
    if f.stop {
      StaysStopped(s, rq, 0, last - 1);
      BorrowIs(s, rq, Leaf(Removed(s.At(x).es, rq.key), s.At(x).next), d, f);
    } else {
      ClosedIs(d, f, x, sib, rq.path[last - 1]);
      assert d.nodes.Keys == s.nodes.Keys;
    }
  }

  // All accounts stand, the root keeps its separators, and an entry has changed leaves.
  ghost predicate Borrowed(s: State, rq: DeleteRq, s1: State) {
    && |rq.path| > 1 && rq.path[|rq.path| - 1] in s1.nodes
    && s1 == s.(nodes := s1.nodes) && s1.nodes.Keys == s.nodes.Keys
    && (s.root in s.nodes && s.nodes[s.root].Inner? ==> s1.At(s.root).Inner? && Count(s1.At(s.root)) == Count(s.At(s.root)))
    && exists y, e :: Moved(s, rq, s1, y, e)
  }

  ghost predicate Moved(s: State, rq: DeleteRq, s1: State, y: nat, e: Entry)
    requires |rq.path| > 0
  {
    var x := rq.path[|rq.path| - 1];
    && x != y && y in s.nodes && s.nodes[y].Leaf? && e in s.nodes[y].es
    && x in s1.nodes && s1.nodes[x].Leaf? && e in s1.nodes[x].es
  }

  lemma BorrowIs(s: State, rq: DeleteRq, v: NodeView, d: State, f: Fall)
    requires RqOk(rq) && |rq.path| > 1 && f.stop && SibOff(rq.sides, |rq.path| - 1) < |rq.sibs|
    requires var x, sib := rq.path[|rq.path| - 1], rq.sibs[SibOff(rq.sides, |rq.path| - 1)];
             && Mended(d, f, x, sib, rq.path[|rq.path| - 2])
             && x in s.nodes && s.nodes[x].Leaf? && sib in s.nodes && d.At(sib) == s.At(sib) && sib != x && d.At(sib).Leaf? == d.At(x).Leaf?
             && v.Leaf? && d == s.Set(x, v)
    ensures Borrowed(s, rq, f.s)
  {
    hide SibOff;
    var x, sib := rq.path[|rq.path| - 1], rq.sibs[SibOff(rq.sides, |rq.path| - 1)];
    var e :| e in d.nodes[sib].es && e in f.s.nodes[x].es;
    assert d.nodes.Keys == s.nodes.Keys;
    assert Moved(s, rq, f.s, sib, e);
  }

  lemma ClosedIs(d: State, f: Fall, node: nat, sib: nat, par: nat)
    requires Mended(d, f, node, sib, par) && !f.stop
    ensures exists r :: r in d.nodes && r !in f.s.nodes
  {
    if f.s.nodes.Keys == d.nodes.Keys - {node} {
      assert node !in f.s.nodes.Keys;
    } else {
      assert sib !in f.s.nodes.Keys;
    }
  }

  // ---- a Delete whose leaf can spare the key ----

  lemma {:induction false} QuietUp(s: State, rq: DeleteRq, lvl: nat)
    requires lvl < |rq.path| == |rq.sides| && SibOff(rq.sides, |rq.sides|) <= |rq.sibs|
    requires DeleteUp(s, rq, lvl).Ok?
    requires var v := s.At(rq.path[|rq.path| - 1]); v.Leaf? && |v.es| > s.Min()
    ensures var x := rq.path[|rq.path| - 1];
            Holds(s.At(x).es, rq.key) && DeleteUp(s, rq, lvl).value.s == s.Set(x, Leaf(Removed(s.At(x).es, rq.key), s.At(x).next))
    ensures lvl < |rq.path| - 1 ==> DeleteUp(s, rq, lvl).value.stop
    decreases |rq.path| - lvl
  {
    hide Holds;
    var x := rq.path[|rq.path| - 1];
    if lvl < |rq.path| - 1 {
      QuietUp(s, rq, lvl + 1);
      RemovedLength(s.At(x).es, rq.key);
    }
  }

  lemma RootHasKeys(s: State)
    requires Valid(s) && s.height > 1
    ensures s.root in s.nodes && s.nodes[s.root].Inner? && |s.nodes[s.root].keys| > 0
  {
    assert Represents(s, TreeOf(s), 0);
  }

  lemma SparedState(s: State, rq: DeleteRq)
    requires OnPath(s, rq) && DeleteUp(s, rq, 0).Ok? && Spares(s, rq)
    ensures var x := rq.path[|rq.path| - 1];
            && x in s.nodes && s.nodes[x].Leaf? && Holds(s.nodes[x].es, rq.key)
            && Collapse(DeleteUp(s, rq, 0).value.s, rq.path) == s.Set(x, Leaf(Removed(s.nodes[x].es, rq.key), s.nodes[x].next))
  {
    hide Valid, AllShaped, DeleteUp, Removed, Holds, Descend, SibOff;
    KeysFall(s, rq, 0, |rq.path| - 1);
    LeafTaken(s, rq);
    if s.height > 1 {
      QuietUp(s, rq, 0);
      RootHasKeys(s);
      RootOfPath(s, rq);
    }
  }

  lemma RootOfPath(s: State, rq: DeleteRq)
    requires OnPath(s, rq)
    ensures rq.path[0] == s.root
  {
    hide Valid, AllShaped;
  }

  // ---- the theorems ----

  lemma BumpedValid(s: State)
    requires Valid(s)
    ensures Valid(s.Bumped())
  {
    if s.height > 0 {
      assert Represents(s, TreeOf(s), 0);
      assert Represents(s.Bumped(), TreeOf(s), 0);
    }
  }

  // What an accepted Delete does to epoch and structure.
  ghost predicate EpochAlone(s: State, rq: DeleteRq, s': State) {
    && s'.epoch == s.epoch + 1
    && (SameStructure(s.Bumped(), s') <==> Spares(s, rq))
    && (SameLive(s, s') <==> Spares(s, rq) || Lends(s, rq))
  }

  lemma DeleteEffect(s: State, rq: DeleteRq)
    requires Valid(s) && AllShaped(s.nodes) && Delete(s, rq).Ok?
    ensures EpochAlone(s, rq, Delete(s, rq).value)
  {
    hide Valid, AllShaped, DeleteUp, Delete, Descend, Collapse, EpochAlone, Spares, Lends, OnPath;
    DeleteParts(s, rq);
    OnPathIs(s, rq);
    if Spares(s, rq) {
      SparedDelete(s, rq);
    } else if s.height == 1 {
      EmptiedRoot(s, rq);
    } else {
      DeleteValid(s, rq);
      ShortDelete(s, rq);
    }
  }

  lemma OnPathIs(s: State, rq: DeleteRq)
    requires Valid(s) && AllShaped(s.nodes) && RqOk(rq) && |rq.path| == s.height > 0 && Descend(s, rq.path, rq.key, 0, s.root).Ok?
    ensures OnPath(s, rq)
  {
  }

  lemma SparedDelete(s: State, rq: DeleteRq)
    requires OnPath(s, rq) && DeleteUp(s, rq, 0).Ok? && Spares(s, rq)
    ensures EpochAlone(s, rq, Collapse(DeleteUp(s, rq, 0).value.s, rq.path).Bumped())
  {
    hide Valid, AllShaped, DeleteUp, Descend, SameStructure, Collapse, Removed, Holds, Lends;
    SparedState(s, rq);
    var x := rq.path[|rq.path| - 1];
    LeafSetSame(s.Bumped(), x, Removed(s.nodes[x].es, rq.key));
    SpareLive(s, x, Leaf(Removed(s.nodes[x].es, rq.key), s.nodes[x].next));
  }

  lemma ShortDelete(s: State, rq: DeleteRq)
    requires OnPath(s, rq) && DeleteUp(s, rq, 0).Ok? && !Spares(s, rq) && s.height > 1
    requires Valid(Collapse(DeleteUp(s, rq, 0).value.s, rq.path).Bumped())
    ensures EpochAlone(s, rq, Collapse(DeleteUp(s, rq, 0).value.s, rq.path).Bumped())
  {
    hide Valid, AllShaped, DeleteUp, Descend, SameStructure, Collapse, Removed, Holds, Spares, Lends, Borrowed, SameLive;
    FirstRepair(s, rq);
    KeysFall(s, rq, 0, |rq.path| - 1);
    LeafTaken(s, rq);
    if Lends(s, rq) {
      BorrowEnds(s, rq, DeleteUp(s, rq, 0).value.s);
    } else {
      MergeEnds(s, rq, DeleteUp(s, rq, 0).value.s);
    }
  }

  lemma DeleteValid(s: State, rq: DeleteRq)
    requires Valid(s) && AllShaped(s.nodes) && Delete(s, rq).Ok?
    ensures Valid(Delete(s, rq).value)
  {
    hide Contents, StateEntries, Delete, AllShaped, EmptyTree, Represents;
    DeleteCorrect(s, 0, rq);
  }

  lemma SpareLive(s: State, x: nat, v: NodeView)
    requires x in s.nodes
    ensures SameLive(s, s.Set(x, v).Bumped())
  {
    assert s.Set(x, v).nodes.Keys == s.nodes.Keys;
  }

  // The last entry of a leaf root: the tree is empty afterwards.
  lemma EmptiedRoot(s: State, rq: DeleteRq)
    requires OnPath(s, rq) && DeleteUp(s, rq, 0).Ok? && !Spares(s, rq) && s.height == 1
    ensures var s' := Collapse(DeleteUp(s, rq, 0).value.s, rq.path).Bumped();
            EpochAlone(s, rq, s') && s'.height == 0
  {
    hide Valid, AllShaped, DeleteUp, Removed, Holds, Descend, SibOff;
    LeafTaken(s, rq);
  }

  lemma BorrowEnds(s: State, rq: DeleteRq, s1: State)
    requires OnPath(s, rq) && s.height > 1 && Borrowed(s, rq, s1) && Valid(Collapse(s1, rq.path).Bumped())
    ensures var s' := Collapse(s1, rq.path).Bumped();
            s'.epoch == s.epoch + 1 && !SameStructure(s.Bumped(), s') && SameLive(s, s')
  {
    hide Valid, AllShaped, Descend, SameStructure, SibOff;
    RootHasKeys(s);
    RootOfPath(s, rq);
    BumpedValid(s);
    var y, e :| Moved(s, rq, s1, y, e);
    assert Collapse(s1, rq.path) == s1;
    MovedEntry(s.Bumped(), s1.Bumped(), y, rq.path[|rq.path| - 1], e);
  }

  lemma MergeEnds(s: State, rq: DeleteRq, s1: State)
    requires |rq.path| > 0 && s1.epoch == s.epoch && exists r :: r in s.nodes && r !in s1.nodes
    ensures var s' := Collapse(s1, rq.path).Bumped();
            s'.epoch == s.epoch + 1 && !SameStructure(s.Bumped(), s') && !SameLive(s, s')
  {
    var r :| r in s.nodes && r !in s1.nodes;
    var s' := Collapse(s1, rq.path).Bumped();
    assert r !in s'.nodes.Keys && r in s.nodes.Keys;
  }

  // An accepted Delete always moves the epoch. It leaves the structure as it was exactly when the
  // leaf can spare the key.
  lemma DeleteStructureIff(s: State, rq: DeleteRq)
    requires Valid(s) && AllShaped(s.nodes) && Delete(s, rq).Ok?
    ensures Delete(s, rq).value.epoch == s.epoch + 1
    ensures SameStructure(s.Bumped(), Delete(s, rq).value) <==> Spares(s, rq)
  {
    hide Valid, AllShaped, Delete, SameStructure, Spares, Lends, SameLive;
    DeleteEffect(s, rq);
  }

  // No account comes or goes, and root and height stand, exactly when the leaf can spare the key
  // or its sibling lends an entry.
  lemma KeepsNodesIff(s: State, rq: DeleteRq)
    requires Valid(s) && AllShaped(s.nodes) && Delete(s, rq).Ok?
    ensures SameLive(s, Delete(s, rq).value) <==> Spares(s, rq) || Lends(s, rq)
  {
    hide Valid, AllShaped, Delete, SameStructure, Spares, Lends, SameLive;
    DeleteEffect(s, rq);
  }

  // ---- every instruction ----

  // The epoch moves and the structure does not.
  ghost predicate EpochOnly(s: State, s': State) {
    s'.epoch != s.epoch && SameStructure(s.(epoch := s'.epoch), s')
  }

  lemma CompactChanges(s: State, path: seq<nat>)
    requires AllShaped(s.nodes) && CompactLeaf(s, path).Ok?
    ensures !EpochOnly(s, CompactLeaf(s, path).value)
  {
    hide AllShaped, DescendLeftmost;
    var leaf := DescendLeftmost(s, path, 0, s.root).value;
    assert leaf in s.nodes.Keys && leaf !in CompactLeaf(s, path).value.nodes.Keys;
  }

  lemma DeleteAlone(s: State, rq: DeleteRq)
    requires Valid(s) && AllShaped(s.nodes) && Delete(s, rq).Ok?
    ensures EpochOnly(s, Delete(s, rq).value) <==> Spares(s, rq)
  {
    hide Valid, AllShaped, Delete, SameStructure, Spares;
    DeleteStructureIff(s, rq);
  }

  // An accepted instruction moves the epoch and leaves the structure alone exactly when it is a
  // Delete from a leaf that can spare the key.
  lemma EpochOnlyIff(s: State, ix: Ix)
    requires Valid(s) && AllShaped(s.nodes) && Apply(s, ix).Ok?
    ensures EpochOnly(s, Apply(s, ix).value) <==> ix.IxDelete? && Spares(s, ix.rq)
  {
    ValidShaped(s);
    hide Valid, AllShaped, SameNodes, Insert, Delete, CompactLeaf, BulkInsertFast, MultiLeafInsertFast, InsertFast,
      UpdateFast, DeleteFast, Find, RangeScan, Spares, Follows;
    match ix
    case IxInsert(e, path, spares) => InsertFollows(s, e, path, spares);
    case IxDelete(rq) => DeleteAlone(s, rq);
    case IxCompactLeaf(path) => CompactChanges(s, path);
    case IxBulkInsertFast(_, _) => BatchFollows(s, ix);
    case IxMultiLeafInsertFast(_, _) => BatchFollows(s, ix);
    case _ => FastFollows(s, ix);
  }

  // The documented promise, that the epoch moves on structural changes and on nothing else, holds of
  // every accepted instruction but such a Delete.
  lemma PromiseIff(s: State, ix: Ix)
    requires Valid(s) && AllShaped(s.nodes) && Apply(s, ix).Ok?
    ensures var s' := Apply(s, ix).value;
            (s'.epoch != s.epoch <==> !SameStructure(s.(epoch := s'.epoch), s')) <==> !(ix.IxDelete? && Spares(s, ix.rq))
  {
    hide Valid, AllShaped, Apply, SameStructure, Spares;
    EpochOnlyIff(s, ix);
    StepFollows(s, ix);
  }

  // ---- two runs that show it ----

  function Item(k: Key): Entry {
    Entry(k, [])
  }

  function Items(n: nat): seq<Entry>
    requires n <= 5
  {
    [Item(1), Item(2), Item(3), Item(4), Item(5)][..n]
  }

  // A tree of one leaf that holds the keys 1 to n.
  function OneLeaf(n: nat): State
    requires n <= 5
  {
    State(4, 1, 1, 1, 1, 1, 1, map[1 := Leaf(Items(n), 0)])
  }

  // The tree its split leads to.
  function TwoLeaves(): State {
    State(4, 3, 2, 1, 2, 2, 3, map[1 := Leaf([Item(1), Item(2)], 2), 2 := Leaf([Item(3), Item(4), Item(5)], 0), 3 := Inner([3], [1, 2])])
  }

  // One cold Insert, hot Inserts of the keys 2 to n, each on the path of the one leaf.
  function FirstKeys(n: nat): seq<Ix>
    requires 1 <= n <= 4
  {
    [IxInsert(Item(1), [], [1]), IxInsertFast(Item(2), [1]), IxInsertFast(Item(3), [1]), IxInsertFast(Item(4), [1])][..n]
  }

  lemma FirstStep()
    ensures Exec(InitTree(4), IxInsert(Item(1), [], [1])) == OneLeaf(1)
  {
    assert Items(1) == [Item(1)];
    assert map[][1 := Leaf([], 0)][1 := Leaf([Item(1)], 0)] == map[1 := Leaf([Item(1)], 0)];
  }

  lemma PosPast(es: seq<Entry>, key: Key)
    requires forall i | 0 <= i < |es| :: es[i].key < key
    ensures Pos(es, key) == |es| && !Holds(es, key) && Inserted(es, Item(key)) == es + [Item(key)]
  {
    assert Pos(es, key) == |es|;
  }

  lemma OneLeafPath(n: nat, key: Key)
    requires n <= 5
    ensures AllShaped(OneLeaf(n).nodes) && Descend(OneLeaf(n), [1], key, 0, 1) == Ok(1)
    ensures FastLeaf(OneLeaf(n), [1], key) == Ok(1)
  {
    var o := OneLeaf(n);
    assert |Items(n)| == n && o.nodes[1] == Leaf(Items(n), 0);
    assert CheckNode(o, 1, 1) == None;
  }

  lemma NextStep(n: nat)
    requires 1 <= n <= 3
    ensures AllShaped(OneLeaf(n).nodes) && Exec(OneLeaf(n), IxInsertFast(Item(n + 1), [1])) == OneLeaf(n + 1)
  {
    hide FastLeaf, Descend, Inserted, Holds, AllShaped;
    OneLeafPath(n, n + 1);
    PosPast(Items(n), n + 1);
    assert Items(n + 1) == Items(n) + [Item(n + 1)];
  }

  lemma {:induction false} FirstRun(n: nat)
    requires 1 <= n <= 4
    ensures Valid(InitTree(4)) && Run(InitTree(4), FirstKeys(n)) == OneLeaf(n)
  {
    hide Valid, AllShaped, Exec, OneLeaf, InitTree;
    InitValid(4, 0);
    if n == 1 {
      FirstStep();
      RunOne(InitTree(4), IxInsert(Item(1), [], [1]));
      assert FirstKeys(1) == [IxInsert(Item(1), [], [1])];
    } else {
      FirstRun(n - 1);
      NextStep(n - 1);
      RunOne(OneLeaf(n - 1), IxInsertFast(Item(n), [1]));
      RunConcat(InitTree(4), FirstKeys(n - 1), [IxInsertFast(Item(n), [1])]);
      assert FirstKeys(n) == FirstKeys(n - 1) + [IxInsertFast(Item(n), [1])];
    }
  }

  lemma RunOne(s: State, ix: Ix)
    requires Valid(s)
    ensures AllShaped(s.nodes) && Run(s, [ix]) == Exec(s, ix)
  {
    hide Valid, AllShaped, Exec;
    StepValid(s, ix);
    assert [ix][1..] == [];
  }

  // The leaf split and no root above the halves yet.
  function Halves(): State {
    State(4, 1, 1, 1, 2, 1, 2, map[1 := Leaf([Item(1), Item(2)], 2), 2 := Leaf([Item(3), Item(4), Item(5)], 0)])
  }

  lemma SplitFive(s: State)
    requires s == OneLeaf(4)
    ensures SplitLeaf(s, 1, Items(5), 0, [2, 3]) == Ok(Rise(Halves(), 1, true, 3, 2))
  {
    var es := Items(5);
    assert es == [Item(1), Item(2), Item(3), Item(4), Item(5)];
    assert es[..2] == [Item(1), Item(2)] && es[2..] == [Item(3), Item(4), Item(5)] && es[2].key == 3;
    assert SplitInto(s, 1, Leaf(es[..2], 2), 2, Leaf(es[2..], 0)).value.nodes == Halves().nodes;
  }

  lemma SplitRise(s: State)
    requires s == OneLeaf(4)
    ensures PathOpen(s.nodes, [1], 0)
    ensures InsertUp(s, [1], Item(5), [2, 3], 0) == Ok(Rise(Halves(), 1, true, 3, 2))
  {
    hide SplitLeaf, Halves, Inserted, Holds, Items;
    assert s.nodes[1] == Leaf(Items(4), 0);
    FourthAndFifth();
    SplitFive(s);
  }

  lemma FourthAndFifth()
    ensures !Holds(Items(4), 5) && Inserted(Items(4), Item(5)) == Items(5) && |Items(5)| == 5
  {
    PosPast(Items(4), 5);
  }

  lemma NewRoot()
    ensures GrowRoot(Rise(Halves(), 1, true, 3, 2), [2, 3]).Ok?
    ensures GrowRoot(Rise(Halves(), 1, true, 3, 2), [2, 3]).value.Bumped() == TwoLeaves()
  {
  }

  // The fifth key splits the leaf and puts a root above the halves.
  lemma SplitStep()
    ensures AllShaped(OneLeaf(4).nodes) && Exec(OneLeaf(4), IxInsert(Item(5), [1], [2, 3])) == TwoLeaves()
  {
    hide Descend, InsertUp, AllShaped, FastLeaf, GrowRoot, Halves, TwoLeaves;
    OneLeafPath(4, 5);
    SplitRise(OneLeaf(4));
    NewRoot();
  }

  // The keys 1 to 5 one after the other lead to the tree of two leaves.
  lemma SecondRun()
    ensures Valid(InitTree(4))
    ensures Run(InitTree(4), FirstKeys(4) + [IxInsert(Item(5), [1], [2, 3])]) == TwoLeaves()
  {
    hide Valid, AllShaped, Exec, OneLeaf, InitTree, TwoLeaves, FirstKeys;
    FirstRun(4);
    SplitStep();
    RunOne(OneLeaf(4), IxInsert(Item(5), [1], [2, 3]));
    RunConcat(InitTree(4), FirstKeys(4), [IxInsert(Item(5), [1], [2, 3])]);
  }

  lemma RootDelete()
    ensures AllShaped(OneLeaf(2).nodes) && Apply(OneLeaf(2), IxDelete(DeleteRq(1, [1], [0], []))).Ok?
  {
    hide FastLeaf, Descend, Removed, AllShaped;
    OneLeafPath(2, 1);
    var o := OneLeaf(2);
    assert o.nodes[1] == Leaf(Items(2), 0) && Items(2) == [Item(1), Item(2)];
    assert Pos(Items(2), 1) == 0;
    NoSides();
  }

  lemma TwoLeavesPath(key: Key, leaf: nat)
    requires leaf == if key < 3 then 1 else 2
    ensures AllShaped(TwoLeaves().nodes) && Descend(TwoLeaves(), [3, leaf], key, 0, 3) == Ok(leaf)
  {
    var t := TwoLeaves();
    assert t.nodes[3] == Inner([3], [1, 2]) && t.nodes[leaf].Leaf?;
    assert Route([3], key) == if key < 3 then 0 else 1;
    assert Descend(t, [3, leaf], key, 1, leaf) == Ok(leaf);
  }

  lemma NoSides()
    ensures SibOff([0], 1) == SibOff([0, 0], 2) == 0
  {
  }

  lemma LastRemoved(es: seq<Entry>, key: Key)
    requires es == [Item(3), Item(4), Item(5)] && key == 5
    ensures Holds(es, key) && Removed(es, key) == es[..2]
  {
    assert Pos(es, key) == 2;
  }

  lemma LeafDelete()
    ensures AllShaped(TwoLeaves().nodes) && Apply(TwoLeaves(), IxDelete(DeleteRq(5, [3, 2], [0, 0], []))).Ok?
  {
    hide Descend, AllShaped, Pos, Holds, Removed, SibOff;
    TwoLeavesPath(5, 2);
    var t, rq := TwoLeaves(), DeleteRq(5, [3, 2], [0, 0], []);
    var es := t.nodes[2].es;
    assert es == [Item(3), Item(4), Item(5)];
    LastRemoved(es, 5);
    NoSides();
    assert DeleteUp(t, rq, 1) == Ok(Fall(t.Set(2, Leaf(es[..2], 0)), false));
  }

  // Key 1 leaves one entry in the left leaf, and the right leaf lends one.
  lemma LendingDelete()
    ensures AllShaped(TwoLeaves().nodes) && Apply(TwoLeaves(), IxDelete(DeleteRq(1, [3, 1], [0, 1], [2]))).Ok?
  {
    hide Descend, AllShaped, Pos, Holds, Removed, SibOff, Collapse;
    TwoLeavesPath(1, 1);
    var t, rq := TwoLeaves(), DeleteRq(1, [3, 1], [0, 1], [2]);
    var es := t.nodes[1].es;
    assert es == [Item(1), Item(2)];
    FirstRemoved(es, 1);
    OneSide();
    var t1 := t.Set(1, Leaf(es[1..], 2));
    assert DeleteUp(t, rq, 1) == Ok(Fall(t1, false));
    RightLends(t1, rq);
  }

  lemma OneSide()
    ensures SibOff([0, 1], 1) == 0 && SibOff([0, 1], 2) == 1
  {
  }

  lemma FirstRemoved(es: seq<Entry>, key: Key)
    requires es == [Item(1), Item(2)] && key == 1
    ensures Holds(es, key) && Removed(es, key) == es[1..]
  {
    assert Pos(es, key) == 0;
  }

  lemma RightLends(t1: State, rq: DeleteRq)
    requires t1 == TwoLeaves().Set(1, Leaf([Item(1), Item(2)][1..], 2)) && rq == DeleteRq(1, [3, 1], [0, 1], [2])
    ensures SibOff(rq.sides, 2) == 1 && Fix(t1, rq, 1).Ok? && Count(t1.At(1)) < t1.Min()
  {
    OneSide();
    assert IndexOf([1, 2], 1) == 0;
  }

  // The documentation's promise fails at trees that real runs reach: a Delete from a leaf root with
  // entries to spare, and one from a leaf below the root. A third Delete borrows: no account comes
  // or goes, but a separator moves.
  lemma EpochMovesAlone()
    ensures Valid(InitTree(4))
    ensures var one := Run(InitTree(4), FirstKeys(2));
            var ix := IxDelete(DeleteRq(1, [1], [0], []));
            one.height == 1 && AllShaped(one.nodes) && Apply(one, ix).Ok? && EpochOnly(one, Apply(one, ix).value)
    ensures var two := Run(InitTree(4), FirstKeys(4) + [IxInsert(Item(5), [1], [2, 3])]);
            var ix, lent := IxDelete(DeleteRq(5, [3, 2], [0, 0], [])), IxDelete(DeleteRq(1, [3, 1], [0, 1], [2]));
            && two.height == 2 && AllShaped(two.nodes)
            && Apply(two, ix).Ok? && EpochOnly(two, Apply(two, ix).value)
            && Apply(two, lent).Ok? && !EpochOnly(two, Apply(two, lent).value) && SameLive(two, Apply(two, lent).value)
  {
    hide Valid, AllShaped, Apply, InitTree, FirstKeys, EpochOnly, SameLive;
    FirstRun(2);
    SecondRun();
    RootDelete();
    LeafDelete();
    LendingDelete();
    EpochOnlyIff(OneLeaf(2), IxDelete(DeleteRq(1, [1], [0], [])));
    EpochOnlyIff(TwoLeaves(), IxDelete(DeleteRq(5, [3, 2], [0, 0], [])));
    EpochOnlyIff(TwoLeaves(), IxDelete(DeleteRq(1, [3, 1], [0, 1], [2])));
    LendingKeeps();
  }

  lemma LendingKeeps()
    requires Valid(TwoLeaves())
    ensures AllShaped(TwoLeaves().nodes)
    ensures var r := Apply(TwoLeaves(), IxDelete(DeleteRq(1, [3, 1], [0, 1], [2])));
            r.Ok? && SameLive(TwoLeaves(), r.value)
  {
    hide Valid, AllShaped, Delete, SameLive, SibOff;
    LendingDelete();
    OneSide();
    KeepsNodesIff(TwoLeaves(), DeleteRq(1, [3, 1], [0, 1], [2]));
  }
}
