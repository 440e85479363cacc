// Delete as the program runs it: a leaf delete, then one borrow or merge per level.
module DeleteProgram {
  import opened Base
  import opened NodeViews
  import opened Shapes
  import opened Engine
  import opened Represent
  import opened MapModel
  import opened InsertProof
  import opened InsertTheorem
  import opened DeleteProof
  import opened DeleteTheorem
  import opened NodeOps
  import opened Accounts
  import opened Tidy
  import opened HotProgram
  import opened DeleteSites

  datatype Climb = Climb(r: Option<Error>, stop: bool)

  ghost predicate ClimbIs(spec: Result<Fall>, c: Climb, s: State) {
    match spec
    case Ok(d) => c.r == None && c.stop == d.stop && s == d.s
    case Err(e) => c.r == Some(e)
  }

  // ---- merge: absorb, unlink, close ----

  lemma MergeIs(s: State, l: nat, r: nat, par: nat, sep: nat)
    requires s.At(par).Inner? && sep < |s.At(par).keys| && Shaped(s.At(par)) && s.At(l).Leaf? == s.At(r).Leaf?
    ensures var a, b, p := s.At(l), s.At(r), s.At(par);
            var s1 := s.Set(l, if a.Leaf? && b.Leaf? then Leaf(a.es + b.es, b.next)
                               else if a.Inner? && b.Inner? then Inner(a.keys + [p.keys[sep]] + b.keys, a.kids + b.kids) else a);
            var s2 := s1.Set(par, Inner(RemoveAt(p.keys, sep), RemoveAt(p.kids, sep + 1))).Close(r);
            Merge(s, l, r, par, sep) == Ok(if b.Leaf? && b.next == 0 then s2.(rightmost := l) else s2)
  {
  }

  method MergeNodes(t: Torna, l: nat, r: nat, par: nat, sep: nat)
    requires t.Wf() && t.Neighbours(l, r, par, sep)
    requires Count(t.Abs().At(l)) + Count(t.Abs().At(r)) < t.fanout
    modifies t, t.Footprint()
    ensures t.Wf() && t.Grown() && Merge(old(t.Abs()), l, r, par, sep) == Ok(t.Abs())
  {
    hide Torna.Wf, Torna.Abs, Torna.Footprint, Torna.Neighbours, Node.View, Node.Valid, Merge, RemoveAt;
    ghost var s := t.Abs();
    t.ThreeApart(l, r, par, sep);
    Fields(t.nodes[par]);
    MergeIs(s, l, r, par, sep);
    t.Absorb(l, r, par, sep);
    Look(t, l);
    Look(t, par);
    if t.nodes[l].isLeaf && t.nodes[l].next == 0 {
      Header(t);
      t.SetEnds(t.leftmost, l);
    }
    Look(t, par);
    t.RemoveChild(par, sep);
    Look(t, r);
    t.CloseAccount(r);
  }

  // ---- one level ----

  method RepairNode(t: Torna, node: nat, sib: nat, par: nat, our: nat, right: bool) returns (stop: bool)
    requires t.Wf() && (right || our > 0) && t.fanout >= 4
    requires if right then t.Neighbours(node, sib, par, our) else t.Neighbours(sib, node, par, our - 1)
    requires Count(t.Abs().At(node)) < t.fanout / 2
    modifies t, t.Footprint()
    ensures t.Wf() && t.Grown()
    ensures Repair(old(t.Abs()), node, sib, par, our, right) == Ok(Fall(t.Abs(), stop))
  {
    hide Torna.Wf, Torna.Abs, Torna.Footprint, Torna.Neighbours, Node.View, Node.Valid, Merge, BorrowFromRight,
      BorrowFromLeft, Repair;
    ghost var s := t.Abs();
    RepairIs(s, node, sib, par, our, right);
    Header(t);
    if right {
      t.ThreeApart(node, sib, par, our);
    } else {
      t.ThreeApart(sib, node, par, our - 1);
    }
    Fields(t.nodes[sib]);
    stop := t.nodes[sib].keyCount > t.fanout / 2;
    if right {
      if stop {
        t.BorrowRight(node, sib, par, our);
        t.SameGrown();
      } else {
        MergeNodes(t, node, sib, par, our);
      }
    } else {
      if stop {
        t.BorrowLeft(sib, node, par, our - 1);
        t.SameGrown();
      } else {
        MergeNodes(t, sib, node, par, our - 1);
      }
    }
  }

  // Where the node stands among its parent's children; one past the last if it is not there.
  method FindChild(t: Torna, par: nat, node: nat) returns (our: nat)
    requires t.Wf() && par in t.Abs().nodes && t.Abs().nodes[par].Inner?
    ensures t.Wf() && t.Footprint() == old(t.Footprint()) && t.Abs() == old(t.Abs())
    ensures our == IndexOf(t.Abs().nodes[par].kids, node)
  {
    Look(t, par);
    hide Torna.Wf, Torna.Abs, Node.View;
    var n := t.nodes[par];
    our := 0;
    while our <= n.keyCount
      invariant 0 <= our <= n.keyCount + 1
      invariant forall i | 0 <= i < our :: n.kids[i] != node
    {
      if n.kids[our] == node {
        FirstIndex(n.Kids(), node, our);
        return;
      }
      our := our + 1;
    }
    FirstIndex(n.Kids(), node, |n.Kids()|);
  }

  // What the repair of one level may rely on.
  lemma SiteFacts(s: State, d: State, node: nat, par: nat, our: nat, right: bool)
    requires RepairSite(s, d, node, par) && TidyState(s) && our == IndexOf(d.nodes[par].kids, node) && our <= |d.nodes[par].keys|
    requires if right then our < |d.nodes[par].keys| else our > 0
    ensures var sib := d.nodes[par].kids[if right then our + 1 else our - 1];
            && sib in d.nodes && sib != par && sib != node && d.nodes[sib].Leaf? == d.nodes[node].Leaf?
            && Shaped(d.nodes[sib]) && Shaped(d.nodes[node]) && Shaped(d.nodes[par]) && node != par
  {
    var sib := d.nodes[par].kids[if right then our + 1 else our - 1];
    assert Sibling(s, d, sib, node, par);
    assert TidyNode(s.nodes[sib], s.fanout);
  }

  method FixLevel(t: Torna, rq: DeleteRq, lvl: nat, sib: nat, ghost s: State) returns (c: Climb)
    requires t.Wf() && t.fanout >= 4 && TidyState(s) && s.fanout == t.fanout
    requires 0 < lvl < |rq.path| == |rq.sides| && SibOff(rq.sides, |rq.sides|) <= |rq.sibs|
    requires rq.sides[lvl] != 0 ==> SibOff(rq.sides, lvl) < |rq.sibs| && sib == rq.sibs[SibOff(rq.sides, lvl)]
    requires RepairSite(s, t.Abs(), rq.path[lvl], rq.path[lvl - 1])
    requires Count(t.Abs().At(rq.path[lvl])) < t.fanout / 2
    modifies t, t.Footprint()
    ensures t.Wf() && t.Grown()
    ensures ClimbIs(Fix(old(t.Abs()), rq, lvl), c, t.Abs())
  {
    hide Torna.Wf, Torna.Abs, Torna.Footprint, Node.View, Node.Valid, Fix, Repair, SibOff, CheckNode, RepairSite, TidyState;
    ghost var now := t.Abs();
    var node, par := rq.path[lvl], rq.path[lvl - 1];
    SiteLive(s, now, node, par);
    FixIs(now, rq, lvl);
    if rq.sides[lvl] == 0 {
      t.NotGrown();
      return Climb(Some(BadPath), false);
    }
    Look(t, par);
    var our := FindChild(t, par, node);
    Look(t, par);
    var cnt := t.nodes[par].keyCount;
    var right := rq.sides[lvl] == 1;
    if our > cnt || (right && our + 1 > cnt) || (!right && our == 0) {
      t.SameGrown();
      return Climb(Some(BadPath), false);
    }
    var want := t.nodes[par].kids[if right then our + 1 else our - 1];
    WantIs(t, par, if right then our + 1 else our - 1);
    var e := t.CheckAccount(sib, want);
    if e.Some? {
      t.SameGrown();
      return Climb(e, false);
    }
    CheckedIs(now, sib, want);
    SiteFacts(s, now, node, par, our, right);
    SiteNeighbours(t, node, sib, par, our, right);
    var stop := RepairNode(t, node, sib, par, our, right);
    return Climb(None, stop);
  }

  lemma WantIs(t: Torna, par: nat, i: nat)
    requires t.Wf() && par in t.Abs().nodes && t.Abs().nodes[par].Inner? && i <= |t.Abs().nodes[par].keys|
    ensures par in t.nodes && i < t.nodes[par].kids.Length && i < |t.Abs().nodes[par].kids| && t.Abs().nodes[par].kids[i] == t.nodes[par].kids[i]
  {
    Look(t, par);
  }

  lemma SiteLive(s: State, d: State, node: nat, par: nat)
    requires RepairSite(s, d, node, par)
    ensures node in d.nodes && par in d.nodes && d.nodes[par].Inner? && Shaped(d.nodes[par]) && d.At(par) == d.nodes[par]
  {
  }

  lemma SiteNeighbours(t: Torna, node: nat, sib: nat, par: nat, our: nat, right: bool)
    requires t.Wf() && node in t.Abs().nodes && sib in t.Abs().nodes && par in t.Abs().nodes
    requires var s := t.Abs();
             && sib != par && sib != node && node != par && s.nodes[sib].Leaf? == s.nodes[node].Leaf? && s.nodes[par].Inner?
             && Shaped(s.nodes[sib]) && Shaped(s.nodes[node]) && Shaped(s.nodes[par])
             && our <= |s.nodes[par].keys| && (if right then our < |s.nodes[par].keys| else our > 0)
    ensures if right then t.Neighbours(node, sib, par, our) else t.Neighbours(sib, node, par, our - 1)
  {
    Look(t, node);
    Look(t, sib);
    Look(t, par);
  }

  // ---- the cascade ----

  lemma LevelDown(s: State, rq: DeleteRq, lvl: nat)
    requires lvl + 1 < |rq.path| == |rq.sides| && SibOff(rq.sides, |rq.sides|) <= |rq.sibs|
    ensures var r := DeleteUp(s, rq, lvl + 1);
            DeleteUp(s, rq, lvl) ==
            if r.Err? then r
            else if r.value.stop || Count(r.value.s.At(rq.path[lvl + 1])) >= r.value.s.Min() then Ok(Fall(r.value.s, true))
            else Fix(r.value.s, rq, lvl + 1)
  {
    hide Fix;
  }

  lemma {:induction false} StopsThere(s: State, rq: DeleteRq, lvl: nat)
    requires lvl < |rq.path| == |rq.sides| && SibOff(rq.sides, |rq.sides|) <= |rq.sibs|
    requires var r := DeleteUp(s, rq, lvl); r.Err? || r.value.stop
    ensures DeleteUp(s, rq, 0) == DeleteUp(s, rq, lvl)
    decreases lvl
  {
    hide DeleteUp;
    if lvl > 0 {
      LevelDown(s, rq, lvl - 1);
      StopsThere(s, rq, lvl - 1);
    }
  }

  // How many siblings the request needs, and where in the list each level's is.
  method SiblingOffsets(sides: seq<nat>) returns (n: nat, off: array<int>)
    ensures n == SibOff(sides, |sides|) && fresh(off) && off.Length == |sides|
    ensures forall i | 0 <= i < |sides| :: off[i] == if sides[i] != 0 then SibOff(sides, i) else -1
  {
    hide SibOff;
    off := new int[|sides|];
    n := 0;
    SibOffNext(sides, 0);
    var i := 0;
    while i < |sides|
      invariant 0 <= i <= |sides| && n == SibOff(sides, i)
      invariant forall k | 0 <= k < i :: off[k] == if sides[k] != 0 then SibOff(sides, k) else -1
    {
      SibOffNext(sides, i);
      if sides[i] != 0 {
        off[i] := n;
        n := n + 1;
      } else {
        off[i] := -1;
      }
      i := i + 1;
    }
  }

  method Offsets(t: Torna, sides: seq<nat>) returns (n: nat, off: array<int>)
    requires t.Wf()
    ensures t.Wf() && t.Footprint() == old(t.Footprint()) && t.Abs() == old(t.Abs()) && off !in t.Footprint()
    ensures n == SibOff(sides, |sides|) && fresh(off) && off.Length == |sides|
    ensures forall i | 0 <= i < |sides| :: off[i] == if sides[i] != 0 then SibOff(sides, i) else -1
  {
    hide Torna.Wf, Torna.Abs, SibOff;
    n, off := SiblingOffsets(sides);
    t.Untouched();
  }

  lemma LeafLevelIs(s: State, rq: DeleteRq)
    requires 0 < |rq.path| == |rq.sides| && SibOff(rq.sides, |rq.sides|) <= |rq.sibs|
    requires rq.path[|rq.path| - 1] in s.nodes && s.nodes[rq.path[|rq.path| - 1]].Leaf?
    ensures var x := rq.path[|rq.path| - 1];
            var v := s.nodes[x];
            DeleteUp(s, rq, |rq.path| - 1) ==
            if ValueIn(v.es, rq.key).Some? then Ok(Fall(s.Set(x, Leaf(Removed(v.es, rq.key), v.next)), false)) else Err(KeyNotFound)
  {
    hide Removed;
  }

  // One round of the loop: level `lvl` is done, or the cascade is over.
  method Round(t: Torna, rq: DeleteRq, lvl: nat, sib: nat, ghost s: State) returns (c: Climb)
    requires t.Wf() && RqOk(rq) && 0 < lvl < |rq.path| && |rq.path| == s.height && Valid(s) && AllShaped(s.nodes) && TidyState(s) && s.fanout == t.fanout
    requires Descend(s, rq.path, rq.key, 0, s.root).Ok?
    requires DeleteUp(s, rq, lvl) == Ok(Fall(t.Abs(), false))
    requires rq.sides[lvl] != 0 ==> SibOff(rq.sides, lvl) < |rq.sibs| && sib == rq.sibs[SibOff(rq.sides, lvl)]
    modifies t, t.Footprint()
    ensures t.Wf() && t.Grown()
    ensures ClimbIs(DeleteUp(s, rq, lvl - 1), c, t.Abs())
  {
    hide Torna.Wf, Torna.Abs, Torna.Footprint, Node.View, Node.Valid, DeleteUp, Fix, SibOff, TidyState, AllShaped,
      Valid, RepairSite, Descend;
    AtLeast4(s);
    Header(t);
    LevelDown(s, rq, lvl - 1);
    SiteOfLevel(s, rq, lvl);
    SiteLive(s, t.Abs(), rq.path[lvl], rq.path[lvl - 1]);
    Look(t, rq.path[lvl]);
    if t.nodes[rq.path[lvl]].keyCount >= t.fanout / 2 {
      t.NotGrown();
      return Climb(None, true);
    }
    c := FixLevel(t, rq, lvl, sib, s);
  }

  method Cascade(t: Torna, rq: DeleteRq, off: array<int>) returns (c: Climb)
    requires Sound(t) && Valid(t.Abs()) && RqOk(rq) && |rq.path| == t.Abs().height > 0
    requires Descend(t.Abs(), rq.path, rq.key, 0, t.Abs().root).Ok?
    requires off.Length == |rq.sides| && off !in t.Footprint()
    requires forall i | 0 <= i < |rq.sides| :: off[i] == if rq.sides[i] != 0 then SibOff(rq.sides, i) else -1
    modifies t, t.Footprint()
    ensures t.Wf() && t.Grown()
    ensures ClimbIs(DeleteUp(old(t.Abs()), rq, 0), c, t.Abs())
  {
    hide Torna.Wf, Torna.Abs, Torna.Footprint, Node.View, Node.Valid, DeleteUp, Fix, SibOff, TidyState, AllShaped,
      Valid, Removed, Ascending, Descend, ValueIn;
    ghost var s := t.Abs();
    Header(t);
    var lvl := |rq.path| - 1;
    var x := rq.path[lvl];
    LookLeaf(t, rq);
    LeafLevelIs(s, rq);
    var out := t.LeafDelete(x, rq.key);
    t.SameGrown();
    if out.None? {
      StopsThere(s, rq, lvl);
      return Climb(Some(KeyNotFound), false);
    }
    c := Climb(None, false);
    while c.r == None && lvl > 0 && !c.stop
      invariant 0 <= lvl < |rq.path| && t.Wf() && t.Grown()
      invariant forall i | 0 <= i < |rq.sides| :: off[i] == if rq.sides[i] != 0 then SibOff(rq.sides, i) else -1
      invariant off !in t.Footprint()
      invariant ClimbIs(DeleteUp(s, rq, lvl), c, t.Abs())
      decreases lvl
    {
      if rq.sides[lvl] != 0 {
        SibOffInside(rq, lvl);
      }
      var sib := if rq.sides[lvl] != 0 then rq.sibs[off[lvl]] else 0;
      c := Round(t, rq, lvl, sib, s);
      lvl := lvl - 1;
    }
    if lvl > 0 {
      StopsThere(s, rq, lvl);
    }
  }

  lemma AtLeast4(s: State)
    requires Valid(s)
    ensures 4 <= s.fanout
  {
  }

  lemma LookLeaf(t: Torna, rq: DeleteRq)
    requires Sound(t) && |rq.path| == t.Abs().height > 0 && Descend(t.Abs(), rq.path, rq.key, 0, t.Abs().root).Ok?
    ensures var x := rq.path[|rq.path| - 1];
            && x in t.Abs().nodes && t.Abs().nodes[x].Leaf? && x in t.nodes && Ascending(KeysOf(t.Abs().nodes[x].es))
  {
    var x := rq.path[|rq.path| - 1];
    LookTidy(t, x);
    Look(t, x);
  }

  // ---- collapse of the root ----

  lemma CollapseIs(s: State, path: seq<nat>)
    requires |path| > 0 && path[0] in s.nodes && Shaped(s.nodes[path[0]]) && s.height > 0
    requires s.nodes[path[0]].Leaf? <==> |path| == 1
    ensures var v := s.nodes[path[0]];
            Collapse(s, path) ==
            if v.Inner? && |v.keys| == 0 then s.(root := v.kids[0], height := s.height - 1).Close(path[0])
            else if v.Leaf? && |v.es| == 0 then s.(height := 0, root := 0, leftmost := 0, rightmost := 0).Close(path[0])
            else s
  {
  }

  method CollapseRoot(t: Torna, path: seq<nat>)
    requires t.Wf() && |path| > 0 && path[0] in t.Abs().nodes && t.Abs().height > 0
    requires t.Abs().nodes[path[0]].Leaf? <==> |path| == 1
    modifies t, t.Footprint()
    ensures t.Wf() && t.Grown()
    ensures t.Abs() == Collapse(old(t.Abs()), path)
  {
    hide Torna.Wf, Torna.Abs, Torna.Footprint, Node.View, Node.Valid, Collapse;
    var x := path[0];
    Look(t, x);
    Header(t);
    CollapseIs(t.Abs(), path);
    t.NotGrown();
    if |path| > 1 {
      if !t.nodes[x].isLeaf && t.nodes[x].keyCount == 0 {
        WantIs(t, x, 0);
        t.SetRoot(t.nodes[x].kids[0], t.height - 1);
        Look(t, x);
        t.CloseAccount(x);
      }
    } else if t.nodes[x].keyCount == 0 {
      t.SetRoot(0, 0);
      t.SetEnds(0, 0);
      Look(t, x);
      t.CloseAccount(x);
    }
  }

  // The root is still there when the cascade is through.
  lemma RootStays(s: State, rq: DeleteRq)
    requires Valid(s) && AllShaped(s.nodes) && RqOk(rq) && |rq.path| == s.height > 0
    requires Descend(s, rq.path, rq.key, 0, s.root).Ok? && DeleteUp(s, rq, 0).Ok?
    ensures var d := DeleteUp(s, rq, 0).value.s;
            && rq.path[0] in d.nodes && (d.nodes[rq.path[0]].Leaf? <==> |rq.path| == 1) && d.height == s.height
  {
    var t := TreeOf(s);
    AcceptedPath(s, t, 0, rq.path, rq.key);
    TopReady(s, t, 0);
    assert rq.path[0..] == rq.path && t.idx == rq.path[0];
    hide DeleteUp, Ready, Represents, Descend, Fallen;
    var e, t', minus := DeleteUpFalls(s, rq, 0, t, s.height, 0, KEY_LIMIT, Occ(s.fanout, 0), 0);
    FallenFacts(s, DeleteUp(s, rq, 0).value, t, t', e, minus, 0);
    FallenKind(s, DeleteUp(s, rq, 0).value, t, t', e, minus, s.height, Occ(s.fanout, 0));
  }

  lemma FallenKind(s: State, d: Fall, t: Tree, t': Tree, e: Entry, minus: multiset<nat>, h: nat, c: Occ)
    requires Fallen(s, d, t, t', e, minus, h, 0, KEY_LIMIT, c, 0)
    ensures t'.idx == t.idx && (t'.TLeaf? <==> h == 1)
  {
    assert t'.TNode? ==> WFKids(t'.keys, t'.kids, h - 1, 0, KEY_LIMIT, c);
  }

  method DoDelete(t: Torna, rq: DeleteRq) returns (r: Option<Error>)
    requires Sound(t) && Valid(t.Abs())
    modifies t, t.Footprint()
    ensures t.Wf() && t.Grown()
    ensures Outcome(Delete(old(t.Abs()), rq), r, t.Abs())
  {
    hide Torna.Wf, Torna.Abs, Torna.Footprint, Node.View, Node.Valid, DeleteUp, SibOff, TidyState, AllShaped, Valid,
      Descend, Collapse;
    ghost var s := t.Abs();
    Header(t);
    t.NotGrown();
    if |rq.path| == 0 || |rq.path| > MAX_TREE_HEIGHT {
      return Some(BadPath);
    }
    if |rq.sides| != |rq.path| {
      return Some(BadIxData);
    }
    if |rq.path| != t.height {
      return Some(BadPath);
    }
    var n, off := Offsets(t, rq.sides);
    if n > |rq.sibs| {
      return Some(NotEnoughAccounts);
    }
    var leaf := DescendTo(t, rq.path, rq.key);
    if leaf.Err? {
      t.SameGrown();
      return Some(leaf.error);
    }
    var c := Cascade(t, rq, off);
    if c.r.Some? {
      return c.r;
    }
    RootStays(s, rq);
    CollapseRoot(t, rq.path);
    t.Bump();
    return None;
  }
}
