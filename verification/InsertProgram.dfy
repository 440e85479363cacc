// Insert and CompactLeaf as the program runs them, level by level on the accounts.
module InsertProgram {
  import opened Base
  import opened NodeViews
  import opened Shapes
  import opened Engine
  import opened Represent
  import opened InsertPlanned
  import opened HotTheorems
  import opened NodeOps
  import opened Accounts
  import opened Tidy
  import opened HotProgram

  // ---- the levels of the split cascade ----

  lemma LevelUp(s: State, path: seq<nat>, e: Entry, spares: seq<nat>, lvl: nat)
    requires PathOpen(s.nodes, path, lvl) && lvl < |path| - 1
    ensures PathOpen(s.nodes, path, lvl + 1)
    ensures var r := InsertUp(s, path, e, spares, lvl + 1);
            && (r.Err? ==> InsertUp(s, path, e, spares, lvl) == r)
            && (r.Ok? ==> KindsKept(s.nodes, r.value.s.nodes) && path[lvl] in r.value.s.nodes && r.value.s.nodes[path[lvl]].Inner?
                          && Shaped(r.value.s.nodes[path[lvl]]) && r.value.used <= |spares|)
            && (r.Ok? && !r.value.split ==> InsertUp(s, path, e, spares, lvl) == r)
            && (r.Ok? && r.value.split ==> InsertUp(s, path, e, spares, lvl) == InsertInner(r.value, path[lvl], spares))
  {
    hide InsertInner, InsertLeaf;
  }

  lemma OpenAt(st: Store, path: seq<nat>, lvl: nat)
    requires PathOpen(st, path, 0) && lvl < |path|
    ensures PathOpen(st, path, lvl) && path[lvl] in st && Shaped(st[path[lvl]])
    ensures st[path[lvl]].Leaf? <==> lvl == |path| - 1
  {
  }

  // Once the cascade is over, the levels above change nothing.
  lemma {:induction false} PassesUp(s: State, path: seq<nat>, e: Entry, spares: seq<nat>, lvl: nat)
    requires PathOpen(s.nodes, path, 0) && lvl < |path| && PathOpen(s.nodes, path, lvl)
    requires var r := InsertUp(s, path, e, spares, lvl); r.Err? || !r.value.split
    ensures InsertUp(s, path, e, spares, 0) == InsertUp(s, path, e, spares, lvl)
    decreases lvl
  {
    hide InsertUp, PathOpen;
    if lvl > 0 {
      OpenAt(s.nodes, path, lvl - 1);
      LevelUp(s, path, e, spares, lvl - 1);
      PassesUp(s, path, e, spares, lvl - 1);
    }
  }

  // The levels below leave the rest of the store alone.
  ghost predicate Aside(a: Store, b: Store, path: seq<nat>, lvl: nat)
    requires lvl <= |path|
  {
    forall x | x in a && x !in path[lvl..] :: x in b && b[x] == a[x]
  }

  lemma LeafAside(s: State, path: seq<nat>, e: Entry, spares: seq<nat>, lvl: nat)
    requires PathOpen(s.nodes, path, lvl) && lvl == |path| - 1 && InsertUp(s, path, e, spares, lvl).Ok?
    ensures Aside(s.nodes, InsertUp(s, path, e, spares, lvl).value.s.nodes, path, lvl)
  {
    hide Inserted, Holds;
    assert path[lvl..] == [path[lvl]];
  }

  lemma InnerAside(u: Rise, idx: nat, spares: seq<nat>)
    requires idx in u.s.nodes && u.s.nodes[idx].Inner? && Shaped(u.s.nodes[idx]) && u.used <= |spares|
    requires InsertInner(u, idx, spares).Ok?
    ensures forall x | x in u.s.nodes && x != idx :: x in InsertInner(u, idx, spares).value.s.nodes && InsertInner(u, idx, spares).value.s.nodes[x] == u.s.nodes[x]
  {
    hide LowerBound;
  }

  lemma {:induction false} UpAside(s: State, path: seq<nat>, e: Entry, spares: seq<nat>, lvl: nat)
    requires PathOpen(s.nodes, path, lvl) && InsertUp(s, path, e, spares, lvl).Ok?
    ensures Aside(s.nodes, InsertUp(s, path, e, spares, lvl).value.s.nodes, path, lvl)
    decreases |path| - lvl
  {
    if lvl == |path| - 1 {
      LeafAside(s, path, e, spares, lvl);
    } else {
      LevelUp(s, path, e, spares, lvl);
      UpAside(s, path, e, spares, lvl + 1);
      var u := InsertUp(s, path, e, spares, lvl + 1).value;
      hide InsertUp, InsertInner;
      assert path[lvl..] == [path[lvl]] + path[lvl + 1..];
      if u.split {
        InnerAside(u, path[lvl], spares);
      }
    }
  }

  lemma Above(s: State, path: seq<nat>, e: Entry, spares: seq<nat>, lvl: nat)
    requires PathOpen(s.nodes, path, 0) && PathOpen(s.nodes, path, lvl + 1) && Distinct(path) && lvl < |path| - 1
    requires InsertUp(s, path, e, spares, lvl + 1).Ok?
    ensures var st := InsertUp(s, path, e, spares, lvl + 1).value.s.nodes;
            path[lvl] in s.nodes && path[lvl] in st && st[path[lvl]] == s.nodes[path[lvl]]
  {
    UpAside(s, path, e, spares, lvl + 1);
    hide InsertUp;
    assert path[lvl] !in path[lvl + 1..];
  }

  // A spare taken after the node was written is the spare taken before.
  lemma SpareAfter(s: State, idx: nat, v: NodeView, v': NodeView, acc: nat, w: NodeView)
    requires idx in s.nodes
    ensures var a, b := ConsumeSpare(s.Set(idx, v), acc, w.Leaf?), SplitInto(s, idx, v', acc, w);
            && (a.Err? ==> b == Err(a.error))
            && (a.Ok? ==> acc != idx && acc == s.highWater + 1 && b == Ok(a.value.Set(idx, v').Set(acc, w)) && b.value.highWater == acc)
  {
    if ConsumeSpare(s.Set(idx, v), acc, w.Leaf?).Ok? {
      var blank := if w.Leaf? then Leaf([], 0) else ZEROED;
      assert s.nodes[idx := v][acc := blank][idx := v'][acc := w] == s.nodes[acc := blank][idx := v'][acc := w];
    }
  }

  // ---- the leaf level ----

  datatype Step = Step(r: Option<Error>, used: nat, split: bool, sep: Key, right: nat)

  ghost predicate StepIs(spec: Result<Rise>, st: Step, s: State) {
    match spec
    case Ok(u) => st.r == None && st.used == u.used && st.split == u.split && s == u.s && (u.split ==> st.sep == u.sep && st.right == u.right)
    case Err(e) => st.r == Some(e)
  }

  lemma InsertLeafIs(s: State, idx: nat, e: Entry, spares: seq<nat>)
    requires idx in s.nodes && s.nodes[idx].Leaf?
    ensures var v := s.nodes[idx];
            var es' := Inserted(v.es, e);
            && |es'| == |v.es| + 1
            && InsertLeaf(s, idx, e, spares) ==
            if Holds(v.es, e.key) then Err(DuplicateKey)
            else if |es'| <= s.fanout then Ok(Rise(s.Set(idx, Leaf(es', v.next)), 0, false, 0, 0))
            else if |spares| == 0 then Err(NeedSplitSlot)
            else var half := |es'| / 2;
                 match ConsumeSpare(s.Set(idx, Leaf(es', v.next)), spares[0], true)
                 case Err(x) => Err(x)
                 case Ok(s1) =>
                   var s2 := s1.Set(idx, Leaf(es'[..half], s.highWater + 1)).Set(s.highWater + 1, Leaf(es'[half..], v.next));
                   Ok(Rise(if v.next == 0 then s2.(rightmost := s.highWater + 1) else s2, 1, true, es'[half].key, s.highWater + 1))
  {
    InsertedLength(s.nodes[idx].es, e);
    hide Inserted, Holds, SplitInto, ConsumeSpare;
    var v := s.nodes[idx];
    var es := Inserted(v.es, e);
    var half := |es| / 2;
    if |spares| > 0 {
      SpareAfter(s, idx, Leaf(es, v.next), Leaf(es[..half], s.highWater + 1), spares[0], Leaf(es[half..], v.next));
    }
  }

  // The split of an over-full leaf into a spare, with the chain and the header following.
  method SplitOff(t: Torna, x: nat, spare: nat) returns (err: Option<Error>, sep: Key)
    requires t.Wf() && x in t.Abs().nodes && t.Abs().nodes[x].Leaf? && |t.Abs().nodes[x].es| >= 1
    modifies t, t.Footprint()
    ensures t.Wf() && t.Grown()
    ensures var v, n := old(t.Abs()).nodes[x], old(t.Abs()).highWater + 1;
            match ConsumeSpare(old(t.Abs()), spare, true)
            case Err(e) => err == Some(e)
            case Ok(s1) =>
              var half := |v.es| / 2;
              var s2 := s1.Set(x, Leaf(v.es[..half], n)).Set(n, Leaf(v.es[half..], v.next));
              err == None && sep == v.es[half].key && t.Abs() == if v.next == 0 then s2.(rightmost := n) else s2
  {
    hide Torna.Wf, Torna.Abs, Torna.Footprint, Node.View, Node.Valid, ConsumeSpare;
    ghost var s := t.Abs();
    err := t.TakeSpare(spare, true);
    if err.Some? {
      sep := 0;
      return;
    }
    SpareKeeps(s, spare, true, x);
    Header(t);
    var n := t.highWater;
    Look(t, x);
    Look(t, n);
    sep := t.LeafSplit(x, n);
    Look(t, n);
    if t.nodes[n].next == 0 {
      Header(t);
      t.SetEnds(t.leftmost, n);
    }
  }

  method LeafStep(t: Torna, x: nat, e: Entry, spares: seq<nat>) returns (st: Step)
    requires Sound(t) && x in t.Abs().nodes && t.Abs().nodes[x].Leaf?
    modifies t, t.Footprint()
    ensures t.Wf() && t.Grown()
    ensures StepIs(InsertLeaf(old(t.Abs()), x, e, spares), st, t.Abs())
  {
    hide Torna.Wf, Torna.Abs, Torna.Footprint, Inserted, Holds, TidyState, AllShaped, Ascending, InsertLeaf,
      SplitInto, Node.View, Node.Valid, ConsumeSpare;
    ghost var s := t.Abs();
    InsertLeafIs(s, x, e, spares);
    LookTidy(t, x);
    Look(t, x);
    Header(t);
    var dup := t.LeafInsert(x, e);
    if dup {
      return Step(Some(DuplicateKey), 0, false, 0, 0);
    }
    Look(t, x);
    Header(t);
    if t.nodes[x].keyCount <= t.fanout {
      return Step(None, 0, false, 0, 0);
    }
    if |spares| == 0 {
      return Step(Some(NeedSplitSlot), 0, false, 0, 0);
    }
    var n := t.highWater + 1;
    var err, sep := SplitOff(t, x, spares[0]);
    return if err.Some? then Step(err, 0, false, 0, 0) else Step(None, 1, true, sep, n);
  }

  lemma SpareKeeps(s: State, acc: nat, leaf: bool, x: nat)
    requires ConsumeSpare(s, acc, leaf).Ok? && x in s.nodes
    ensures var s1 := ConsumeSpare(s, acc, leaf).value;
            && x in s1.nodes && s1.nodes[x] == s.nodes[x] && acc in s1.nodes && acc != x
            && s1.nodes[acc] == (if leaf then Leaf([], 0) else ZEROED) && s1.highWater == acc == s.highWater + 1
            && s1.root == s.root && s1.height == s.height && s1.fanout == s.fanout
  {
  }

  // ---- one internal level ----

  lemma InsertInnerIs(u: Rise, idx: nat, spares: seq<nat>)
    requires idx in u.s.nodes && u.s.nodes[idx].Inner? && Shaped(u.s.nodes[idx]) && u.used <= |spares|
    ensures var v := u.s.nodes[idx];
            var pos := LowerBound(v.keys, u.sep);
            var keys', kids' := InsertAt(v.keys, pos, u.sep), KidInsertAt(v.kids, pos, u.right);
            && |keys'| == |v.keys| + 1 && |kids'| == |keys'| + 1
            && InsertInner(u, idx, spares) ==
            if |keys'| <= u.s.fanout then Ok(u.(s := u.s.Set(idx, Inner(keys', kids')), split := false))
            else if u.used >= |spares| then Err(NeedSplitSlot)
            else var mid := |keys'| / 2;
                 match ConsumeSpare(u.s.Set(idx, Inner(keys', kids')), spares[u.used], false)
                 case Err(x) => Err(x)
                 case Ok(s1) =>
                   var s2 := s1.Set(idx, Inner(keys'[..mid], kids'[..mid + 1])).Set(u.s.highWater + 1, Inner(keys'[mid + 1..], kids'[mid + 1..]));
                   Ok(Rise(s2, u.used + 1, true, keys'[mid], u.s.highWater + 1))
  {
    hide LowerBound, SplitInto, ConsumeSpare;
    var v := u.s.nodes[idx];
    var pos := LowerBound(v.keys, u.sep);
    var keys, kids := InsertAt(v.keys, pos, u.sep), KidInsertAt(v.kids, pos, u.right);
    var mid := |keys| / 2;
    if u.used < |spares| {
      SpareAfter(u.s, idx, Inner(keys, kids), Inner(keys[..mid], kids[..mid + 1]), spares[u.used], Inner(keys[mid + 1..], kids[mid + 1..]));
    }
  }

  method InnerSplitOff(t: Torna, x: nat, spare: nat) returns (err: Option<Error>, sep: Key)
    requires t.Wf() && x in t.Abs().nodes && t.Abs().nodes[x].Inner? && Shaped(t.Abs().nodes[x]) && |t.Abs().nodes[x].keys| >= 1
    modifies t, t.Footprint()
    ensures t.Wf() && t.Grown()
    ensures var v, n := old(t.Abs()).nodes[x], old(t.Abs()).highWater + 1;
            match ConsumeSpare(old(t.Abs()), spare, false)
            case Err(e) => err == Some(e)
            case Ok(s1) =>
              var mid := |v.keys| / 2;
              && err == None && sep == v.keys[mid]
              && t.Abs() == s1.Set(x, Inner(v.keys[..mid], v.kids[..mid + 1])).Set(n, Inner(v.keys[mid + 1..], v.kids[mid + 1..]))
  {
    hide Torna.Wf, Torna.Abs, Torna.Footprint, Node.View, Node.Valid, ConsumeSpare;
    ghost var s := t.Abs();
    err := t.TakeSpare(spare, false);
    if err.Some? {
      sep := 0;
      return;
    }
    SpareKeeps(s, spare, false, x);
    Header(t);
    var n := t.highWater;
    Look(t, x);
    Look(t, n);
    sep := t.InternalSplit(x, n);
  }

  method InnerStep(t: Torna, x: nat, spares: seq<nat>, up: Step) returns (st: Step)
    requires t.Wf() && x in t.Abs().nodes && t.Abs().nodes[x].Inner? && TidyNode(t.Abs().nodes[x], t.fanout) && up.used <= |spares|
    modifies t, t.Footprint()
    ensures t.Wf() && t.Grown() && Shaped(old(t.Abs()).nodes[x])
    ensures StepIs(InsertInner(Rise(old(t.Abs()), up.used, true, up.sep, up.right), x, spares), st, t.Abs())
  {
    hide Torna.Wf, Torna.Abs, Torna.Footprint, LowerBound, InsertAt, KidInsertAt, Ascending, InsertInner, Node.View,
      Node.Valid, ConsumeSpare;
    ghost var s := t.Abs();
    ghost var u := Rise(s, up.used, true, up.sep, up.right);
    InsertInnerIs(u, x, spares);
    Look(t, x);
    Header(t);
    t.InsertSeparator(x, up.sep, up.right);
    Look(t, x);
    Header(t);
    if t.nodes[x].keyCount <= t.fanout {
      return up.(r := None, split := false);
    }
    if up.used >= |spares| {
      return up.(r := Some(NeedSplitSlot));
    }
    var n := t.highWater + 1;
    var err, sep := InnerSplitOff(t, x, spares[up.used]);
    return if err.Some? then up.(r := err) else Step(None, up.used + 1, true, sep, n);
  }

  // ---- the whole cascade ----

  lemma LeafLevel(s: State, path: seq<nat>, e: Entry, spares: seq<nat>)
    requires PathOpen(s.nodes, path, 0)
    ensures |path| > 0 && PathOpen(s.nodes, path, |path| - 1)
    ensures InsertUp(s, path, e, spares, |path| - 1) == InsertLeaf(s, path[|path| - 1], e, spares)
  {
  }

  lemma StepUp(s: State, path: seq<nat>, e: Entry, spares: seq<nat>, lvl: nat, st: Step, now: State)
    requires PathOpen(s.nodes, path, 0) && lvl < |path| - 1 && PathOpen(s.nodes, path, lvl + 1) && Distinct(path) && TidyState(s)
    requires StepIs(InsertUp(s, path, e, spares, lvl + 1), st, now) && st.r == None && st.split
    ensures PathOpen(s.nodes, path, lvl)
    ensures path[lvl] in now.nodes && now.nodes[path[lvl]].Inner? && TidyNode(now.nodes[path[lvl]], s.fanout) && st.used <= |spares| && Shaped(now.nodes[path[lvl]])
    ensures InsertUp(s, path, e, spares, lvl) == InsertInner(Rise(now, st.used, true, st.sep, st.right), path[lvl], spares)
  {
    OpenAt(s.nodes, path, lvl);
    LevelUp(s, path, e, spares, lvl);
    Above(s, path, e, spares, lvl);
    hide InsertUp, InsertInner, TidyNode;
    assert TidyNode(s.nodes[path[lvl]], s.fanout);
  }

  method Cascade(t: Torna, path: seq<nat>, e: Entry, spares: seq<nat>) returns (st: Step)
    requires Sound(t) && PathOpen(t.Abs().nodes, path, 0) && Distinct(path)
    modifies t, t.Footprint()
    ensures t.Wf() && t.Grown()
    ensures StepIs(InsertUp(old(t.Abs()), path, e, spares, 0), st, t.Abs())
  {
    hide Torna.Wf, Torna.Abs, Torna.Footprint, InsertUp, InsertLeaf, InsertInner, TidyState, TidyNode, AllShaped,
      PathOpen, Distinct;
    ghost var s := t.Abs();
    LeafLevel(s, path, e, spares);
    Header(t);
    OpenAt(s.nodes, path, |path| - 1);
    assert TidyState(s);
    st := LeafStep(t, path[|path| - 1], e, spares);
    var lvl := |path| - 1;
    while st.r == None && st.split && lvl > 0
      invariant 0 <= lvl < |path| && t.Wf() && t.Grown()
      invariant PathOpen(s.nodes, path, lvl)
      invariant StepIs(InsertUp(s, path, e, spares, lvl), st, t.Abs())
    {
      StepUp(s, path, e, spares, lvl - 1, st, t.Abs());
      Header(t);
      st := InnerStep(t, path[lvl - 1], spares, st);
      lvl := lvl - 1;
    }
    if lvl > 0 {
      PassesUp(s, path, e, spares, lvl);
    }
  }

  // A new root above the old one and the node split off it.
  method Grow(t: Torna, up: Step, spares: seq<nat>) returns (err: Option<Error>)
    requires t.Wf() && t.fanout >= 1 && up.used <= |spares|
    modifies t, t.Footprint()
    ensures t.Wf() && t.Grown()
    ensures Outcome(GrowRoot(Rise(old(t.Abs()), up.used, true, up.sep, up.right), spares), err, t.Abs())
  {
    hide Torna.Wf, Torna.Abs, Torna.Footprint, Node.View, Node.Valid, ConsumeSpare;
    ghost var s := t.Abs();
    Header(t);
    if up.used >= |spares| {
      t.NotGrown();
      return Some(NeedSplitSlot);
    }
    if t.height >= MAX_TREE_HEIGHT {
      t.NotGrown();
      return Some(BadPath);
    }
    err := t.TakeSpare(spares[up.used], false);
    if err.Some? {
      return;
    }
    NewAccount(s, spares[up.used], false);
    Header(t);
    var n := t.highWater;
    Look(t, n);
    t.FillRoot(n, up.sep, t.root, up.right);
    Header(t);
    t.SetRoot(n, t.height + 1);
  }

  lemma NewAccount(s: State, acc: nat, leaf: bool)
    requires ConsumeSpare(s, acc, leaf).Ok?
    ensures var s1 := ConsumeSpare(s, acc, leaf).value;
            && acc in s1.nodes && s1.nodes[acc] == (if leaf then Leaf([], 0) else ZEROED)
            && s1 == s.(highWater := acc, nodes := s.nodes[acc := s1.nodes[acc]])
  {
  }

  // The first insert makes the leaf root.
  method FirstLeafRoot(t: Torna, e: Entry, spares: seq<nat>) returns (err: Option<Error>)
    requires t.Wf() && t.Abs().height == 0 && t.fanout >= 1 && AllShaped(t.Abs().nodes)
    modifies t, t.Footprint()
    ensures t.Wf() && t.Grown()
    ensures Outcome(Insert(old(t.Abs()), e, [], spares), err, t.Abs())
  {
    hide Torna.Wf, Torna.Abs, Torna.Footprint, Node.View, Node.Valid, ConsumeSpare, AllShaped;
    ghost var s := t.Abs();
    if |spares| == 0 {
      t.NotGrown();
      return Some(NeedSplitSlot);
    }
    err := t.TakeSpare(spares[0], true);
    if err.Some? {
      return;
    }
    NewAccount(s, spares[0], true);
    Header(t);
    var n := t.highWater;
    Look(t, n);
    InsertedAlone(e);
    var dup := t.LeafInsert(n, e);
    Header(t);
    t.SetRoot(n, 1);
    t.SetEnds(n, n);
    t.Bump();
    assert t.Abs() == ConsumeSpare(s, spares[0], true).value.Set(n, Leaf([e], 0)).(root := n, height := 1, leftmost := n, rightmost := n).Bumped();
  }

  lemma InsertedAlone(e: Entry)
    ensures Inserted([], e) == [e] && !Holds([], e.key) && Ascending(KeysOf([]))
  {
  }

  // What the checks on the path tell.
  lemma PathChecked(s: State, path: seq<nat>, key: Key)
    requires Valid(s) && AllShaped(s.nodes) && s.height > 0 && |path| == s.height && Descend(s, path, key, 0, s.root).Ok?
    ensures PathOpen(s.nodes, path, 0) && Distinct(path)
  {
    PathSound(s, path, key);
    SearchPathFacts(s, key);
  }

  method DoInsert(t: Torna, e: Entry, path: seq<nat>, spares: seq<nat>) returns (r: Option<Error>)
    requires Sound(t) && Valid(t.Abs())
    modifies t, t.Footprint()
    ensures t.Wf() && t.Grown()
    ensures Outcome(Insert(old(t.Abs()), e, path, spares), r, t.Abs())
  {
    hide Torna.Wf, Torna.Abs, Torna.Footprint, TidyState, TidyNode, AllShaped, Valid, InsertUp, GrowRoot, Descend,
      PathOpen, Distinct;
    ghost var s := t.Abs();
    Header(t);
    FanoutRange(s);
    if |path| != t.height || |path| > MAX_TREE_HEIGHT {
      t.NotGrown();
      return Some(BadPath);
    }
    if t.height == 0 {
      assert path == [];
      r := FirstLeafRoot(t, e, spares);
      return;
    }
    var leaf := DescendTo(t, path, e.key);
    if leaf.Err? {
      t.SameGrown();
      return Some(leaf.error);
    }
    PathChecked(s, path, e.key);
    SplitUses(s, path, e, spares, 0);
    var st := Cascade(t, path, e, spares);
    if st.r.Some? {
      return st.r;
    }
    if st.used == 0 {
      return None;
    }
    if st.split {
      RiseWithin(s, path, e, spares);
      r := Grow(t, st, spares);
      if r.Some? {
        return;
      }
    }
    t.Bump();
    return None;
  }

  lemma FanoutRange(s: State)
    requires Valid(s)
    ensures 4 <= s.fanout && s.height <= MAX_TREE_HEIGHT
  {
  }

  lemma RiseWithin(s: State, path: seq<nat>, e: Entry, spares: seq<nat>)
    requires PathOpen(s.nodes, path, 0) && InsertUp(s, path, e, spares, 0).Ok?
    ensures InsertUp(s, path, e, spares, 0).value.used <= |spares|
  {
  }

  // ---- CompactLeaf ----

  lemma LeftmostLevel(s: State, path: seq<nat>, lvl: nat, want: nat)
    requires lvl < |path| && AllShaped(s.nodes)
    ensures CheckNode(s, path[lvl], want).Some? ==> DescendLeftmost(s, path, lvl, want) == Err(CheckNode(s, path[lvl], want).value)
    ensures CheckNode(s, path[lvl], want) == None ==>
            && path[lvl] in s.nodes
            && (s.nodes[path[lvl]].Leaf? != (lvl == |path| - 1) ==> DescendLeftmost(s, path, lvl, want) == Err(BadPath))
            && (s.nodes[path[lvl]].Leaf? && lvl == |path| - 1 ==> DescendLeftmost(s, path, lvl, want) == Ok(path[lvl]))
            && (s.nodes[path[lvl]].Inner? && lvl < |path| - 1 ==>
                  |s.nodes[path[lvl]].kids| > 0 && DescendLeftmost(s, path, lvl, want) == DescendLeftmost(s, path, lvl + 1, s.nodes[path[lvl]].kids[0]))
  {
  }

  method DescendToLeftmost(t: Torna, path: seq<nat>) returns (r: Result<nat>)
    requires Sound(t) && |path| > 0
    ensures t.Wf() && t.Footprint() == old(t.Footprint()) && t.Abs() == old(t.Abs())
    ensures r == DescendLeftmost(t.Abs(), path, 0, t.root)
  {
    hide Torna.Wf, Torna.Abs, TidyState, AllShaped, TidyNode, DescendLeftmost, CheckNode, Node.Valid, Node.View;
    ghost var s := t.Abs();
    var e := t.CheckAccount(path[0], t.root);
    LeftmostLevel(s, path, 0, t.root);
    if e.Some? {
      return Err(e.value);
    }
    var lvl := 0;
    ghost var want := t.root;
    while lvl < |path| - 1
      invariant 0 <= lvl < |path| && t.Wf() && t.Footprint() == old(t.Footprint()) && t.Abs() == s
      invariant CheckNode(s, path[lvl], want) == None
      invariant DescendLeftmost(s, path, 0, t.root) == DescendLeftmost(s, path, lvl, want)
    {
      LeftmostLevel(s, path, lvl, want);
      Look(t, path[lvl]);
      if t.nodes[path[lvl]].isLeaf {
        return Err(BadPath);
      }
      KidsAt(t.nodes[path[lvl]]);
      var desc := t.nodes[path[lvl]].kids[0];
      e := t.CheckAccount(path[lvl + 1], desc);
      LeftmostLevel(s, path, lvl + 1, desc);
      if e.Some? {
        return Err(e.value);
      }
      want := desc;
      lvl := lvl + 1;
    }
    LeftmostLevel(s, path, lvl, want);
    Look(t, path[lvl]);
    if !t.nodes[path[lvl]].isLeaf {
      return Err(BadPath);
    }
    return Ok(path[lvl]);
  }

  lemma KidsAt(n: Node)
    requires n.Valid()
    ensures n.kids.Length > 0 && n.Kids()[0] == n.kids[0]
  {
  }

  method DoCompactLeaf(t: Torna, path: seq<nat>) returns (r: Option<Error>)
    requires Sound(t) && Valid(t.Abs())
    modifies t, t.Footprint()
    ensures t.Wf() && t.Grown()
    ensures Outcome(CompactLeaf(old(t.Abs()), path), r, t.Abs())
  {
    hide Torna.Wf, Torna.Abs, Torna.Footprint, TidyState, TidyNode, AllShaped, Valid, DescendLeftmost, Node.Valid,
      Node.View, PathOpen;
    ghost var s := t.Abs();
    Header(t);
    if t.height < 2 || |path| != t.height {
      t.NotGrown();
      return Some(BadPath);
    }
    var leaf := DescendToLeftmost(t, path);
    if leaf.Err? {
      t.SameGrown();
      return Some(leaf.error);
    }
    var x, par := leaf.value, path[|path| - 2];
    EndsOpen(s.nodes, path);
    Look(t, x);
    Look(t, par);
    Header(t);
    if x != t.leftmost {
      t.SameGrown();
      return Some(BadPath);
    }
    if t.nodes[x].keyCount != 0 {
      t.SameGrown();
      return Some(NotEmpty);
    }
    if t.nodes[par].keyCount <= t.fanout / 2 {
      t.SameGrown();
      return Some(NeedSplitSlot);
    }
    var next := t.nodes[x].next;
    t.RemoveFirstChild(par);
    Header(t);
    t.SetEnds(next, t.rightmost);
    t.Bump();
    Look(t, x);
    t.CloseAccount(x);
    return None;
  }

  lemma EndsOpen(st: Store, path: seq<nat>)
    requires PathOpen(st, path, 0) && |path| >= 2
    ensures path[|path| - 1] in st && st[path[|path| - 1]].Leaf?
    ensures path[|path| - 2] in st && st[path[|path| - 2]].Inner? && Shaped(st[path[|path| - 2]]) && path[|path| - 2] != path[|path| - 1]
  {
  }
}
