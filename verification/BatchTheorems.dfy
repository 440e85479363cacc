// The batch instructions act as InsertFast on their entries one by one.
module BatchTheorems {
  import opened Base
  import opened NodeViews
  import opened Shapes
  import opened Engine
  import opened Represent
  import opened Search
  import opened Edits
  import opened TopProof
  import opened InsertProof
  import opened MapModel
  import opened HotPath
  import opened HotTheorems
  import opened Structure

  lemma FastKeepsShape(s: State, e: Entry, path: seq<nat>)
    requires AllShaped(s.nodes)
    ensures InsertFast(s, e, path).Ok? ==> AllShaped(InsertFast(s, e, path).value.nodes)
  {
  }

  // InsertFast for es[i..], every one along `path`.
  function InsertEach(s: State, path: seq<nat>, es: seq<Entry>, i: nat): Result<State>
    requires AllShaped(s.nodes)
    decreases |es| - i
  {
    if i >= |es| then Ok(s)
    else
      FastKeepsShape(s, es[i], path);
      var s1 :- InsertFast(s, es[i], path);
      InsertEach(s1, path, es, i + 1)
  }

  ghost predicate AscendingFrom(es: seq<Entry>, i: nat) {
    forall j | i <= j < |es| && 0 < j :: es[j - 1].key < es[j].key
  }

  ghost predicate AllRoute(s: State, path: seq<nat>, es: seq<Entry>, i: nat, leaf: nat)
    requires AllShaped(s.nodes)
  {
    forall j | i <= j < |es| :: FastLeaf(s, path, es[j].key) == Ok(leaf)
  }

  lemma AllRouteSame(a: State, b: State, path: seq<nat>, es: seq<Entry>, i: nat, leaf: nat)
    requires AllShaped(a.nodes) && AllShaped(b.nodes) && SameStructure(a, b) && Roomy(a) && Roomy(b)
    requires AllRoute(a, path, es, i, leaf)
    ensures AllRoute(b, path, es, i, leaf)
  {
    forall j | i <= j < |es| ensures FastLeaf(b, path, es[j].key) == Ok(leaf) {
      FastLeafSame(a, b, path, es[j].key);
    }
  }

  // Writing the entries into one leaf is inserting them one by one.
  lemma {:induction false} FillIsEach(s: State, path: seq<nat>, leaf: nat, es: seq<Entry>, i: nat)
    requires AllShaped(s.nodes) && Roomy(s) && i <= |es|
    requires leaf in s.nodes && s.nodes[leaf].Leaf? && |s.nodes[leaf].es| + |es| - i <= s.fanout
    requires AscendingFrom(es, i) && AllRoute(s, path, es, i, leaf)
    ensures FillLeaf(s, leaf, es, i) == InsertEach(s, path, es, i)
    decreases |es| - i
  {
    if i < |es| {
      assert FastLeaf(s, path, es[i].key) == Ok(leaf);
      assert i > 0 ==> es[i - 1].key < es[i].key;
      var v := s.nodes[leaf];
      hide Holds, Inserted, FastLeaf, AllRoute, AscendingFrom;
      if !Holds(v.es, es[i].key) {
        var es1 := Inserted(v.es, es[i]);
        InsertedLength(v.es, es[i]);
        LeafRewritten(s, leaf, es1);
        var s1 := s.Set(leaf, Leaf(es1, v.next));
        AllRouteSame(s, s1, path, es, i, leaf);
        RouteTail(s1, path, es, i, leaf);
        FillIsEach(s1, path, leaf, es, i + 1);
      }
    }
  }

  lemma RouteTail(s: State, path: seq<nat>, es: seq<Entry>, i: nat, leaf: nat)
    requires AllShaped(s.nodes) && AllRoute(s, path, es, i, leaf)
    ensures AllRoute(s, path, es, i + 1, leaf)
    ensures AscendingFrom(es, i) ==> AscendingFrom(es, i + 1)
  {
  }

  // The other way round: a run of single inserts fits, and routes to one leaf.
  lemma {:induction false} EachFits(s: State, path: seq<nat>, es: seq<Entry>, i: nat)
    requires AllShaped(s.nodes) && Roomy(s) && i < |es| && |path| > 0
    requires InsertEach(s, path, es, i).Ok?
    ensures var leaf := path[|path| - 1];
            && leaf in s.nodes && s.nodes[leaf].Leaf? && |s.nodes[leaf].es| + |es| - i <= s.fanout
            && AllRoute(s, path, es, i, leaf)
    decreases |es| - i
  {
    var leaf := path[|path| - 1];
    assert FastLeaf(s, path, es[i].key) == Ok(leaf);
    var v := s.nodes[leaf];
    var es1 := Inserted(v.es, es[i]);
    InsertedLength(v.es, es[i]);
    hide Holds, Inserted, FastLeaf;
    if i + 1 < |es| {
      LeafRewritten(s, leaf, es1);
      var s1 := s.Set(leaf, Leaf(es1, v.next));
      EachFits(s1, path, es, i + 1);
      SameBack(s, leaf, es1, v.next);
      AllRouteSame(s1, s, path, es, i + 1, leaf);
    }
  }

  lemma SameBack(s: State, leaf: nat, es: seq<Entry>, next: nat)
    requires leaf in s.nodes && s.nodes[leaf].Leaf? && s.nodes[leaf].next == next
    ensures SameStructure(s.Set(leaf, Leaf(es, next)), s)
  {
    var s' := s.Set(leaf, Leaf(es, next));
    assert s'.nodes.Keys == s.nodes.Keys;
    assert s == s'.(nodes := s.nodes);
  }

  // Along a path that is open for one key, the unchecked walk accepts what the checked one does.
  lemma {:induction false} RoutesIff(s: State, path: seq<nat>, k1: Key, k2: Key, lvl: nat, want: nat)
    requires lvl < |path| && AllShaped(s.nodes) && Descend(s, path, k1, lvl, want).Ok?
    ensures PathOpen(s.nodes, path, lvl)
    ensures RoutesToLeaf(s, path, k2, lvl) <==> Descend(s, path, k2, lvl, want).Ok?
    decreases |path| - lvl
  {
    if lvl < |path| - 1 {
      var v := s.nodes[path[lvl]];
      RoutesIff(s, path, k1, k2, lvl + 1, v.kids[Route(v.keys, k1)]);
    }
  }

  // ---- keys between two keys of one leaf belong to that leaf ----

  lemma RouteMonotone(keys: seq<Key>, kids: seq<Tree>, k1: Key, k2: Key, h: nat, lo: int, hi: int, c: Occ)
    requires WFKids(keys, kids, h, lo, hi, c) && k1 <= k2
    ensures Route(keys, k1) <= Route(keys, k2)
  {
    WFKidsSorted(keys, kids, h, lo, hi, c);
  }

  lemma SameKid(kids: seq<Tree>, i: nat, j: nat)
    requires i < |kids| && j < |kids| && NoDup(IdsOf(kids)) && kids[i].idx == kids[j].idx
    requires kids[i].idx in Ids(kids[i]) && kids[j].idx in Ids(kids[j])
    ensures i == j
  {
    hide Ids, IdsOf, NoDup;
    if i < j {
      Shared(kids, i, j);
    } else if j < i {
      Shared(kids, j, i);
    }
  }

  lemma Shared(kids: seq<Tree>, i: nat, j: nat)
    requires i < j < |kids| && NoDup(IdsOf(kids))
    ensures forall x: nat :: x in Ids(kids[i]) ==> x !in Ids(kids[j])
  {
    hide Ids, IdsOf, NoDup;
    PartsDisjoint(kids, j, j + 1);
    assert kids[j..j + 1] == [kids[j]];
    FlattenOne(kids[j]);
    assert kids[..j][i] == kids[i];
    IdsOfMember(kids[..j], i);
  }

  lemma TopInIds(t: Tree)
    ensures t.idx in Ids(t)
  {
  }

  lemma KidPath(t: Tree, key: Key, h: nat, lo: int, hi: int, c: Occ)
    requires WFNode(t, h, lo, hi, c) && lo <= key < hi && t.TNode?
    ensures |t.kids| == |t.keys| + 1
    ensures var a := KidFor(t, key);
            && PathIn(t, key) == [t.idx] + PathIn(a, key)
            && |PathIn(a, key)| > 0 && PathIn(a, key)[0] == a.idx
  {
    RouteRange(t.keys, t.kids, key, h - 1, lo, hi, c);
  }

  lemma SameRoute(t: Tree, k1: Key, k2: Key, h: nat, lo: int, hi: int, c: Occ)
    requires WFNode(t, h, lo, hi, c) && lo <= k1 < hi && lo <= k2 < hi && NoDup(Ids(t)) && t.TNode?
    requires PathIn(t, k1) == PathIn(t, k2)
    ensures Route(t.keys, k1) == Route(t.keys, k2) && |t.kids| == |t.keys| + 1
    ensures PathIn(KidFor(t, k1), k1) == PathIn(KidFor(t, k2), k2)
  {
    NoDupKids(t);
    KidPath(t, k1, h, lo, hi, c);
    KidPath(t, k2, h, lo, hi, c);
    var a, b := KidFor(t, k1), KidFor(t, k2);
    hide PathIn, WFNode, Ids, IdsOf, NoDup;
    assert PathIn(a, k1) == PathIn(t, k1)[1..] && PathIn(b, k2) == PathIn(t, k2)[1..];
    TopInIds(a);
    TopInIds(b);
    SameKid(t.kids, Route(t.keys, k1), Route(t.keys, k2));
  }

  lemma KidRange(t: Tree, key: Key, h: nat, lo: int, hi: int, c: Occ)
    requires WFNode(t, h, lo, hi, c) && lo <= key < hi && t.TNode? && NoDup(Ids(t))
    ensures |t.kids| == |t.keys| + 1 && h > 1
    ensures var j := Route(t.keys, key);
            && LoAt(t.keys, lo, j) <= key < HiAt(t.keys, hi, j)
            && WFNode(t.kids[j], h - 1, LoAt(t.keys, lo, j), HiAt(t.keys, hi, j), c) && NoDup(Ids(t.kids[j]))
  {
    RouteRange(t.keys, t.kids, key, h - 1, lo, hi, c);
    var j := Route(t.keys, key);
    NoDupKids(t);
    KidWF(t.keys, t.kids, j, h - 1, lo, hi, c);
    IdsOfMember(t.kids, j);
    NoDupPart(Ids(t.kids[j]), IdsOf(t.kids));
  }

  lemma RouteBetween(t: Tree, k1: Key, k: Key, k2: Key, h: nat, lo: int, hi: int, c: Occ)
    requires WFNode(t, h, lo, hi, c) && k1 <= k <= k2 && t.TNode? && Route(t.keys, k1) == Route(t.keys, k2)
    ensures Route(t.keys, k) == Route(t.keys, k1)
  {
    RouteMonotone(t.keys, t.kids, k1, k, h - 1, lo, hi, c);
    RouteMonotone(t.keys, t.kids, k, k2, h - 1, lo, hi, c);
  }

  lemma {:induction false} PathBetween(t: Tree, k1: Key, k: Key, k2: Key, h: nat, lo: int, hi: int, c: Occ)
    requires WFNode(t, h, lo, hi, c) && lo <= k1 <= k <= k2 < hi && NoDup(Ids(t))
    requires PathIn(t, k1) == PathIn(t, k2)
    ensures PathIn(t, k) == PathIn(t, k1)
    decreases t
  {
    if t.TNode? {
      hide WFNode, NoDup, Ids, Route;
      KidRange(t, k1, h, lo, hi, c);
      KidRange(t, k2, h, lo, hi, c);
      SameRoute(t, k1, k2, h, lo, hi, c);
      RouteBetween(t, k1, k, k2, h, lo, hi, c);
      var j := Route(t.keys, k1);
      PathBetween(t.kids[j], k1, k, k2, h - 1, LoAt(t.keys, lo, j), HiAt(t.keys, hi, j), c);
    }
  }

  lemma SearchPathBetween(s: State, k1: Key, k: Key, k2: Key)
    requires Valid(s) && s.height > 0 && k1 <= k <= k2 && SearchPath(s, k1) == SearchPath(s, k2)
    ensures SearchPath(s, k) == SearchPath(s, k1)
  {
    var t := TreeOf(s);
    KeysDistinct(s.nodes, Ids(t));
    PathBetween(t, k1, k, k2, s.height, 0, KEY_LIMIT, Occ(s.fanout, 0));
  }

  lemma {:induction false} AscendingPairs(es: seq<Entry>, i: nat, j: nat)
    requires StrictlyAscending(es) && i <= j < |es|
    ensures es[i].key <= es[j].key
    decreases j - i
  {
    if i < j {
      AscendingPairs(es, i, j - 1);
    }
  }

  // First and last key route to a leaf, so all of an ascending run does.
  lemma RunRoutes(s: State, path: seq<nat>, es: seq<Entry>, leaf: nat)
    requires Valid(s) && AllShaped(s.nodes) && StrictlyAscending(es) && |es| > 0
    requires FastLeaf(s, path, es[0].key) == Ok(leaf)
    requires RoutesToLeaf(s, path, es[|es| - 1].key, 0)
    ensures AllRoute(s, path, es, 0, leaf)
  {
    var last := es[|es| - 1].key;
    RoutesIff(s, path, es[0].key, last, 0, s.root);
    if s.height == 0 {
      NoPathInEmptyTree(s, path, last);
    }
    PathSound(s, path, es[0].key);
    PathSound(s, path, last);
    assert FastLeaf(s, path, last).Ok? && leaf == path[|path| - 1];
    hide SearchPath, FastLeaf, Descend, Valid;
    forall j | 0 <= j < |es| ensures FastLeaf(s, path, es[j].key) == Ok(leaf) {
      AscendingPairs(es, 0, j);
      AscendingPairs(es, j, |es| - 1);
      SearchPathBetween(s, es[0].key, es[j].key, last);
      PathSound(s, path, es[j].key);
    }
  }

  lemma {:induction false} FillAscends(s: State, leaf: nat, es: seq<Entry>, i: nat)
    requires leaf in s.nodes && s.nodes[leaf].Leaf? && FillLeaf(s, leaf, es, i).Ok?
    ensures AscendingFrom(es, i)
    decreases |es| - i
  {
    if i < |es| {
      FillAscends(s.Set(leaf, Leaf(Inserted(s.nodes[leaf].es, es[i]), s.nodes[leaf].next)), leaf, es, i + 1);
    }
  }

  lemma AscendingAll(es: seq<Entry>)
    ensures AscendingFrom(es, 0) <==> StrictlyAscending(es)
  {
  }

  // BulkInsertFast is accepted exactly when its keys ascend and InsertFast accepts them one
  // after the other, and then it does the same.
  lemma BulkIsSingles(s: State, path: seq<nat>, es: seq<Entry>)
    requires Valid(s) && AllShaped(s.nodes) && |es| > 0 && |path| > 0
    ensures BulkInsertFast(s, path, es).Ok? <==> StrictlyAscending(es) && InsertEach(s, path, es, 0).Ok?
    ensures BulkInsertFast(s, path, es).Ok? ==> BulkInsertFast(s, path, es) == InsertEach(s, path, es, 0)
  {
    ValidShaped(s);
    AscendingAll(es);
    var first, last, leaf := es[0].key, es[|es| - 1].key, path[|path| - 1];
    hide Valid, RoutesToLeaf, FillLeaf, InsertEach, AscendingFrom;
    if BulkInsertFast(s, path, es).Ok? {
      FillAscends(s, leaf, es, 0);
      RunRoutes(s, path, es, leaf);
      hide FastLeaf, AllRoute;
      FillIsEach(s, path, leaf, es, 0);
    } else if StrictlyAscending(es) && InsertEach(s, path, es, 0).Ok? {
      EachFits(s, path, es, 0);
      assert FastLeaf(s, path, first) == Ok(leaf) && FastLeaf(s, path, last) == Ok(leaf);
      RoutesIff(s, path, first, last, 0, s.root);
      hide AllRoute, Descend;
      FillIsEach(s, path, leaf, es, 0);
    }
  }

  // ---- what a run of single inserts does to the map ----

  ghost function AddAll(m: map<Key, Val>, es: seq<Entry>, i: nat): map<Key, Val>
    decreases |es| - i
  {
    if i >= |es| then m else AddAll(m[es[i].key := es[i].val], es, i + 1)
  }

  lemma OneInsert(s: State, lm: nat, e: Entry, path: seq<nat>)
    requires ValidWith(s, lm) && Valid(s) && AllShaped(s.nodes) && InsertFast(s, e, path).Ok?
    ensures var s1 := InsertFast(s, e, path).value;
            && ValidWith(s1, lm) && Valid(s1) && AllShaped(s1.nodes)
            && e.key !in Contents(s) && Contents(s1) == Contents(s)[e.key := e.val]
  {
    FastKeepsShape(s, e, path);
    hide ValidWith, Contents, InsertFast, StateEntries, SearchPath, LeafOf, AllShaped, Edited;
    InsertFastCorrect(s, lm, e, path);
  }

  lemma {:induction false} EachCorrect(s: State, lm: nat, path: seq<nat>, es: seq<Entry>, i: nat)
    requires ValidWith(s, lm) && Valid(s) && AllShaped(s.nodes) && InsertEach(s, path, es, i).Ok?
    ensures var s' := InsertEach(s, path, es, i).value;
            && ValidWith(s', lm) && Valid(s') && AllShaped(s'.nodes)
            && Contents(s') == AddAll(Contents(s), es, i)
            && forall j | i <= j < |es| :: es[j].key !in Contents(s)
    decreases |es| - i
  {
    hide ValidWith, Valid, Contents, InsertFast, AllShaped;
    if i < |es| {
      OneInsert(s, lm, es[i], path);
      EachCorrect(InsertFast(s, es[i], path).value, lm, path, es, i + 1);
    }
  }

  lemma BulkCorrect(s: State, lm: nat, path: seq<nat>, es: seq<Entry>)
    requires ValidWith(s, lm) && Valid(s) && AllShaped(s.nodes) && BulkInsertFast(s, path, es).Ok?
    ensures var s' := BulkInsertFast(s, path, es).value;
            && ValidWith(s', lm) && Valid(s')
            && Contents(s') == AddAll(Contents(s), es, 0)
            && forall j | 0 <= j < |es| :: es[j].key !in Contents(s)
  {
    if |es| > 0 {
      BulkIsSingles(s, path, es);
      hide BulkInsertFast;
      EachCorrect(s, lm, path, es, 0);
    }
  }
}
