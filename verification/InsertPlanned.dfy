// The spares a client supplies are enough: when an Insert with fresh spare accounts succeeds.
module InsertPlanned {
  import opened Base
  import opened NodeViews
  import opened Shapes
  import opened Engine
  import opened Represent
  import opened Search
  import opened Edits
  import opened TopProof
  import opened InsertProof
  import opened MapModel
  import opened HotPath
  import opened HotTheorems

  // The addresses of the next `n` node indices.
  function NextSpares(highWater: nat, n: nat): (spares: seq<nat>)
    ensures |spares| == n
    ensures forall i | 0 <= i < n :: spares[i] == highWater + 1 + i
  {
    seq(n, i requires 0 <= i < n => highWater + 1 + i)
  }

  ghost predicate InOrder(spares: seq<nat>, highWater: nat) {
    forall i | 0 <= i < |spares| :: spares[i] == highWater + 1 + i
  }

  ghost predicate Distinct(path: seq<nat>) {
    forall i, j | 0 <= i < j < |path| :: path[i] != path[j]
  }

  // Every node from level `lvl` down is full.
  predicate FullFrom(st: Store, path: seq<nat>, lvl: nat, fanout: nat) {
    forall i | lvl <= i < |path| :: path[i] in st && Count(st[path[i]]) == fanout
  }

  // What the levels below a node leave for it.
  ghost predicate Climbed(s: State, u: Rise, path: seq<nat>, lvl: nat) {
    && u.used <= |path| - lvl
    && u.s.highWater == s.highWater + u.used && u.s.fanout == s.fanout && u.s.height == s.height
    && (forall x | x in u.s.nodes :: x <= u.s.highWater)
    && (forall x | x in s.nodes && x !in path[lvl..] :: x in u.s.nodes && u.s.nodes[x] == s.nodes[x])
  }

  lemma ClimbLeaf(s: State, path: seq<nat>, e: Entry, spares: seq<nat>, lvl: nat)
    requires PathOpen(s.nodes, path, lvl) && lvl == |path| - 1
    requires forall x | x in s.nodes :: x <= s.highWater
    requires InOrder(spares, s.highWater) && |spares| >= 1
    requires var es := s.nodes[path[lvl]].es; !Holds(es, e.key) && |es| <= s.fanout && s.fanout >= 4
    ensures InsertUp(s, path, e, spares, lvl).Ok?
    ensures var u := InsertUp(s, path, e, spares, lvl).value;
            Climbed(s, u, path, lvl) && (u.split <==> FullFrom(s.nodes, path, lvl, s.fanout))
  {
    InsertedLength(s.nodes[path[lvl]].es, e);
    hide Inserted, Holds;
    assert path[lvl..] == [path[lvl]];
  }

  lemma ClimbInner(u: Rise, idx: nat, spares: seq<nat>, highWater: nat)
    requires idx in u.s.nodes && u.s.nodes[idx].Inner? && Shaped(u.s.nodes[idx]) && Count(u.s.nodes[idx]) <= u.s.fanout
    requires u.used < |spares| && InOrder(spares, highWater) && u.s.highWater == highWater + u.used
    requires forall x | x in u.s.nodes :: x <= u.s.highWater
    ensures InsertInner(u, idx, spares).Ok?
    ensures var r := InsertInner(u, idx, spares).value;
            && r.used <= u.used + 1 && r.s.highWater == highWater + r.used
            && r.s.fanout == u.s.fanout && r.s.height == u.s.height
            && (forall x | x in r.s.nodes :: x <= r.s.highWater)
            && (forall x | x in u.s.nodes && x != idx :: x in r.s.nodes && r.s.nodes[x] == u.s.nodes[x])
            && (r.split <==> Count(u.s.nodes[idx]) == u.s.fanout)
  {
    hide LowerBound;
  }

  lemma SuffixIn(path: seq<nat>, lvl: nat)
    requires lvl < |path| && Distinct(path)
    ensures path[lvl..] == [path[lvl]] + path[lvl + 1..]
    ensures path[lvl] !in path[lvl + 1..]
  {
  }

  lemma {:induction false} InsertUpClimbs(s: State, path: seq<nat>, e: Entry, spares: seq<nat>, lvl: nat)
    requires PathOpen(s.nodes, path, lvl) && Distinct(path)
    requires forall x | x in s.nodes :: x <= s.highWater && Count(s.nodes[x]) <= s.fanout
    requires InOrder(spares, s.highWater) && |spares| >= |path| - lvl && s.fanout >= 4
    requires !Holds(s.nodes[path[|path| - 1]].es, e.key)
    ensures InsertUp(s, path, e, spares, lvl).Ok?
    ensures var u := InsertUp(s, path, e, spares, lvl).value;
            Climbed(s, u, path, lvl) && (u.split <==> FullFrom(s.nodes, path, lvl, s.fanout))
    decreases |path| - lvl
  {
    if lvl == |path| - 1 {
      hide InsertUp;
      ClimbLeaf(s, path, e, spares, lvl);
    } else {
      InsertUpClimbs(s, path, e, spares, lvl + 1);
      SuffixIn(path, lvl);
      var u := InsertUp(s, path, e, spares, lvl + 1).value;
      hide Holds, InsertInner, Distinct;
      assert path[lvl] in u.s.nodes && u.s.nodes[path[lvl]] == s.nodes[path[lvl]];
      if u.split {
        ClimbInner(u, path[lvl], spares, s.highWater);
      }
    }
  }

  lemma {:induction false} PathDistinct(t: Tree, key: Key, h: nat, lo: int, hi: int, c: Occ)
    requires WFNode(t, h, lo, hi, c) && lo <= key < hi && NoDup(Ids(t))
    ensures var p := PathIn(t, key);
            Distinct(p) && forall i | 0 <= i < |p| :: p[i] in Ids(t)
    decreases t
  {
    if t.TNode? {
      RouteRange(t.keys, t.kids, key, h - 1, lo, hi, c);
      var j := Route(t.keys, key);
      KidWF(t.keys, t.kids, j, h - 1, lo, hi, c);
      NoDupKids(t);
      IdsOfMember(t.kids, j);
      NoDupPart(Ids(t.kids[j]), IdsOf(t.kids));
      PathDistinct(t.kids[j], key, h - 1, LoAt(t.keys, lo, j), HiAt(t.keys, hi, j), c);
      hide IdsOf, WFKids;
      var q := PathIn(t.kids[j], key);
      assert PathIn(t, key) == [t.idx] + q;
      forall i | 0 <= i < |q| ensures q[i] in IdsOf(t.kids) && q[i] != t.idx { }
    }
  }

  // Nothing on the search path has room.
  ghost predicate PathFull(s: State, key: Key)
    requires Valid(s)
  {
    FullFrom(s.nodes, SearchPath(s, key), 0, s.fanout)
  }

  lemma SearchPathFacts(s: State, key: Key)
    requires Valid(s) && s.height > 0 && AllShaped(s.nodes)
    ensures var p := SearchPath(s, key);
            && |p| == s.height && Distinct(p) && Descend(s, p, key, 0, s.root).Ok?
            && p[s.height - 1] == LeafOf(s, key).idx
    ensures forall x | x in s.nodes :: x <= s.highWater && Count(s.nodes[x]) <= s.fanout
  {
    var t := TreeOf(s);
    ValidShaped(s);
    PathSound(s, SearchPath(s, key), key);
    KeysDistinct(s.nodes, Ids(t));
    PathDistinct(t, key, s.height, 0, KEY_LIMIT, Occ(s.fanout, 0));
    PathLength(t, key, s.height, 0, KEY_LIMIT, Occ(s.fanout, 0));
  }

  lemma GrowRootOk(u: Rise, spares: seq<nat>, highWater: nat)
    requires u.used < |spares| && InOrder(spares, highWater) && u.s.highWater == highWater + u.used
    requires forall x | x in u.s.nodes :: x <= u.s.highWater
    ensures GrowRoot(u, spares).Ok? <==> u.s.height < MAX_TREE_HEIGHT
  {
  }

  // With the search path and height + 1 (or more) fresh spares, Insert fails for one of two
  // reasons only: the key is there already, or the tree would grow past its largest height.
  lemma InsertPlannedIff(s: State, e: Entry, spares: seq<nat>)
    requires Valid(s) && AllShaped(s.nodes)
    requires InOrder(spares, s.highWater) && |spares| > s.height
    ensures Insert(s, e, SearchPath(s, e.key), spares).Ok? <==>
            e.key !in Contents(s) && !(s.height == 32 && PathFull(s, e.key))
  {
    var path := SearchPath(s, e.key);
    if s.height == 0 {
      assert path == [] && Contents(s) == map[];
    } else {
      SearchPathFacts(s, e.key);
      LeafSorted(s, e.key);
      PathSound(s, path, e.key);
      assert s.height <= MAX_TREE_HEIGHT && FanoutOk(s.fanout);
      hide Valid, SearchPath, LeafOf, Contents, Holds, Descend, Distinct;
      assert Holds(s.nodes[path[s.height - 1]].es, e.key) <==> e.key in Contents(s);
      if e.key in Contents(s) {
        InsertUpRefuses(s, path, e, spares, 0);
      } else {
        InsertUpClimbs(s, path, e, spares, 0);
        var u := InsertUp(s, path, e, spares, 0).value;
        GrowRootOk(u, spares, s.highWater);
        hide InsertUp, GrowRoot;
        SplitUses(s, path, e, spares, 0);
      }
    }
  }

  lemma {:induction false} SplitUses(s: State, path: seq<nat>, e: Entry, spares: seq<nat>, lvl: nat)
    requires PathOpen(s.nodes, path, lvl)
    ensures var u := InsertUp(s, path, e, spares, lvl); u.Ok? && u.value.split ==> u.value.used > 0
    decreases |path| - lvl
  {
    hide LowerBound, Inserted, Holds;
    if lvl < |path| - 1 {
      SplitUses(s, path, e, spares, lvl + 1);
    }
  }

  lemma {:induction false} InsertUpRefuses(s: State, path: seq<nat>, e: Entry, spares: seq<nat>, lvl: nat)
    requires PathOpen(s.nodes, path, lvl)
    requires Holds(s.nodes[path[|path| - 1]].es, e.key)
    ensures InsertUp(s, path, e, spares, lvl) == Err(DuplicateKey)
    decreases |path| - lvl
  {
    if lvl < |path| - 1 {
      InsertUpRefuses(s, path, e, spares, lvl + 1);
    }
  }

  // A duplicate is refused as such, whatever spares come with it.
  lemma InsertDuplicate(s: State, e: Entry, spares: seq<nat>)
    requires Valid(s) && AllShaped(s.nodes) && e.key in Contents(s)
    ensures Insert(s, e, SearchPath(s, e.key), spares) == Err(DuplicateKey)
  {
    if s.height > 0 {
      var path := SearchPath(s, e.key);
      SearchPathFacts(s, e.key);
      LeafSorted(s, e.key);
      PathSound(s, path, e.key);
      assert s.height <= MAX_TREE_HEIGHT;
      hide Valid, SearchPath, LeafOf, Contents, Holds, Descend, Distinct;
      InsertUpRefuses(s, path, e, spares, 0);
    }
  }
}
