// What becomes of a path that was resolved earlier: how the engine refuses it, and why.
module Staleness {
  import opened Base
  import opened NodeViews
  import opened Shapes
  import opened Engine
  import opened Represent
  import opened Search
  import opened MapModel
  import opened HotTheorems
  import opened Structure
  import opened Scans
  import opened Runs
  import opened Histories
  import Epochs

  // On how many levels from the root on two paths agree.
  function Common(a: seq<nat>, b: seq<nat>): (l: nat)
    ensures l <= |a| && l <= |b|
    ensures forall i | 0 <= i < l :: a[i] == b[i]
    ensures l < |a| && l < |b| ==> a[l] != b[l]
  {
    if a == [] || b == [] || a[0] != b[0] then 0 else 1 + Common(a[1..], b[1..])
  }

  // The walk's answer to the accounts `path` where the search path is `right`.
  function Answer(st: Store, path: seq<nat>, right: seq<nat>): Result<nat>
    requires |path| == |right| > 0
  {
    var l := Common(path, right);
    if l == |path| then Ok(path[l - 1]) else if path[l] in st then Err(BadPath) else Err(NodeTooSmall)
  }

  lemma AnswerStep(st: Store, x: nat, path: seq<nat>, right: seq<nat>)
    requires |path| == |right| > 0
    ensures Answer(st, [x] + path, [x] + right) == Answer(st, path, right)
  {
    assert ([x] + path)[1..] == path && ([x] + right)[1..] == right;
  }

  lemma AnswerOff(st: Store, path: seq<nat>, right: seq<nat>)
    requires |path| == |right| > 0 && path[0] != right[0]
    ensures Answer(st, path, right) == if path[0] in st then Err(BadPath) else Err(NodeTooSmall)
  {
  }

  lemma {:induction false} DescendAnswers(s: State, t: Tree, path: seq<nat>, key: Key, lvl: nat, h: nat, lo: int, hi: int, c: Occ)
    requires AllShaped(s.nodes) && Roomy(s) && Rep(s.nodes, t)
    requires WFNode(t, h, lo, hi, c) && c.fanout == s.fanout && lo <= key < hi
    requires |path| - lvl == h
    ensures |PathIn(t, key)| == h > 0 && Descend(s, path, key, lvl, t.idx) == Answer(s.nodes, path[lvl..], PathIn(t, key))
    decreases t
  {
    hide AllShaped, Answer, Roomy;
    PathLength(t, key, h, lo, hi, c);
    CheckAnswers(s, path[lvl], t.idx);
    if path[lvl] != t.idx {
      AnswerOff(s.nodes, path[lvl..], PathIn(t, key));
    } else if t.TLeaf? {
      LeafAnswers(s.nodes, path[lvl..], t.idx);
    } else {
      RouteRange(t.keys, t.kids, key, h - 1, lo, hi, c);
      var j := Route(t.keys, key);
      WFKid(t.keys, t.kids, j, h - 1, lo, hi, c);
      var k := t.kids[j];
      assert Rep(s.nodes, k);
      DescendAnswers(s, k, path, key, lvl + 1, h - 1, LoAt(t.keys, lo, j), HiAt(t.keys, hi, j), c);
      assert path[lvl..] == [t.idx] + path[lvl + 1..];
      AnswerStep(s.nodes, t.idx, path[lvl + 1..], PathIn(k, key));
    }
  }

  lemma CheckAnswers(s: State, acc: nat, want: nat)
    requires Roomy(s)
    ensures CheckNode(s, acc, want) ==
            if acc !in s.nodes then Some(NodeTooSmall) else if acc != want then Some(BadPath) else None
  {
  }

  lemma LeafAnswers(st: Store, path: seq<nat>, x: nat)
    requires path == [x]
    ensures Answer(st, path, [x]) == Ok(x)
  {
    assert Common(path, [x]) == 1;
  }

  // What a hot instruction says to any path whatever: no path, a path of another length, or the
  // first account off the search path decides, which is a wrong node if it is live and no node at
  // all if it has been closed.
  lemma WalkAnswers(s: State, path: seq<nat>, key: Key)
    requires Valid(s) && AllShaped(s.nodes)
    ensures |SearchPath(s, key)| == s.height
    ensures FastLeaf(s, path, key) ==
            if |path| == 0 then Err(TreeUninit) else if |path| != s.height then Err(BadPath)
            else Answer(s.nodes, path, SearchPath(s, key))
  {
    hide AllShaped, Answer, Descend;
    if s.height > 0 {
      StateLinked(s);
      hide Roomy;
      PathLength(TreeOf(s), key, s.height, 0, KEY_LIMIT, Occ(s.fanout, 0));
      if |path| == s.height {
        DescendAnswers(s, TreeOf(s), path, key, 0, s.height, 0, KEY_LIMIT, Occ(s.fanout, 0));
        assert path[0..] == path;
      }
    }
  }

  // ---- a path resolved earlier ----

  lemma LiveOnPath(s: State, key: Key)
    requires Valid(s)
    ensures forall x | x in SearchPath(s, key) :: x in s.nodes
  {
    if s.height > 0 {
      ValidShaped(s);
      hide Valid, AllShaped, SearchPath, LeafOf, Descend;
      PathSound(s, SearchPath(s, key), key);
      assert FastLeaf(s, SearchPath(s, key), key).Ok?;
    }
  }

  // The first account of `path` off the search path of `key`, in a tree of the same height, has
  // been closed.
  ghost predicate NodeGone(s: State, path: seq<nat>, key: Key)
    requires Valid(s)
  {
    && 0 < |path| == |SearchPath(s, key)|
    && (var l := Common(path, SearchPath(s, key)); l < |path| && path[l] !in s.nodes)
  }

  lemma EarlierPath(s': State, path: seq<nat>, key: Key)
    requires Valid(s') && AllShaped(s'.nodes)
    ensures var r := FastLeaf(s', path, key);
            && (r == Err(TreeUninit) <==> |path| == 0)
            && (|path| > 0 ==> (r.Ok? <==> path == SearchPath(s', key)))
            && (r == Err(NodeTooSmall) <==> NodeGone(s', path, key))
            && (r.Err? ==> r.error in {TreeUninit, NodeTooSmall, BadPath})
  {
    hide Valid, AllShaped, SearchPath, FastLeaf;
    WalkAnswers(s', path, key);
  }

  // A hot instruction on a path resolved in an earlier state of the run:
  // resolved on the empty tree, it is no path at all;
  // otherwise it is taken exactly if it still is the search path, and is else refused as a closed
  // account, if the first account off the search path has been closed and the height is the same,
  // or as a wrong path. Only where the epoch has moved is it refused.
  lemma StaleMeansMoved(s: State, ixs: seq<Ix>, key: Key)
    requires Valid(s)
    ensures var s', path := Run(s, ixs), SearchPath(s, key);
            && AllShaped(s'.nodes)
            && (var r := FastLeaf(s', path, key);
                && (r == Err(TreeUninit) <==> s.height == 0)
                && (s.height > 0 ==> (r.Ok? <==> path == SearchPath(s', key)))
                && (r == Err(NodeTooSmall) <==> NodeGone(s', path, key))
                && (s.height > 0 && r.Err? ==> (r == Err(NodeTooSmall) || r == Err(BadPath)) && s'.epoch > s.epoch))
            && forall x | x in path :: x in s.nodes
  {
    hide Valid, SearchPath, AllShaped, Run, FastLeaf, NodeGone;
    var s', path := Run(s, ixs), SearchPath(s, key);
    ValidShaped(s);
    ValidShaped(s');
    WalkAnswers(s, path, key);
    EarlierPath(s', path, key);
    LiveOnPath(s, key);
    RunFollows(s, ixs);
    if s'.epoch == s.epoch {
      SameEpoch(s, ixs);
    }
  }

  // The documented answer to a path that is no longer the search path, a wrong path, is given
  // exactly if the node that makes the difference is still live, or the height has changed.
  lemma BadPathIff(s: State, ixs: seq<Ix>, key: Key)
    requires Valid(s) && s.height > 0 && SearchPath(s, key) != SearchPath(Run(s, ixs), key)
    ensures var s', path := Run(s, ixs), SearchPath(s, key);
            && AllShaped(s'.nodes)
            && (FastLeaf(s', path, key) == Err(BadPath) <==>
                s'.height != s.height || (Common(path, SearchPath(s', key)) < |path| && path[Common(path, SearchPath(s', key))] in s'.nodes))
  {
    hide Valid, SearchPath, AllShaped, Run, FastLeaf;
    var s', path := Run(s, ixs), SearchPath(s, key);
    ValidShaped(s);
    ValidShaped(s');
    WalkAnswers(s, path, key);
    WalkAnswers(s', path, key);
  }

  // ---- a run that shows it ----

  // The one key of a tree goes and comes again.
  function Refill(): seq<Ix> {
    [IxDelete(DeleteRq(1, [1], [0], [])), IxInsert(Epochs.Item(1), [], [2])]
  }

  // The tree that leads to.
  function SecondLife(): State {
    State(4, 2, 1, 2, 2, 3, 2, map[2 := Leaf([Epochs.Item(1)], 0)])
  }

  lemma SecondWalk(s: State)
    requires s == SecondLife()
    ensures AllShaped(s.nodes) && FastLeaf(s, [1], 1) == Err(NodeTooSmall)
  {
    assert CheckNode(s, 1, 2) == Some(NodeTooSmall);
  }

  lemma Emptied()
    ensures AllShaped(Epochs.OneLeaf(1).nodes)
    ensures Exec(Epochs.OneLeaf(1), IxDelete(DeleteRq(1, [1], [0], []))) == State(4, 0, 0, 0, 0, 2, 1, map[])
  {
    hide Descend, AllShaped, Pos, Removed, Holds;
    Epochs.OneLeafPath(1, 1);
    Epochs.NoSides();
    var o := Epochs.OneLeaf(1);
    assert o.nodes[1] == Leaf([Epochs.Item(1)], 0);
    OnlyRemoved([Epochs.Item(1)], 1);
    assert DeleteUp(o, DeleteRq(1, [1], [0], []), 0) == Ok(Fall(o.Set(1, Leaf([], 0)), false));
  }

  lemma OnlyRemoved(es: seq<Entry>, key: Key)
    requires |es| == 1 && es[0].key == key
    ensures Holds(es, key) && Removed(es, key) == []
  {
    assert Pos(es, key) == 0;
  }

  lemma Refilled()
    ensures var s := State(4, 0, 0, 0, 0, 2, 1, map[]);
            AllShaped(s.nodes) && Exec(s, IxInsert(Epochs.Item(1), [], [2])) == SecondLife()
  {
    assert map[][2 := Leaf([], 0)][2 := Leaf([Epochs.Item(1)], 0)] == map[2 := Leaf([Epochs.Item(1)], 0)];
  }

  lemma RefillRun()
    ensures Valid(Epochs.OneLeaf(1))
    ensures Run(Epochs.OneLeaf(1), Refill()) == SecondLife()
  {
    hide Valid, AllShaped, Exec, Epochs.OneLeaf;
    Epochs.FirstRun(1);
    var one, two, a, b := Epochs.OneLeaf(1), State(4, 0, 0, 0, 0, 2, 1, map[]), Refill()[0], Refill()[1];
    Emptied();
    Refilled();
    Epochs.RunOne(one, a);
    Epochs.RunOne(two, b);
    RunConcat(one, [a], [b]);
    assert Refill() == [a] + [b];
  }

  // The path of the first tree's one leaf, resolved before the key goes and comes again, is refused
  // in a tree of the same height, and as an account that holds no node: not as the wrong path the
  // documentation says a stale path is.
  lemma StaleNotBadPath()
    ensures Valid(InitTree(4)) && AllShaped(Run(Run(InitTree(4), Epochs.FirstKeys(1)), Refill()).nodes)
    ensures var s := Run(InitTree(4), Epochs.FirstKeys(1));
            && s.height == Run(s, Refill()).height == 1 && SearchPath(s, 1) == [1]
            && FastLeaf(Run(s, Refill()), SearchPath(s, 1), 1) == Err(NodeTooSmall)
  {
    hide Valid, AllShaped, SearchPath, Refill, Epochs.FirstKeys, InitTree, LeafOf, FastLeaf;
    Epochs.FirstRun(1);
    RefillRun();
    ValidShaped(Run(Epochs.OneLeaf(1), Refill()));
    Epochs.OneLeafPath(1, 1);
    PathSound(Epochs.OneLeaf(1), [1], 1);
    SecondWalk(SecondLife());
  }

  // ---- retrying ----

  // A refusal that resolving anew can cure.
  predicate Outdated(r: Result<nat>) {
    r == Err(BadPath) || r == Err(NodeTooSmall)
  }

  // Every attempt resolves its path anew, and then gaps[i] lands before it does.
  ghost predicate AllStale(s: State, gaps: seq<seq<Ix>>, key: Key)
    requires Valid(s)
    decreases |gaps|
  {
    gaps == [] ||
    (var s' := Run(s, gaps[0]);
     ValidShaped(s');
     Outdated(FastLeaf(s', SearchPath(s, key), key)) && AllStale(s', gaps[1..], key))
  }

  ghost function RunGaps(s: State, gaps: seq<seq<Ix>>): (s': State)
    requires Valid(s)
    ensures Valid(s')
    decreases |gaps|
  {
    if gaps == [] then s else RunGaps(Run(s, gaps[0]), gaps[1..])
  }

  // A client whose attempts all went stale has seen the structure change at least once an attempt.
  lemma {:induction false} StaleAttempts(s: State, gaps: seq<seq<Ix>>, key: Key)
    requires Valid(s) && AllStale(s, gaps, key)
    ensures RunGaps(s, gaps).epoch >= s.epoch + |gaps|
    decreases |gaps|
  {
    hide Valid, SearchPath, AllShaped, Run, FastLeaf, NodeGone;
    if gaps != [] {
      StaleMeansMoved(s, gaps[0], key);
      StaleAttempts(Run(s, gaps[0]), gaps[1..], key);
    }
  }
}
