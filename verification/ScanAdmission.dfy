// Exactly which leaf accounts a range scan accepts: those it looks at have to be the neighbours of
// its start leaf, and those behind the leaf that ends it do not matter.
module ScanAdmission {
  import opened Base
  import opened NodeViews
  import opened Shapes
  import opened Engine
  import opened Represent
  import opened HotTheorems
  import opened Structure
  import opened LeafChain
  import opened Scans

  // ---- forward ----

  // All of these entries are returned, and there is room for more.
  ghost predicate GoesUp(up: seq<Entry>, end: Key, room: nat) {
    |up| < room && forall e | e in up :: e.key <= end
  }

  // So are the entries `es`, and all of the leaves from p + 1 up to q.
  ghost predicate UpTill(st: Store, ids: seq<nat>, p: nat, es: seq<Entry>, q: nat, end: Key, room: nat)
    requires p < q <= |ids|
  {
    GoesUp(es + Gathered(st, ids[p + 1..q]), end, room)
  }

  // With the entries `es` of leaf ids[p] still ahead, each account looked at is the next leaf.
  ghost predicate UpInStep(st: Store, ids: seq<nat>, p: nat, es: seq<Entry>, end: Key, extra: seq<nat>, room: nat)
    requires p < |ids|
  {
    forall q | p < q < |ids| && q <= p + |extra| && UpTill(st, ids, p, es, q, end, room) :: extra[q - p - 1] == ids[q]
  }

  lemma UpTillStep(st: Store, ids: seq<nat>, p: nat, es: seq<Entry>, q: nat, end: Key, room: nat)
    requires p < q <= |ids| && es != [] && room > 0
    ensures UpTill(st, ids, p, es, q, end, room) <==> es[0].key <= end && UpTill(st, ids, p, es[1..], q, end, room - 1)
  {
    hide Gathered;
    var rest := Gathered(st, ids[p + 1..q]);
    assert es + rest == [es[0]] + (es[1..] + rest);
    EitherSide([es[0]], es[1..] + rest);
    assert es[0] in [es[0]];
  }

  lemma UpTillNext(st: Store, ids: seq<nat>, p: nat, q: nat, end: Key, room: nat)
    requires p + 1 < q <= |ids| && ids[p + 1] in st && st[ids[p + 1]].Leaf?
    ensures UpTill(st, ids, p, [], q, end, room) <==> UpTill(st, ids, p + 1, st[ids[p + 1]].es, q, end, room)
  {
    hide Gathered, GoesUp;
    GatheredCons(st, ids, p + 1, q);
    PastAll([], Gathered(st, ids[p + 1..q]));
  }

  lemma UpTillNow(st: Store, ids: seq<nat>, p: nat, end: Key, room: nat)
    requires p < |ids| && room > 0
    ensures p + 1 <= |ids| && UpTill(st, ids, p, [], p + 1, end, room)
  {
    NothingGathered(st, ids[p + 1..p + 1]);
  }

  lemma UpStepIn(st: Store, ids: seq<nat>, p: nat, es: seq<Entry>, end: Key, extra: seq<nat>, room: nat)
    requires p < |ids| && es != [] && room > 0
    ensures UpInStep(st, ids, p, es, end, extra, room) <==> es[0].key > end || UpInStep(st, ids, p, es[1..], end, extra, room - 1)
  {
    hide UpTill;
    forall q | p < q < |ids|
      ensures UpTill(st, ids, p, es, q, end, room) <==> es[0].key <= end && UpTill(st, ids, p, es[1..], q, end, room - 1)
    {
      UpTillStep(st, ids, p, es, q, end, room);
    }
  }

  lemma UpStepOver(st: Store, ids: seq<nat>, p: nat, end: Key, extra: seq<nat>, room: nat)
    requires p + 1 < |ids| && |extra| > 0 && room > 0 && ids[p + 1] in st && st[ids[p + 1]].Leaf?
    ensures UpInStep(st, ids, p, [], end, extra, room) <==>
            extra[0] == ids[p + 1] && UpInStep(st, ids, p + 1, st[ids[p + 1]].es, end, extra[1..], room)
  {
    hide UpTill;
    UpTillNow(st, ids, p, end, room);
    forall q | p + 1 < q < |ids|
      ensures UpTill(st, ids, p, [], q, end, room) <==> UpTill(st, ids, p + 1, st[ids[p + 1]].es, q, end, room)
    {
      UpTillNext(st, ids, p, q, end, room);
    }
    assert forall k | 0 <= k < |extra[1..]| :: extra[1..][k] == extra[k + 1];
  }

  lemma {:induction false} ScanUpIff(s: State, ids: seq<nat>, p: nat, i: nat, end: Key, extra: seq<nat>, room: nat)
    requires Linked(s, ids) && Roomy(s) && p < |ids|
    requires ids[p] in s.nodes && s.nodes[ids[p]].Leaf? && i <= |s.nodes[ids[p]].es|
    ensures ScanUp(s, ids[p], i, end, extra, room).Ok? <==> UpInStep(s.nodes, ids, p, s.nodes[ids[p]].es[i..], end, extra, room)
    decreases |extra|, |s.nodes[ids[p]].es| - i
  {
    hide Linked, Roomy, UpInStep;
    var es := s.nodes[ids[p]].es;
    LinkedAt(s, ids, p);
    if room == 0 || p + 1 == |ids| || |extra| == 0 {
      UpNoMore(s.nodes, ids, p, es[i..], end, extra, room);
    }
    if room > 0 && i < |es| {
      UpStepIn(s.nodes, ids, p, es[i..], end, extra, room);
      assert es[i..][1..] == es[i + 1..];
      ScanUpIff(s, ids, p, i + 1, end, extra, room - 1);
    } else if room > 0 && p + 1 < |ids| && |extra| > 0 {
      LinkedAt(s, ids, p + 1);
      assert es[i..] == [];
      UpStepOver(s.nodes, ids, p, end, extra, room);
      NextChecked(s, extra[0], ids[p + 1]);
      ScanUpIff(s, ids, p + 1, 0, end, extra[1..], room);
      assert s.nodes[ids[p + 1]].es[0..] == s.nodes[ids[p + 1]].es;
    }
  }

  lemma UpNoMore(st: Store, ids: seq<nat>, p: nat, es: seq<Entry>, end: Key, extra: seq<nat>, room: nat)
    requires p < |ids| && (room == 0 || p + 1 == |ids| || |extra| == 0)
    ensures UpInStep(st, ids, p, es, end, extra, room)
  {
  }

  lemma NextChecked(s: State, acc: nat, want: nat)
    requires Roomy(s) && want in s.nodes
    ensures CheckNode(s, acc, want) == None <==> acc == want
  {
  }

  // ---- backward ----

  ghost predicate GoesDown(down: seq<Entry>, end: Key, room: nat) {
    |down| < room && forall e | e in down :: end <= e.key
  }

  // The entries `es` of leaf ids[p] and all of the leaves from q up to p are returned, and there is
  // room for more.
  ghost predicate DownTill(st: Store, ids: seq<nat>, p: nat, es: seq<Entry>, q: nat, end: Key, room: nat)
    requires q <= p < |ids|
  {
    GoesDown(Gathered(st, ids[q..p]) + es, end, room)
  }

  // The account looked at behind leaf ids[q] is the leaf before it.
  ghost predicate PrevGiven(ids: seq<nat>, p: nat, q: nat, extra: seq<nat>)
    requires q <= p < |ids| && p < q + |extra|
  {
    q > 0 && extra[p - q] == ids[q - 1]
  }

  // With the entries `es` of leaf ids[p] still ahead, each account looked at is the leaf before; the
  // first leaf has none.
  ghost predicate DownInStep(st: Store, ids: seq<nat>, p: nat, es: seq<Entry>, end: Key, extra: seq<nat>, room: nat)
    requires p < |ids|
  {
    forall q: nat | q <= p < q + |extra| && DownTill(st, ids, p, es, q, end, room) :: PrevGiven(ids, p, q, extra)
  }

  lemma DownTillStep(st: Store, ids: seq<nat>, p: nat, es: seq<Entry>, n: nat, q: nat, end: Key, room: nat)
    requires q <= p < |ids| && 0 < n <= |es| && room > 0
    ensures DownTill(st, ids, p, es[..n], q, end, room) <==>
            end <= es[n - 1].key && DownTill(st, ids, p, es[..n - 1], q, end, room - 1)
  {
    hide Gathered;
    var rest := Gathered(st, ids[q..p]);
    assert rest + es[..n] == (rest + es[..n - 1]) + [es[n - 1]];
    EitherSide(rest + es[..n - 1], [es[n - 1]]);
    assert es[n - 1] in [es[n - 1]];
  }

  lemma DownTillNext(st: Store, ids: seq<nat>, p: nat, q: nat, end: Key, room: nat)
    requires q < p < |ids| && ids[p - 1] in st && st[ids[p - 1]].Leaf?
    ensures DownTill(st, ids, p, [], q, end, room) <==> DownTill(st, ids, p - 1, st[ids[p - 1]].es, q, end, room)
  {
    hide Gathered, GoesDown;
    GatheredSnoc(st, ids, q, p);
    PastAll([], Gathered(st, ids[q..p]));
    assert Gathered(st, ids[q..p]) + [] == Gathered(st, ids[q..p]);
  }

  lemma DownTillNow(st: Store, ids: seq<nat>, p: nat, end: Key, room: nat)
    requires p < |ids| && room > 0
    ensures DownTill(st, ids, p, [], p, end, room)
  {
    NothingGathered(st, ids[p..p]);
  }

  lemma DownStepIn(st: Store, ids: seq<nat>, p: nat, es: seq<Entry>, n: nat, end: Key, extra: seq<nat>, room: nat)
    requires p < |ids| && 0 < n <= |es| && room > 0
    ensures DownInStep(st, ids, p, es[..n], end, extra, room) <==>
            es[n - 1].key < end || DownInStep(st, ids, p, es[..n - 1], end, extra, room - 1)
  {
    hide DownTill;
    forall q: nat | q <= p
      ensures DownTill(st, ids, p, es[..n], q, end, room) <==>
              end <= es[n - 1].key && DownTill(st, ids, p, es[..n - 1], q, end, room - 1)
    {
      DownTillStep(st, ids, p, es, n, q, end, room);
    }
  }

  lemma DownStepOver(st: Store, ids: seq<nat>, p: nat, end: Key, extra: seq<nat>, room: nat)
    requires p < |ids| && |extra| > 0 && room > 0
    requires p > 0 ==> ids[p - 1] in st && st[ids[p - 1]].Leaf?
    ensures DownInStep(st, ids, p, [], end, extra, room) <==>
            p > 0 && extra[0] == ids[p - 1] && DownInStep(st, ids, p - 1, st[ids[p - 1]].es, end, extra[1..], room)
  {
    hide DownTill;
    DownTillNow(st, ids, p, end, room);
    assert PrevGiven(ids, p, p, extra) <==> p > 0 && extra[0] == ids[p - 1];
    if p > 0 && extra[0] == ids[p - 1] {
      var r, es, more := p - 1, st[ids[p - 1]].es, extra[1..];
      forall q: nat | q <= r
        ensures DownTill(st, ids, p, [], q, end, room) <==> DownTill(st, ids, r, es, q, end, room)
        ensures p < q + |extra| ==> (PrevGiven(ids, p, q, extra) <==> PrevGiven(ids, r, q, more))
      {
        DownTillNext(st, ids, p, q, end, room);
      }
      if DownInStep(st, ids, p, [], end, extra, room) {
        forall q: nat | q <= r < q + |more| && DownTill(st, ids, r, es, q, end, room) ensures PrevGiven(ids, r, q, more) {
          assert DownTill(st, ids, p, [], q, end, room);
        }
      }
    }
  }

  lemma {:induction false} ScanDownIff(s: State, ids: seq<nat>, p: nat, n: nat, end: Key, extra: seq<nat>, room: nat)
    requires AllLinked(s, ids) && Roomy(s) && p < |ids|
    requires ids[p] in s.nodes && s.nodes[ids[p]].Leaf? && n <= |s.nodes[ids[p]].es|
    ensures ScanDown(s, ids[p], n, end, extra, room).Ok? <==> DownInStep(s.nodes, ids, p, s.nodes[ids[p]].es[..n], end, extra, room)
    decreases |extra|, n
  {
    hide AllLinked, Roomy, DownInStep, CheckPrev;
    var es := s.nodes[ids[p]].es;
    if room == 0 || |extra| == 0 {
      DownNoMore(s.nodes, ids, p, es[..n], end, extra, room);
    }
    if room > 0 && n > 0 {
      DownStepIn(s.nodes, ids, p, es, n, end, extra, room);
      ScanDownIff(s, ids, p, n - 1, end, extra, room - 1);
    } else if room > 0 && |extra| > 0 {
      assert es[..n] == [];
      PrevChecked(s, ids, p, extra[0]);
      DownStepOver(s.nodes, ids, p, end, extra, room);
      if p > 0 && extra[0] == ids[p - 1] {
        var m := |s.nodes[ids[p - 1]].es|;
        ScanDownIff(s, ids, p - 1, m, end, extra[1..], room);
        assert s.nodes[ids[p - 1]].es[..m] == s.nodes[ids[p - 1]].es;
      }
    }
  }

  lemma DownNoMore(st: Store, ids: seq<nat>, p: nat, es: seq<Entry>, end: Key, extra: seq<nat>, room: nat)
    requires p < |ids| && (room == 0 || |extra| == 0)
    ensures DownInStep(st, ids, p, es, end, extra, room)
  {
  }

  lemma PrevChecked(s: State, ids: seq<nat>, p: nat, x: nat)
    requires AllLinked(s, ids) && Roomy(s) && p < |ids|
    ensures p > 0 ==> ids[p - 1] in s.nodes && s.nodes[ids[p - 1]].Leaf?
    ensures CheckPrev(s, x, ids[p]) == None <==> p > 0 && x == ids[p - 1]
  {
    IsLinked(s, ids);
    if p > 0 {
      LinkedAt(s, ids, p - 1);
    }
    if CheckPrev(s, x, ids[p]) == None {
      StepBack(s, ids, p, x);
    }
  }

  // ---- the theorem ----

  // Of these leaves' entries all that lie in scan direction from `start` on are in range, and they
  // leave room for more.
  ghost predicate MoreUp(es: seq<Entry>, start: Key, end: Key, room: nat) {
    |Within(es, start, end)| < room && forall e | e in es && start <= e.key :: e.key <= end
  }

  ghost predicate MoreDown(es: seq<Entry>, start: Key, end: Key, room: nat) {
    |Within(es, end, start)| < room && forall e | e in es && e.key <= start :: end <= e.key
  }

  lemma {:induction false} WithinAll(es: seq<Entry>, lo: Key, hi: Key)
    requires forall e | e in es :: lo <= e.key <= hi
    ensures Within(es, lo, hi) == es
  {
    if es != [] {
      assert es[0] in es;
      WithinAll(es[1..], lo, hi);
      assert es == [es[0]] + es[1..];
    }
  }

  lemma MoreIsGoesUp(low: seq<Entry>, up: seq<Entry>, start: Key, end: Key, room: nat)
    requires (forall e | e in low :: e.key < start) && (forall e | e in up :: start <= e.key)
    ensures MoreUp(low + up, start, end, room) <==> GoesUp(up, end, room)
  {
    EitherSide(low, up);
    WithinDrop(low, up, start, end);
    hide Within;
    if forall e | e in up :: e.key <= end {
      WithinAll(up, start, end);
    }
  }

  lemma MoreIsGoesDown(down: seq<Entry>, high: seq<Entry>, start: Key, end: Key, room: nat)
    requires (forall e | e in high :: start < e.key) && (forall e | e in down :: e.key <= start)
    ensures MoreDown(down + high, start, end, room) <==> GoesDown(down, end, room)
  {
    EitherSide(down, high);
    WithinDrop(high, down, end, start);
    hide Within;
    if forall e | e in down :: end <= e.key {
      WithinAll(down, end, start);
    }
  }

  lemma CutUp(es: seq<Entry>, b: seq<Entry>, lb: nat, start: Key, end: Key, room: nat)
    requires lb <= |es| && (forall e | e in es[..lb] :: e.key < start) && (forall e | e in es[lb..] + b :: start <= e.key)
    ensures MoreUp(es + b, start, end, room) <==> GoesUp(es[lb..] + b, end, room)
  {
    hide MoreUp, GoesUp;
    assert es[..lb] + (es[lb..] + b) == es + b;
    MoreIsGoesUp(es[..lb], es[lb..] + b, start, end, room);
  }

  lemma CutDown(a: seq<Entry>, es: seq<Entry>, n: nat, start: Key, end: Key, room: nat)
    requires n <= |es| && (forall e | e in es[n..] :: start < e.key) && (forall e | e in a + es[..n] :: e.key <= start)
    ensures MoreDown(a + es, start, end, room) <==> GoesDown(a + es[..n], end, room)
  {
    hide MoreDown, GoesDown;
    assert (a + es[..n]) + es[n..] == a + es;
    MoreIsGoesDown(a + es[..n], es[n..], start, end, room);
  }

  lemma UpTillIs(st: Store, ids: seq<nat>, p: nat, q: nat, start: Key, end: Key, x: nat, room: nat)
    requires StandsAt(st, ids, start, x, p) && p < q <= |ids| && x in st && st[x].Leaf? && Sorted(Gathered(st, ids))
    ensures MoreUp(Gathered(st, ids[p..q]), start, end, room) <==> UpTill(st, ids, p, st[x].es[Pos(st[x].es, start)..], q, end, room)
  {
    AtIndex(st, ids, start, x, p);
    hide Sorted, Gathered, MoreUp, GoesUp, StandsAt, Pos, Within;
    var es, b := st[x].es, Gathered(st, ids[p + 1..q]);
    var lb := Pos(es, start);
    UpRange(st, ids, p, q, start, end, x);
    GatheredParts(st, ids, p, q);
    GatheredCons(st, ids, p, q);
    SortedMiddle(Gathered(st, ids[..p]), es + b, Gathered(st, ids[q..]));
    SortedDrop(es, b, start);
    CutUp(es, b, lb, start, end, room);
  }

  lemma DownTillIs(st: Store, ids: seq<nat>, p: nat, q: nat, start: Key, end: Key, x: nat, room: nat)
    requires StandsAt(st, ids, start, x, p) && q <= p < |ids| && x in st && st[x].Leaf? && Sorted(Gathered(st, ids))
    ensures MoreDown(Gathered(st, ids[q..p + 1]), start, end, room) <==> DownTill(st, ids, p, st[x].es[..UpTo(st[x].es, start)], q, end, room)
  {
    AtIndex(st, ids, start, x, p);
    hide Sorted, Gathered, MoreDown, GoesDown, StandsAt, UpTo, Within;
    var es, a := st[x].es, Gathered(st, ids[q..p]);
    var n := UpTo(es, start);
    DownRange(st, ids, p, q, start, end, x);
    GatheredParts(st, ids, q, p + 1);
    GatheredSnoc(st, ids, q, p + 1);
    SortedMiddle(Gathered(st, ids[..q]), a + es, Gathered(st, ids[p + 1..]));
    SortedTake(a, es, start);
    CutDown(a, es, n, start, end, room);
  }

  // These leaves do not end the scan: of their entries all that lie in scan direction from the start
  // on are in range, and they are fewer than asked for and than there is room for.
  ghost predicate LeavesMore(es: seq<Entry>, rq: ScanRq) {
    if rq.reverse then
      && |Within(es, rq.end, rq.start)| < rq.max && |Within(es, rq.end, rq.start)| < rq.cap
      && forall e | e in es && e.key <= rq.start :: rq.end <= e.key
    else
      && |Within(es, rq.start, rq.end)| < rq.max && |Within(es, rq.start, rq.end)| < rq.cap
      && forall e | e in es && rq.start <= e.key :: e.key <= rq.end
  }

  lemma LeavesMoreIs(es: seq<Entry>, rq: ScanRq)
    ensures LeavesMore(es, rq) <==>
            if rq.reverse then MoreDown(es, rq.start, rq.end, rq.Room()) else MoreUp(es, rq.start, rq.end, rq.Room())
  {
    hide Within;
  }

  // Every extra account the scan looks at is the neighbour of the leaf before it in scan direction.
  // A forward scan looks at the next one while the leaves so far leave more to return and the chain
  // goes on; a reverse scan does not know where the chain begins, and looks at one more there too.
  ghost predicate ScanInStep(s: State, rq: ScanRq)
    requires Valid(s) && s.height > 0
  {
    var ids, p := Leaves(s), LeafIndex(s, rq.start);
    && p < |ids|
    && if rq.reverse then
         forall q: nat | q <= p < q + |rq.extra| && LeavesMore(Gathered(s.nodes, ids[q..p + 1]), rq) :: PrevGiven(ids, p, q, rq.extra)
       else
         forall q | p < q < |ids| && q <= p + |rq.extra| && LeavesMore(Gathered(s.nodes, ids[p..q]), rq) ::
           rq.extra[q - p - 1] == ids[q]
  }

  lemma UpStepsAre(st: Store, ids: seq<nat>, p: nat, x: nat, rq: ScanRq)
    requires !rq.reverse
    requires StandsAt(st, ids, rq.start, x, p) && p < |ids| && x in st && st[x].Leaf? && Sorted(Gathered(st, ids))
    ensures UpInStep(st, ids, p, st[x].es[Pos(st[x].es, rq.start)..], rq.end, rq.extra, rq.Room()) <==>
            forall q | p < q < |ids| && q <= p + |rq.extra| && LeavesMore(Gathered(st, ids[p..q]), rq) :: rq.extra[q - p - 1] == ids[q]
  {
    hide Sorted, Gathered, MoreUp, LeavesMore, UpTill, StandsAt, Pos;
    var es := st[x].es[Pos(st[x].es, rq.start)..];
    forall q | p < q < |ids|
      ensures LeavesMore(Gathered(st, ids[p..q]), rq) <==> UpTill(st, ids, p, es, q, rq.end, rq.Room())
    {
      LeavesMoreIs(Gathered(st, ids[p..q]), rq);
      UpTillIs(st, ids, p, q, rq.start, rq.end, x, rq.Room());
    }
  }

  lemma DownStepsAre(st: Store, ids: seq<nat>, p: nat, x: nat, rq: ScanRq)
    requires rq.reverse
    requires StandsAt(st, ids, rq.start, x, p) && p < |ids| && x in st && st[x].Leaf? && Sorted(Gathered(st, ids))
    ensures DownInStep(st, ids, p, st[x].es[..UpTo(st[x].es, rq.start)], rq.end, rq.extra, rq.Room()) <==>
            forall q: nat | q <= p < q + |rq.extra| && LeavesMore(Gathered(st, ids[q..p + 1]), rq) :: PrevGiven(ids, p, q, rq.extra)
  {
    hide Sorted, Gathered, MoreDown, LeavesMore, DownTill, StandsAt, UpTo, PrevGiven;
    var es := st[x].es[..UpTo(st[x].es, rq.start)];
    forall q: nat | q <= p
      ensures LeavesMore(Gathered(st, ids[q..p + 1]), rq) <==> DownTill(st, ids, p, es, q, rq.end, rq.Room())
    {
      LeavesMoreIs(Gathered(st, ids[q..p + 1]), rq);
      DownTillIs(st, ids, p, q, rq.start, rq.end, x, rq.Room());
    }
  }

  // A range scan is accepted exactly on the search path of its start, with every further account it
  // looks at in step; what is supplied behind the leaf that ends it does not matter.
  lemma RangeScanIff(s: State, rq: ScanRq)
    requires Valid(s) && AllShaped(s.nodes)
    ensures RangeScan(s, rq).Ok? <==>
            s.height == 0 || rq.max == 0 || rq.cap == 0 || (rq.path == SearchPath(s, rq.start) && ScanInStep(s, rq))
  {
    hide Valid, SearchPath, LeafOf, Leaves, LeafIndex, AllLinked, Linked, Roomy, Gathered, StandsAt, Sorted, ScanUp, ScanDown, UpTo, Pos,
      UpInStep, DownInStep, LeavesMore, PrevGiven, Descend;
    if s.height > 0 && rq.Room() > 0 {
      ScanStarts(s, rq);
      LeafIndexIs(s, rq.start);
      EntriesAcross(s);
      var ids, p, x := Leaves(s), LeafIndex(s, rq.start), LeafOf(s, rq.start).idx;
      AtIndex(s.nodes, ids, rq.start, x, p);
      IsLinked(s, ids);
      if rq.reverse {
        ScanDownIff(s, ids, p, UpTo(s.nodes[x].es, rq.start), rq.end, rq.extra, rq.Room());
        DownStepsAre(s.nodes, ids, p, x, rq);
      } else {
        ScanUpIff(s, ids, p, Pos(s.nodes[x].es, rq.start), rq.end, rq.extra, rq.Room());
        UpStepsAre(s.nodes, ids, p, x, rq);
      }
    }
  }

  // The neighbours of the start leaf, nearest first, in the direction of the scan.
  ghost predicate Neighbours(s: State, rq: ScanRq)
    requires Valid(s) && s.height > 0
  {
    var ids, p := Leaves(s), LeafIndex(s, rq.start);
    if rq.reverse then |rq.extra| <= p < |ids| && forall q | p - |rq.extra| <= q < p :: rq.extra[p - 1 - q] == ids[q]
    else p + 1 + |rq.extra| <= |ids| && rq.extra == ids[p + 1..p + 1 + |rq.extra|]
  }

  // So the right path and the right leaves are accepted.
  lemma RangeScanAccepts(s: State, rq: ScanRq)
    requires Valid(s) && AllShaped(s.nodes) && s.height > 0
    requires rq.path == SearchPath(s, rq.start) && Neighbours(s, rq)
    ensures RangeScan(s, rq) == Ok(First(First(Wanted(s, rq), rq.max), rq.cap))
  {
    hide Valid, SearchPath, LeafOf, Wanted, RangeScan, First, LeafIndex, Neighbours, ScanInStep, AllShaped, Descend;
    RangeScanIff(s, rq);
    NeighboursInStep(s, rq);
    RangeScanCorrect(s, rq);
  }

  lemma NeighboursInStep(s: State, rq: ScanRq)
    requires Valid(s) && s.height > 0 && Neighbours(s, rq)
    ensures ScanInStep(s, rq)
  {
    hide Valid, Leaves, LeafIndex, LeavesMore, Gathered;
    var ids, p := Leaves(s), LeafIndex(s, rq.start);
    if rq.reverse {
      forall q: nat | q <= p < q + |rq.extra| ensures PrevGiven(ids, p, q, rq.extra) {
        assert rq.extra[p - 1 - (q - 1)] == ids[q - 1];
      }
    }
  }
}
