// RangeScan in both directions: the in-range entries of the supplied leaves, in order.
module Scans {
  import opened Base
  import opened NodeViews
  import opened Shapes
  import opened Engine
  import opened Represent
  import opened InsertPlanned
  import opened MapModel
  import opened HotTheorems
  import opened Structure
  import opened LeafChain

  // `extra` are the leaf accounts behind the path, in scan order; `max` is what the caller
  // asked for, `cap` what the scratch account has room for.
  datatype ScanRq = ScanRq(start: Key, end: Key, path: seq<nat>, extra: seq<nat>, max: nat, cap: nat, reverse: bool) {
    function Room(): nat {
      if max > cap then cap else max
    }
  }

  // ---- the instruction ----

  function ScanUp(s: State, cur: nat, i: nat, end: Key, extra: seq<nat>, room: nat): Result<seq<Entry>>
    requires cur in s.nodes && s.nodes[cur].Leaf?
    decreases |extra|, |s.nodes[cur].es| - i
  {
    var Leaf(es, next) := s.nodes[cur];
    if room > 0 && i < |es| then
      if es[i].key > end then Ok([])
      else
        var rest :- ScanUp(s, cur, i + 1, end, extra, room - 1);
        Ok([es[i]] + rest)
    else if room == 0 || next == 0 || |extra| == 0 then Ok([])
    else
      match CheckNode(s, extra[0], next)
      case Some(e) => Err(e)
      case None => if s.nodes[next].Inner? then Err(BadPath) else ScanUp(s, next, 0, end, extra[1..], room)
  }

  // A leaf may come before `cur` only if it points to it.
  function CheckPrev(s: State, acc: nat, cur: nat): Option<Error> {
    if acc !in s.nodes then Some(WrongOwner)
    else if Count(s.nodes[acc]) > s.fanout + 1 then Some(BadNode)
    else if s.nodes[acc].Inner? || s.nodes[acc].next != cur then Some(BadPath)
    else None
  }

  // `n` entries of the current leaf are still to be visited, from the last one down.
  function ScanDown(s: State, cur: nat, n: nat, end: Key, extra: seq<nat>, room: nat): Result<seq<Entry>>
    requires cur in s.nodes && s.nodes[cur].Leaf? && n <= |s.nodes[cur].es|
    decreases |extra|, n
  {
    var es := s.nodes[cur].es;
    if room > 0 && n > 0 then
      if es[n - 1].key < end then Ok([])
      else
        var rest :- ScanDown(s, cur, n - 1, end, extra, room - 1);
        Ok([es[n - 1]] + rest)
    else if room == 0 || |extra| == 0 then Ok([])
    else
      match CheckPrev(s, extra[0], cur)
      case Some(e) => Err(e)
      case None => ScanDown(s, extra[0], |s.nodes[extra[0]].es|, end, extra[1..], room)
  }

  function RangeScan(s: State, rq: ScanRq): Result<seq<Entry>>
    requires AllShaped(s.nodes)
  {
    if s.height == 0 || rq.Room() == 0 then Ok([])
    else if |rq.path| == 0 || |rq.path| != s.height then Err(BadPath)
    else
      var cur :- Descend(s, rq.path, rq.start, 0, s.root);
      var es := s.nodes[cur].es;
      if rq.reverse then
        var lb := Pos(es, rq.start);
        ScanDown(s, cur, if lb < |es| && es[lb].key == rq.start then lb + 1 else lb, rq.end, rq.extra, rq.Room())
      else ScanUp(s, cur, Pos(es, rq.start), rq.end, rq.extra, rq.Room())
  }

  // ---- what it is to return ----

  function IfWithin(e: Entry, lo: Key, hi: Key): seq<Entry> {
    if lo <= e.key <= hi then [e] else []
  }

  function Within(es: seq<Entry>, lo: Key, hi: Key): seq<Entry> {
    if es == [] then [] else IfWithin(es[0], lo, hi) + Within(es[1..], lo, hi)
  }

  function First<T>(s: seq<T>, n: nat): seq<T> {
    if n < |s| then s[..n] else s
  }

  function Backwards<T>(s: seq<T>): (r: seq<T>)
    ensures |r| == |s| && forall i | 0 <= i < |s| :: r[i] == s[|s| - 1 - i]
  {
    seq(|s|, i requires 0 <= i < |s| => s[|s| - 1 - i])
  }

  lemma {:induction false} WithinConcat(a: seq<Entry>, b: seq<Entry>, lo: Key, hi: Key)
    ensures Within(a + b, lo, hi) == Within(a, lo, hi) + Within(b, lo, hi)
  {
    hide IfWithin;
    if a == [] {
      assert a + b == b;
    } else {
      WithinConcat(a[1..], b, lo, hi);
      assert (a + b)[1..] == a[1..] + b && (a + b)[0] == a[0];
      Reassoc(IfWithin(a[0], lo, hi), Within(a[1..], lo, hi), Within(b, lo, hi));
    }
  }

  lemma {:induction false} WithinNone(es: seq<Entry>, lo: Key, hi: Key)
    requires forall e | e in es :: e.key < lo || hi < e.key
    ensures Within(es, lo, hi) == []
  {
    if es != [] {
      WithinNone(es[1..], lo, hi);
    }
  }

  ghost predicate Sorted(es: seq<Entry>) {
    EntriesIn(es, 0, KEY_LIMIT)
  }

  lemma SortedPart(es: seq<Entry>, i: nat, j: nat)
    requires Sorted(es) && i <= j <= |es|
    ensures Sorted(es[i..j])
  {
  }

  // ---- forward ----

  function TakeUp(es: seq<Entry>, end: Key, room: nat): seq<Entry> {
    if room == 0 || es == [] || es[0].key > end then [] else [es[0]] + TakeUp(es[1..], end, room - 1)
  }

  lemma {:induction false} TakeUpIsWithin(es: seq<Entry>, lo: Key, hi: Key, room: nat)
    requires Sorted(es) && forall e | e in es :: lo <= e.key
    ensures TakeUp(es, hi, room) == First(Within(es, lo, hi), room)
  {
    if room > 0 && es != [] {
      if es[0].key > hi {
        WithinNone(es, lo, hi);
      } else {
        SortedPart(es, 1, |es|);
        TakeUpIsWithin(es[1..], lo, hi, room - 1);
        var w := Within(es[1..], lo, hi);
        assert Within(es, lo, hi) == [es[0]] + w;
        assert room - 1 < |w| ==> ([es[0]] + w)[..room] == [es[0]] + w[..room - 1];
      }
    }
  }

  // The leaves from position `p` on, linked in this order.
  ghost predicate Linked(s: State, ids: seq<nat>) {
    forall i | 0 <= i < |ids| :: ids[i] >= 1 && LeafTo(s.nodes, ids[i], After(ids, i, 0))
  }

  lemma GatheredCons(st: Store, ids: seq<nat>, p: nat, q: nat)
    requires p < q <= |ids| && ids[p] in st && st[ids[p]].Leaf?
    ensures Gathered(st, ids[p..q]) == st[ids[p]].es + Gathered(st, ids[p + 1..q])
  {
    assert ids[p..q][1..] == ids[p + 1..q];
  }

  lemma TakeUpStep(es: seq<Entry>, i: nat, rest: seq<Entry>, end: Key, room: nat)
    requires i < |es| && room > 0
    ensures TakeUp(es[i..] + rest, end, room) == if es[i].key > end then [] else [es[i]] + TakeUp(es[i + 1..] + rest, end, room - 1)
  {
    assert (es[i..] + rest)[1..] == es[i + 1..] + rest && (es[i..] + rest)[0] == es[i];
  }

  lemma PastAll(es: seq<Entry>, rest: seq<Entry>)
    ensures es[|es|..] + rest == rest && es[..0] == [] && rest + es[..0] == rest && es[0..] == es && es[..|es|] == es
  {
  }

  lemma ScanUpInside(s: State, cur: nat, i: nat, end: Key, extra: seq<nat>, room: nat)
    requires cur in s.nodes && s.nodes[cur].Leaf? && i < |s.nodes[cur].es| && room > 0
    requires ScanUp(s, cur, i, end, extra, room).Ok?
    ensures var e, r := s.nodes[cur].es[i], ScanUp(s, cur, i, end, extra, room).value;
            if e.key > end then r == []
            else ScanUp(s, cur, i + 1, end, extra, room - 1).Ok? && r == [e] + ScanUp(s, cur, i + 1, end, extra, room - 1).value
  {
  }

  lemma ScanUpNext(s: State, cur: nat, i: nat, end: Key, extra: seq<nat>, room: nat)
    requires cur in s.nodes && s.nodes[cur].Leaf? && i >= |s.nodes[cur].es| && room > 0
    requires ScanUp(s, cur, i, end, extra, room).Ok?
    ensures var next, r := s.nodes[cur].next, ScanUp(s, cur, i, end, extra, room).value;
            if next == 0 || |extra| == 0 then r == []
            else next in s.nodes && s.nodes[next].Leaf?
                 && ScanUp(s, next, 0, end, extra[1..], room).Ok? && r == ScanUp(s, next, 0, end, extra[1..], room).value
  {
  }

  // What a forward scan is to return from entry `i` of leaf ids[p] on.
  ghost function UpFrom(st: Store, ids: seq<nat>, p: nat, es: seq<Entry>, end: Key, n: nat, room: nat): seq<Entry>
    requires p < |ids|
  {
    TakeUp(es + Gathered(st, ids[p + 1..Min(p + 1 + n, |ids|)]), end, room)
  }

  lemma UpFromNext(st: Store, ids: seq<nat>, p: nat, end: Key, n: nat, room: nat)
    requires p + 1 < |ids| && n > 0 && ids[p + 1] in st && st[ids[p + 1]].Leaf?
    ensures UpFrom(st, ids, p, [], end, n, room) == UpFrom(st, ids, p + 1, st[ids[p + 1]].es, end, n - 1, room)
  {
    hide TakeUp, Gathered;
    GatheredCons(st, ids, p + 1, Min(p + 1 + n, |ids|));
    PastAll([], Gathered(st, ids[p + 1..Min(p + 1 + n, |ids|)]));
  }

  lemma UpFromEnd(st: Store, ids: seq<nat>, p: nat, end: Key, n: nat, room: nat)
    requires p < |ids| && (n == 0 || p + 1 == |ids|)
    ensures UpFrom(st, ids, p, [], end, n, room) == []
  {
  }

  lemma {:induction false} ScanUpIs(s: State, ids: seq<nat>, p: nat, i: nat, end: Key, extra: seq<nat>, room: nat)
    requires Linked(s, ids) && p < |ids|
    requires ids[p] in s.nodes && s.nodes[ids[p]].Leaf? && i <= |s.nodes[ids[p]].es|
    requires ScanUp(s, ids[p], i, end, extra, room).Ok?
    ensures ScanUp(s, ids[p], i, end, extra, room).value
         == UpFrom(s.nodes, ids, p, s.nodes[ids[p]].es[i..], end, |extra|, room)
    decreases |extra|, |s.nodes[ids[p]].es| - i
  {
    var es := s.nodes[ids[p]].es;
    LinkedAt(s, ids, p);
    if room > 0 && i < |es| {
      hide ScanUp, Gathered, Linked, TakeUp;
      ScanUpInside(s, ids[p], i, end, extra, room);
      TakeUpStep(es, i, Gathered(s.nodes, ids[p + 1..Min(p + 1 + |extra|, |ids|)]), end, room);
      if es[i].key <= end {
        ScanUpIs(s, ids, p, i + 1, end, extra, room - 1);
      }
    } else if room > 0 {
      hide ScanUp, Linked, UpFrom;
      assert es[i..] == [];
      ScanUpNext(s, ids[p], i, end, extra, room);
      if p + 1 == |ids| || |extra| == 0 {
        UpFromEnd(s.nodes, ids, p, end, |extra|, room);
      } else {
        LinkedAt(s, ids, p + 1);
        ScanUpIs(s, ids, p + 1, 0, end, extra[1..], room);
        UpFromNext(s.nodes, ids, p, end, |extra|, room);
        PastAll(s.nodes[ids[p + 1]].es, []);
      }
    }
  }

  lemma LinkedAt(s: State, ids: seq<nat>, p: nat)
    requires Linked(s, ids) && p < |ids|
    ensures ids[p] in s.nodes && s.nodes[ids[p]].Leaf? && ids[p] >= 1 && s.nodes[ids[p]].next == After(ids, p, 0)
  {
    assert LeafTo(s.nodes, ids[p], After(ids, p, 0));
  }

  lemma NothingGathered(st: Store, ids: seq<nat>)
    requires |ids| == 0
    ensures Gathered(st, ids) == []
  {
  }

  // ---- backward ----

  function TakeDown(es: seq<Entry>, end: Key, room: nat): seq<Entry> {
    if room == 0 || es == [] || es[|es| - 1].key < end then []
    else [es[|es| - 1]] + TakeDown(es[..|es| - 1], end, room - 1)
  }

  lemma WithinLast(es: seq<Entry>, lo: Key, hi: Key)
    requires es != [] && lo <= es[|es| - 1].key <= hi
    ensures Within(es, lo, hi) == Within(es[..|es| - 1], lo, hi) + [es[|es| - 1]]
  {
    var a, b := es[..|es| - 1], [es[|es| - 1]];
    assert es == a + b;
    WithinConcat(a, b, lo, hi);
    assert b[1..] == [];
  }

  lemma {:induction false} TakeDownIsWithin(es: seq<Entry>, lo: Key, hi: Key, room: nat)
    requires Sorted(es) && forall e | e in es :: e.key <= hi
    ensures TakeDown(es, lo, room) == First(Backwards(Within(es, lo, hi)), room)
  {
    if room > 0 && es != [] {
      var last, a := es[|es| - 1], es[..|es| - 1];
      if last.key < lo {
        WithinNone(es, lo, hi);
      } else {
        SortedPart(es, 0, |es| - 1);
        TakeDownIsWithin(a, lo, hi, room - 1);
        WithinLast(es, lo, hi);
        BackwardsLast(Within(a, lo, hi), last, room);
      }
    }
  }

  lemma BackwardsLast(w: seq<Entry>, x: Entry, room: nat)
    requires room > 0
    ensures First(Backwards(w + [x]), room) == [x] + First(Backwards(w), room - 1)
  {
    assert Backwards(w + [x]) == [x] + Backwards(w);
    assert room - 1 < |w| ==> ([x] + Backwards(w))[..room] == [x] + Backwards(w)[..room - 1];
  }

  function Downto(n: nat, m: nat): nat {
    if n > m then n - m else 0
  }

  // No prev pointer is needed: one leaf alone points to any given leaf.
  lemma PredecessorUnique(s: State, ids: seq<nat>, x: nat, p: nat)
    requires Linked(s, ids) && Distinct(ids) && p < |ids|
    requires x in ids && s.nodes[x].next == ids[p]
    ensures p > 0 && x == ids[p - 1]
  {
    var i :| 0 <= i < |ids| && ids[i] == x;
    LinkedAt(s, ids, i);
    LinkedAt(s, ids, p);
  }

  lemma GatheredSnoc(st: Store, ids: seq<nat>, q: nat, p: nat)
    requires q < p <= |ids| && ids[p - 1] in st && st[ids[p - 1]].Leaf?
    ensures Gathered(st, ids[q..p]) == Gathered(st, ids[q..p - 1]) + st[ids[p - 1]].es
  {
    assert ids[q..p] == ids[q..p - 1] + [ids[p - 1]];
    GatheredConcat(st, ids[q..p - 1], [ids[p - 1]]);
    assert [ids[p - 1]][1..] == [];
  }

  // Live leaves are the chain.
  ghost predicate AllLinked(s: State, ids: seq<nat>) {
    Linked(s, ids) && Distinct(ids) && forall x | x in s.nodes && s.nodes[x].Leaf? :: x in ids
  }

  lemma TakeDownStep(rest: seq<Entry>, es: seq<Entry>, n: nat, end: Key, room: nat)
    requires 0 < n <= |es| && room > 0
    ensures TakeDown(rest + es[..n], end, room)
         == if es[n - 1].key < end then [] else [es[n - 1]] + TakeDown(rest + es[..n - 1], end, room - 1)
  {
    var all := rest + es[..n];
    assert all[|all| - 1] == es[n - 1] && all[..|all| - 1] == rest + es[..n - 1];
  }

  lemma ScanDownInside(s: State, cur: nat, n: nat, end: Key, extra: seq<nat>, room: nat)
    requires cur in s.nodes && s.nodes[cur].Leaf? && 0 < n <= |s.nodes[cur].es| && room > 0
    requires ScanDown(s, cur, n, end, extra, room).Ok?
    ensures var e, r := s.nodes[cur].es[n - 1], ScanDown(s, cur, n, end, extra, room).value;
            if e.key < end then r == []
            else ScanDown(s, cur, n - 1, end, extra, room - 1).Ok? && r == [e] + ScanDown(s, cur, n - 1, end, extra, room - 1).value
  {
  }

  lemma ScanDownNext(s: State, cur: nat, end: Key, extra: seq<nat>, room: nat)
    requires cur in s.nodes && s.nodes[cur].Leaf? && room > 0
    requires ScanDown(s, cur, 0, end, extra, room).Ok?
    ensures var r := ScanDown(s, cur, 0, end, extra, room).value;
            if |extra| == 0 then r == []
            else CheckPrev(s, extra[0], cur) == None
                 && var n := |s.nodes[extra[0]].es|;
                 ScanDown(s, extra[0], n, end, extra[1..], room).Ok? && r == ScanDown(s, extra[0], n, end, extra[1..], room).value
  {
  }

  // What a backward scan is to return when `es` is left of leaf ids[p].
  ghost function DownFrom(st: Store, ids: seq<nat>, p: nat, es: seq<Entry>, end: Key, n: nat, room: nat): seq<Entry>
    requires p < |ids|
  {
    TakeDown(Gathered(st, ids[Downto(p, n)..p]) + es, end, room)
  }

  lemma DownFromNext(st: Store, ids: seq<nat>, p: nat, end: Key, n: nat, room: nat)
    requires 0 < p < |ids| && n > 0 && ids[p - 1] in st && st[ids[p - 1]].Leaf?
    ensures DownFrom(st, ids, p, [], end, n, room) == DownFrom(st, ids, p - 1, st[ids[p - 1]].es, end, n - 1, room)
  {
    hide TakeDown, Gathered;
    GatheredSnoc(st, ids, Downto(p, n), p);
    PastAll([], Gathered(st, ids[Downto(p, n)..p]));
  }

  lemma DownFromEnd(st: Store, ids: seq<nat>, p: nat, end: Key, room: nat)
    requires p < |ids|
    ensures DownFrom(st, ids, p, [], end, 0, room) == []
  {
  }

  lemma {:induction false} ScanDownIs(s: State, ids: seq<nat>, p: nat, n: nat, end: Key, extra: seq<nat>, room: nat)
    requires AllLinked(s, ids) && p < |ids|
    requires ids[p] in s.nodes && s.nodes[ids[p]].Leaf? && n <= |s.nodes[ids[p]].es|
    requires ScanDown(s, ids[p], n, end, extra, room).Ok?
    ensures ScanDown(s, ids[p], n, end, extra, room).value
         == DownFrom(s.nodes, ids, p, s.nodes[ids[p]].es[..n], end, |extra|, room)
    decreases |extra|, n
  {
    hide AllLinked, ScanDown, DownFrom;
    var es := s.nodes[ids[p]].es;
    if room == 0 {
      ScanDownZero(s, ids, p, n, end, extra);
    } else if n > 0 {
      ScanDownInside(s, ids[p], n, end, extra, room);
      DownFromStep(s.nodes, ids, p, es, n, end, |extra|, room);
      if es[n - 1].key >= end {
        ScanDownIs(s, ids, p, n - 1, end, extra, room - 1);
      }
    } else {
      PastAll(es, []);
      ScanDownNext(s, ids[p], end, extra, room);
      if |extra| == 0 {
        DownFromEnd(s.nodes, ids, p, end, room);
      } else {
        StepBack(s, ids, p, extra[0]);
        ScanDownIs(s, ids, p - 1, |s.nodes[extra[0]].es|, end, extra[1..], room);
        DownFromNext(s.nodes, ids, p, end, |extra|, room);
        PastAll(s.nodes[ids[p - 1]].es, []);
      }
    }
  }

  lemma ScanDownZero(s: State, ids: seq<nat>, p: nat, n: nat, end: Key, extra: seq<nat>)
    requires p < |ids| && ids[p] in s.nodes && s.nodes[ids[p]].Leaf? && n <= |s.nodes[ids[p]].es|
    ensures ScanDown(s, ids[p], n, end, extra, 0) == Ok([])
    ensures DownFrom(s.nodes, ids, p, s.nodes[ids[p]].es[..n], end, |extra|, 0) == []
  {
  }

  lemma DownFromStep(st: Store, ids: seq<nat>, p: nat, es: seq<Entry>, n: nat, end: Key, m: nat, room: nat)
    requires p < |ids| && 0 < n <= |es| && room > 0
    ensures DownFrom(st, ids, p, es[..n], end, m, room)
         == if es[n - 1].key < end then [] else [es[n - 1]] + DownFrom(st, ids, p, es[..n - 1], end, m, room - 1)
  {
    hide TakeDown, Gathered;
    TakeDownStep(Gathered(st, ids[Downto(p, m)..p]), es, n, end, room);
  }

  lemma StepBack(s: State, ids: seq<nat>, p: nat, x: nat)
    requires AllLinked(s, ids) && p < |ids| && CheckPrev(s, x, ids[p]) == None
    ensures p > 0 && x == ids[p - 1]
  {
    PredecessorUnique(s, ids, x, p);
  }

  // ---- the theorems ----

  lemma StateLinked(s: State)
    requires Valid(s)
    ensures AllLinked(s, Leaves(s)) && Roomy(s) && StateEntries(s) == Gathered(s.nodes, Leaves(s))
  {
    LeavesChain(s);
    ValidShaped(s);
  }

  // Where in the chain the leaf of `key` stands.
  ghost function LeafIndex(s: State, key: Key): nat
    requires Valid(s) && s.height > 0
  {
    IndexOf(Leaves(s), LeafOf(s, key).idx)
  }

  lemma LeafIndexIs(s: State, key: Key)
    requires Valid(s) && s.height > 0
    ensures StandsAt(s.nodes, Leaves(s), key, LeafOf(s, key).idx, LeafIndex(s, key))
  {
    hide StandsAt, Leaves, LeafOf, Valid;
    var p := LeafAt(s, key);
    LeavesChain(s);
    IndexIs(s.nodes, Leaves(s), key, LeafOf(s, key).idx, p);
  }

  lemma IndexIs(st: Store, ids: seq<nat>, key: Key, x: nat, p: nat)
    requires Distinct(ids) && StandsAt(st, ids, key, x, p)
    ensures IndexOf(ids, x) == p
  {
    var i := IndexOf(ids, x);
    assert ids[p] == x;
  }

  // The leaves a scan has been given, in chain order.
  ghost function Supplied(s: State, rq: ScanRq): seq<nat>
    requires Valid(s) && s.height > 0
  {
    var ids, p := Leaves(s), LeafIndex(s, rq.start);
    if p >= |ids| then []
    else if rq.reverse then ids[Downto(p, |rq.extra|)..p + 1]
    else ids[p..Min(p + 1 + |rq.extra|, |ids|)]
  }

  // The in-range entries of those leaves, in scan order.
  ghost function Wanted(s: State, rq: ScanRq): seq<Entry>
    requires Valid(s) && s.height > 0
  {
    if rq.reverse then Backwards(Within(Gathered(s.nodes, Supplied(s, rq)), rq.end, rq.start))
    else Within(Gathered(s.nodes, Supplied(s, rq)), rq.start, rq.end)
  }

  lemma {:induction false} GatheredIn(st: Store, ids: seq<nat>, e: Entry)
    ensures e in Gathered(st, ids) <==> exists i :: 0 <= i < |ids| && ids[i] in st && st[ids[i]].Leaf? && e in st[ids[i]].es
  {
    if ids != [] {
      GatheredIn(st, ids[1..], e);
      if e in Gathered(st, ids) && !(ids[0] in st && st[ids[0]].Leaf? && e in st[ids[0]].es) {
        var i :| 0 <= i < |ids[1..]| && ids[1..][i] in st && st[ids[1..][i]].Leaf? && e in st[ids[1..][i]].es;
        assert ids[i + 1] == ids[1..][i];
      }
      if i :| 0 <= i < |ids| && ids[i] in st && st[ids[i]].Leaf? && e in st[ids[i]].es {
        if i > 0 { assert ids[i] == ids[1..][i - 1]; }
      }
    }
  }

  lemma GatheredParts(st: Store, ids: seq<nat>, p: nat, q: nat)
    requires p <= q <= |ids|
    ensures Gathered(st, ids) == Gathered(st, ids[..p]) + Gathered(st, ids[p..q]) + Gathered(st, ids[q..])
    ensures Gathered(st, ids[p..]) == Gathered(st, ids[p..q]) + Gathered(st, ids[q..])
    ensures Gathered(st, ids[..q]) == Gathered(st, ids[..p]) + Gathered(st, ids[p..q])
  {
    hide Gathered;
    assert ids == ids[..p] + ids[p..q] + ids[q..] && ids[p..] == ids[p..q] + ids[q..] && ids[..q] == ids[..p] + ids[p..q];
    GatheredConcat(st, ids[..p] + ids[p..q], ids[q..]);
    GatheredConcat(st, ids[..p], ids[p..q]);
    GatheredConcat(st, ids[p..q], ids[q..]);
  }

  lemma SortedMiddle(a: seq<Entry>, b: seq<Entry>, c: seq<Entry>)
    requires Sorted(a + b + c)
    ensures Sorted(b)
  {
    assert (a + b + c)[|a|..|a| + |b|] == b;
    SortedPart(a + b + c, |a|, |a| + |b|);
  }

  lemma SortedDrop(es: seq<Entry>, rest: seq<Entry>, key: Key)
    requires Sorted(es + rest)
    ensures Sorted(es[Pos(es, key)..] + rest)
    ensures forall e | e in es[Pos(es, key)..] :: key <= e.key
    ensures forall e | e in es[..Pos(es, key)] :: e.key < key
  {
    var lb, all := Pos(es, key), es + rest;
    assert all[lb..|all|] == es[lb..] + rest;
    SortedPart(all, lb, |all|);
    forall i | lb <= i < |es| ensures key <= es[i].key {
      assert all[lb] == es[lb] && all[i] == es[i];
    }
  }

  lemma WithinDrop(a: seq<Entry>, b: seq<Entry>, lo: Key, hi: Key)
    requires forall e | e in a :: e.key < lo || hi < e.key
    ensures Within(a + b, lo, hi) == Within(b, lo, hi) && Within(b + a, lo, hi) == Within(b, lo, hi)
  {
    WithinConcat(a, b, lo, hi);
    WithinConcat(b, a, lo, hi);
    WithinNone(a, lo, hi);
  }

  lemma AbovePart(st: Store, ids: seq<nat>, p: nat, q: nat, key: Key, x: nat)
    requires StandsAt(st, ids, key, x, p) && p < q <= |ids|
    ensures forall e | e in Gathered(st, ids[p + 1..q]) :: key < e.key
  {
    hide Gathered;
    GatheredParts(st, ids[p + 1..], 0, q - p - 1);
    assert ids[p + 1..][0..q - p - 1] == ids[p + 1..q] && ids[p + 1..][0..] == ids[p + 1..];
    EitherSide(Gathered(st, ids[p + 1..q]), Gathered(st, ids[p + 1..][q - p - 1..]));
  }

  lemma BelowPart(st: Store, ids: seq<nat>, p: nat, q: nat, key: Key, x: nat)
    requires StandsAt(st, ids, key, x, p) && q <= p < |ids|
    ensures forall e | e in Gathered(st, ids[q..p]) :: e.key < key
  {
    hide Gathered;
    GatheredParts(st, ids[..p], q, p);
    assert ids[..p][q..p] == ids[q..p] && ids[..p][..p] == ids[..p];
    EitherSide(Gathered(st, ids[..p][..q]), Gathered(st, ids[q..p]));
  }

  lemma UpCut(x: seq<Entry>, es: seq<Entry>, b: seq<Entry>, y: seq<Entry>, key: Key, hi: Key)
    requires Sorted(x + (es + b) + y) && forall e | e in b :: key < e.key
    ensures var up := es[Pos(es, key)..] + b;
            Sorted(up) && (forall e | e in up :: key <= e.key) && Within(es + b, key, hi) == Within(up, key, hi)
  {
    hide Sorted, Within, Pos;
    var lb := Pos(es, key);
    SortedMiddle(x, es + b, y);
    SortedDrop(es, b, key);
    EitherSide(es[lb..], b);
    WithinDrop(es[..lb], es[lb..] + b, key, hi);
    assert es[..lb] + (es[lb..] + b) == es + b;
  }

  // A forward scan starts inside its leaf; nothing in range is left out by that.
  lemma UpRange(st: Store, ids: seq<nat>, p: nat, q: nat, key: Key, hi: Key, x: nat)
    requires StandsAt(st, ids, key, x, p) && p < q <= |ids| && x in st && st[x].Leaf?
    requires Sorted(Gathered(st, ids))
    ensures var up := st[x].es[Pos(st[x].es, key)..] + Gathered(st, ids[p + 1..q]);
            && Sorted(up) && (forall e | e in up :: key <= e.key)
            && Within(Gathered(st, ids[p..q]), key, hi) == Within(up, key, hi)
  {
    hide Sorted, Gathered, Within, StandsAt, Pos;
    AtIndex(st, ids, key, x, p);
    GatheredParts(st, ids, p, q);
    GatheredCons(st, ids, p, q);
    AbovePart(st, ids, p, q, key, x);
    UpCut(Gathered(st, ids[..p]), st[x].es, Gathered(st, ids[p + 1..q]), Gathered(st, ids[q..]), key, hi);
  }

  // How much of a leaf lies at or below `key`.
  function UpTo(es: seq<Entry>, key: Key): (n: nat)
    ensures n <= |es|
  {
    var lb := Pos(es, key);
    if lb < |es| && es[lb].key == key then lb + 1 else lb
  }

  lemma SortedTake(rest: seq<Entry>, es: seq<Entry>, key: Key)
    requires Sorted(rest + es)
    ensures Sorted(rest + es[..UpTo(es, key)])
    ensures forall e | e in es[..UpTo(es, key)] :: e.key <= key
    ensures forall e | e in es[UpTo(es, key)..] :: key < e.key
  {
    var n, all := UpTo(es, key), rest + es;
    assert all[0..|rest| + n] == rest + es[..n];
    SortedPart(all, 0, |rest| + n);
    forall i | n <= i < |es| ensures key < es[i].key {
      var lb := Pos(es, key);
      assert all[|rest| + lb] == es[lb] && all[|rest| + i] == es[i];
    }
  }

  lemma DownCut(x: seq<Entry>, a: seq<Entry>, es: seq<Entry>, y: seq<Entry>, key: Key, lo: Key)
    requires Sorted(x + (a + es) + y) && forall e | e in a :: e.key < key
    ensures var down := a + es[..UpTo(es, key)];
            Sorted(down) && (forall e | e in down :: e.key <= key) && Within(a + es, lo, key) == Within(down, lo, key)
  {
    hide Sorted, Within, UpTo;
    var n := UpTo(es, key);
    SortedMiddle(x, a + es, y);
    SortedTake(a, es, key);
    EitherSide(a, es[..n]);
    WithinDrop(es[n..], a + es[..n], lo, key);
    assert a + es[..n] + es[n..] == a + es;
  }

  // A backward scan starts inside its leaf; nothing in range is left out by that.
  lemma DownRange(st: Store, ids: seq<nat>, p: nat, q: nat, key: Key, lo: Key, x: nat)
    requires StandsAt(st, ids, key, x, p) && q <= p < |ids| && x in st && st[x].Leaf?
    requires Sorted(Gathered(st, ids))
    ensures var down := Gathered(st, ids[q..p]) + st[x].es[..UpTo(st[x].es, key)];
            && Sorted(down) && (forall e | e in down :: e.key <= key)
            && Within(Gathered(st, ids[q..p + 1]), lo, key) == Within(down, lo, key)
  {
    hide Sorted, Gathered, Within, StandsAt, UpTo;
    AtIndex(st, ids, key, x, p);
    GatheredParts(st, ids, q, p + 1);
    GatheredSnoc(st, ids, q, p + 1);
    BelowPart(st, ids, p, q, key, x);
    DownCut(Gathered(st, ids[..q]), Gathered(st, ids[q..p]), st[x].es, Gathered(st, ids[p + 1..]), key, lo);
  }

  lemma UpCorrect(s: State, ids: seq<nat>, p: nat, x: nat, start: Key, end: Key, extra: seq<nat>, room: nat)
    requires AllLinked(s, ids) && StandsAt(s.nodes, ids, start, x, p) && Sorted(Gathered(s.nodes, ids))
    requires x in s.nodes && s.nodes[x].Leaf?
    requires ScanUp(s, x, Pos(s.nodes[x].es, start), end, extra, room).Ok?
    ensures p < |ids|
    ensures ScanUp(s, x, Pos(s.nodes[x].es, start), end, extra, room).value
         == First(Within(Gathered(s.nodes, ids[p..Min(p + 1 + |extra|, |ids|)]), start, end), room)
  {
    AtIndex(s.nodes, ids, start, x, p);
    IsLinked(s, ids);
    hide AllLinked, Linked, Gathered, StandsAt, Sorted, Within, TakeUp, ScanUp, First, Pos;
    var q, i := Min(p + 1 + |extra|, |ids|), Pos(s.nodes[x].es, start);
    ScanUpIs(s, ids, p, i, end, extra, room);
    UpRange(s.nodes, ids, p, q, start, end, x);
    TakeUpIsWithin(s.nodes[x].es[i..] + Gathered(s.nodes, ids[p + 1..q]), start, end, room);
  }

  lemma DownCorrect(s: State, ids: seq<nat>, p: nat, x: nat, start: Key, end: Key, extra: seq<nat>, room: nat)
    requires AllLinked(s, ids) && StandsAt(s.nodes, ids, start, x, p) && Sorted(Gathered(s.nodes, ids))
    requires x in s.nodes && s.nodes[x].Leaf?
    requires ScanDown(s, x, UpTo(s.nodes[x].es, start), end, extra, room).Ok?
    ensures p < |ids|
    ensures ScanDown(s, x, UpTo(s.nodes[x].es, start), end, extra, room).value
         == First(Backwards(Within(Gathered(s.nodes, ids[Downto(p, |extra|)..p + 1]), end, start)), room)
  {
    AtIndex(s.nodes, ids, start, x, p);
    hide AllLinked, Gathered, StandsAt, Sorted, Within, TakeDown, ScanDown, First, UpTo;
    var q, n := Downto(p, |extra|), UpTo(s.nodes[x].es, start);
    ScanDownIs(s, ids, p, n, end, extra, room);
    DownRange(s.nodes, ids, p, q, start, end, x);
    TakeDownIsWithin(Gathered(s.nodes, ids[q..p]) + s.nodes[x].es[..n], end, start, room);
  }

  lemma AtIndex(st: Store, ids: seq<nat>, key: Key, x: nat, p: nat)
    requires StandsAt(st, ids, key, x, p)
    ensures p < |ids| && ids[p] == x
  {
  }

  lemma IsLinked(s: State, ids: seq<nat>)
    requires AllLinked(s, ids)
    ensures Linked(s, ids)
  {
  }

  lemma ScanStarts(s: State, rq: ScanRq)
    requires Valid(s) && AllShaped(s.nodes) && s.height > 0 && rq.Room() > 0
    ensures var x := LeafOf(s, rq.start).idx;
            x in s.nodes && s.nodes[x].Leaf?
            && if rq.path != SearchPath(s, rq.start) then RangeScan(s, rq).Err?
               else if rq.reverse then RangeScan(s, rq) == ScanDown(s, x, UpTo(s.nodes[x].es, rq.start), rq.end, rq.extra, rq.Room())
               else RangeScan(s, rq) == ScanUp(s, x, Pos(s.nodes[x].es, rq.start), rq.end, rq.extra, rq.Room())
  {
    PathSound(s, rq.path, rq.start);
    hide Descend, ScanUp, ScanDown, Pos, SearchPath, LeafOf, Valid;
  }

  lemma EntriesAcross(s: State)
    requires Valid(s)
    ensures AllLinked(s, Leaves(s)) && Roomy(s) && Sorted(Gathered(s.nodes, Leaves(s)))
  {
    StateLinked(s);
    StateSorted(s);
  }

  // As many as asked for, and of those as many as there is room for.
  lemma FirstOfFirst(es: seq<Entry>, rq: ScanRq)
    ensures First(es, rq.Room()) == First(First(es, rq.max), rq.cap)
    ensures rq.Room() == 0 <==> rq.max == 0 || rq.cap == 0
  {
  }

  // RangeScan returns the first entries, in scan order, of all that are in range in the leaves
  // it was given: `max` of them, as far as the scratch account has room.
  lemma RangeScanCorrect(s: State, rq: ScanRq)
    requires Valid(s) && AllShaped(s.nodes) && s.height > 0
    ensures RangeScan(s, rq).Ok? && rq.max > 0 && rq.cap > 0 ==> rq.path == SearchPath(s, rq.start)
    ensures RangeScan(s, rq).Ok? ==> RangeScan(s, rq).value == First(First(Wanted(s, rq), rq.max), rq.cap)
  {
    hide Valid, SearchPath, LeafOf, Wanted, RangeScan, First, ScanRq.Room;
    FirstOfFirst(Wanted(s, rq), rq);
    if rq.Room() > 0 {
      RangeScanFirst(s, rq);
    } else {
      NoRoom(s, rq);
    }
  }

  lemma NoRoom(s: State, rq: ScanRq)
    requires AllShaped(s.nodes) && Valid(s) && s.height > 0 && rq.Room() == 0
    ensures RangeScan(s, rq) == Ok([]) && First(Wanted(s, rq), 0) == []
  {
  }

  lemma RangeScanFirst(s: State, rq: ScanRq)
    requires Valid(s) && AllShaped(s.nodes) && s.height > 0 && rq.Room() > 0
    ensures RangeScan(s, rq).Ok? ==> rq.path == SearchPath(s, rq.start)
    ensures RangeScan(s, rq).Ok? ==> RangeScan(s, rq).value == First(Wanted(s, rq), rq.Room())
  {
    hide Valid, SearchPath, LeafOf, Leaves, LeafIndex, AllLinked, Gathered, StandsAt, Sorted, Within, RangeScan,
      ScanUp, ScanDown, UpTo, Pos, First;
    ScanStarts(s, rq);
    LeafIndexIs(s, rq.start);
    EntriesAcross(s);
    if RangeScan(s, rq).Ok? {
      if rq.reverse {
        DownCorrect(s, Leaves(s), LeafIndex(s, rq.start), LeafOf(s, rq.start).idx, rq.start, rq.end, rq.extra, rq.Room());
      } else {
        UpCorrect(s, Leaves(s), LeafIndex(s, rq.start), LeafOf(s, rq.start).idx, rq.start, rq.end, rq.extra, rq.Room());
      }
    }
  }

  // The supplied leaves reach past the bound, or to the end of the chain.
  ghost predicate Reaches(s: State, rq: ScanRq)
    requires Valid(s) && s.height > 0
  {
    var ids, p := Leaves(s), LeafIndex(s, rq.start);
    if rq.reverse then
      |rq.extra| >= p || exists e :: e in Gathered(s.nodes, Supplied(s, rq)) && e.key < rq.end
    else
      p + 1 + |rq.extra| >= |ids| || exists e :: e in Gathered(s.nodes, Supplied(s, rq)) && e.key > rq.end
  }

  lemma SortedAcross(a: seq<Entry>, b: seq<Entry>)
    requires Sorted(a + b)
    ensures forall x: Entry, y: Entry :: x in a && y in b ==> x.key < y.key
  {
    forall x: Entry, y: Entry | x in a && y in b ensures x.key < y.key {
      var i :| 0 <= i < |a| && a[i] == x;
      var j :| 0 <= j < |b| && b[j] == y;
      assert (a + b)[i] == x && (a + b)[|a| + j] == y;
    }
  }

  // Then the scan misses nothing that is in range in the whole tree.
  lemma ScanComplete(s: State, rq: ScanRq)
    requires Valid(s) && s.height > 0 && Reaches(s, rq)
    ensures Wanted(s, rq) == if rq.reverse then Backwards(Within(StateEntries(s), rq.end, rq.start))
                             else Within(StateEntries(s), rq.start, rq.end)
  {
    hide Valid, LeafOf, Leaves, LeafIndex, Linked, Gathered, Within, StateEntries;
    LeafIndexIs(s, rq.start);
    StateLinked(s);
    EntriesAcross(s);
    var ids, p, x := Leaves(s), LeafIndex(s, rq.start), LeafOf(s, rq.start).idx;
    AtIndex(s.nodes, ids, rq.start, x, p);
    if rq.reverse {
      CompleteDown(s.nodes, ids, p, Downto(p, |rq.extra|), rq.start, rq.end, x);
    } else {
      CompleteUp(s.nodes, ids, p, Min(p + 1 + |rq.extra|, |ids|), rq.start, rq.end, x);
    }
  }

  lemma CompleteUp(st: Store, ids: seq<nat>, p: nat, q: nat, start: Key, end: Key, x: nat)
    requires StandsAt(st, ids, start, x, p) && p < q <= |ids| && Sorted(Gathered(st, ids))
    requires q == |ids| || exists e :: e in Gathered(st, ids[p..q]) && e.key > end
    ensures Within(Gathered(st, ids[p..q]), start, end) == Within(Gathered(st, ids), start, end)
  {
    hide Sorted, Gathered, Within;
    var a, b, c := Gathered(st, ids[..p]), Gathered(st, ids[p..q]), Gathered(st, ids[q..]);
    GatheredParts(st, ids, p, q);
    if q == |ids| {
      NothingGathered(st, ids[q..]);
    } else {
      assert a + (b + c) + [] == a + b + c;
      SortedMiddle(a, b + c, []);
      SortedAcross(b, c);
    }
    WithinDrop(a, b + c, start, end);
    WithinDrop(c, b, start, end);
    assert a + (b + c) == a + b + c;
  }

  lemma CompleteDown(st: Store, ids: seq<nat>, p: nat, q: nat, start: Key, end: Key, x: nat)
    requires StandsAt(st, ids, start, x, p) && q <= p < |ids| && Sorted(Gathered(st, ids))
    requires q == 0 || exists e :: e in Gathered(st, ids[q..p + 1]) && e.key < end
    ensures Within(Gathered(st, ids[q..p + 1]), end, start) == Within(Gathered(st, ids), end, start)
  {
    hide Sorted, Gathered, Within;
    var a, b, c := Gathered(st, ids[..q]), Gathered(st, ids[q..p + 1]), Gathered(st, ids[p + 1..]);
    GatheredParts(st, ids, q, p + 1);
    if q == 0 {
      NothingGathered(st, ids[..q]);
    } else {
      assert [] + (a + b) + c == a + b + c;
      SortedMiddle([], a + b, c);
      SortedAcross(a, b);
    }
    WithinDrop(c, a + b, end, start);
    WithinDrop(a, b, end, start);
  }
}
