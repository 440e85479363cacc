// RangeScan as the program runs it, writing into the caller's scratch account.
module ScanProgram {
  import opened Base
  import opened NodeViews
  import opened Shapes
  import opened Engine
  import opened Represent
  import opened NodeOps
  import opened Accounts
  import opened Tidy
  import opened HotProgram
  import opened Scans

  function Behind(done: seq<Entry>, r: Result<seq<Entry>>): Result<seq<Entry>> {
    match r
    case Ok(rest) => Ok(done + rest)
    case Err(e) => Err(e)
  }

  lemma BehindOne(done: seq<Entry>, x: Entry, r: Result<seq<Entry>>)
    ensures Behind(done, Behind([x], r)) == Behind(done + [x], r)
  {
    if r.Ok? {
      assert done + ([x] + r.value) == done + [x] + r.value;
    }
  }

  lemma BehindNone(done: seq<Entry>, r: Result<seq<Entry>>)
    ensures Behind([], r) == r && Behind(done, Ok([])) == Ok(done)
  {
    if r.Ok? {
      assert [] + r.value == r.value;
    }
    assert done + [] == done;
  }

  lemma UpStep(s: State, cur: nat, i: nat, end: Key, extra: seq<nat>, room: nat)
    requires cur in s.nodes && s.nodes[cur].Leaf? && i <= |s.nodes[cur].es|
    ensures var v := s.nodes[cur];
            ScanUp(s, cur, i, end, extra, room) ==
            if room > 0 && i < |v.es| then
              if v.es[i].key > end then Ok([]) else Behind([v.es[i]], ScanUp(s, cur, i + 1, end, extra, room - 1))
            else if room == 0 || v.next == 0 || |extra| == 0 then Ok([])
            else if CheckNode(s, extra[0], v.next).Some? then Err(CheckNode(s, extra[0], v.next).value)
            else if s.nodes[v.next].Inner? then Err(BadPath) else ScanUp(s, v.next, 0, end, extra[1..], room)
  {
  }

  lemma DownStep(s: State, cur: nat, n: nat, end: Key, extra: seq<nat>, room: nat)
    requires cur in s.nodes && s.nodes[cur].Leaf? && n <= |s.nodes[cur].es|
    ensures var es := s.nodes[cur].es;
            ScanDown(s, cur, n, end, extra, room) ==
            if room > 0 && n > 0 then
              if es[n - 1].key < end then Ok([]) else Behind([es[n - 1]], ScanDown(s, cur, n - 1, end, extra, room - 1))
            else if room == 0 || |extra| == 0 then Ok([])
            else if CheckPrev(s, extra[0], cur).Some? then Err(CheckPrev(s, extra[0], cur).value)
            else ScanDown(s, extra[0], |s.nodes[extra[0]].es|, end, extra[1..], room)
  {
  }

  lemma EntryAt(t: Torna, x: nat, i: nat)
    requires t.Wf() && x in t.Abs().nodes && t.Abs().nodes[x].Leaf? && i < |t.Abs().nodes[x].es|
    ensures x in t.nodes && t.nodes[x].Valid() && i < t.nodes[x].keyCount
    ensures t.Abs().nodes[x].es[i] == Entry(t.nodes[x].keys[i], t.nodes[x].vals[i])
  {
    Look(t, x);
    ZipAt(t.nodes[x].Keys(), t.nodes[x].Vals(), i);
  }

  // The scratch account is no node.
  ghost predicate Scratch(t: Torna, out: array<Entry>)
    reads t
  {
    out !in t.Footprint()
  }

  method WriteOut(t: Torna, out: array<Entry>, count: nat, x: nat, i: nat)
    requires t.Wf() && Scratch(t, out) && count < out.Length
    requires x in t.Abs().nodes && t.Abs().nodes[x].Leaf? && i < |t.Abs().nodes[x].es|
    modifies out
    ensures t.Wf() && t.Abs() == old(t.Abs()) && t.Footprint() == old(t.Footprint())
    ensures out[..count + 1] == old(out[..count]) + [old(t.Abs()).nodes[x].es[i]]
  {
    EntryAt(t, x, i);
    ghost var was := out[..count];
    hide Torna.Wf, Torna.Abs, Node.View;
    var n := t.nodes[x];
    out[count] := Entry(n.keys[i], n.vals[i]);
    assert out[..count] == was;
    t.Untouched();
  }

  method ScanForward(t: Torna, start: nat, from: nat, end: Key, extra: seq<nat>, room: nat, out: array<Entry>) returns (r: Result<nat>)
    requires t.Wf() && Scratch(t, out) && room <= out.Length
    requires start in t.Abs().nodes && t.Abs().nodes[start].Leaf? && from <= |t.Abs().nodes[start].es|
    modifies out
    ensures t.Wf() && t.Abs() == old(t.Abs())
    ensures match ScanUp(old(t.Abs()), start, from, end, extra, room)
            case Ok(es) => r == Ok(|es|) && |es| <= out.Length && out[..|es|] == es
            case Err(e) => r == Err(e)
  {
    hide Torna.Wf, Torna.Abs, Torna.Footprint, ScanUp, CheckNode, Behind, Node.View, Node.Valid, Node.Entries;
    ghost var s := t.Abs();
    ghost var full := ScanUp(s, start, from, end, extra, room);
    var cur, i, ex, count := start, from, 0, 0;
    assert extra[0..] == extra && out[..0] == [];
    BehindNone([], full);
    while true
      invariant t.Wf() && t.Abs() == s && Scratch(t, out) && t.Footprint() == old(t.Footprint())
      invariant cur in s.nodes && s.nodes[cur].Leaf? && 0 <= i <= |s.nodes[cur].es| && ex <= |extra| && count <= room
      invariant full == Behind(out[..count], ScanUp(s, cur, i, end, extra[ex..], room - count))
      decreases |extra| - ex
    {
      Look(t, cur);
      while i < t.nodes[cur].keyCount && count < room
        invariant t.Wf() && t.Abs() == s && Scratch(t, out) && t.Footprint() == old(t.Footprint())
        invariant cur in t.nodes && t.nodes[cur].keyCount == |s.nodes[cur].es| && t.nodes[cur].next == s.nodes[cur].next
        invariant 0 <= i <= |s.nodes[cur].es| && count <= room
        invariant full == Behind(out[..count], ScanUp(s, cur, i, end, extra[ex..], room - count))
        decreases |s.nodes[cur].es| - i
      {
        UpStep(s, cur, i, end, extra[ex..], room - count);
        EntryAt(t, cur, i);
        if t.nodes[cur].keys[i] > end {
          BehindNone(out[..count], Ok([]));
          return Ok(count);
        }
        BehindOne(out[..count], s.nodes[cur].es[i], ScanUp(s, cur, i + 1, end, extra[ex..], room - count - 1));
        WriteOut(t, out, count, cur, i);
        Look(t, cur);
        count := count + 1;
        i := i + 1;
      }
      UpStep(s, cur, i, end, extra[ex..], room - count);
      BehindNone(out[..count], Ok([]));
      if count >= room {
        return Ok(count);
      }
      var next := t.nodes[cur].next;
      if next == 0 || ex >= |extra| {
        return Ok(count);
      }
      assert extra[ex..][0] == extra[ex] && extra[ex..][1..] == extra[ex + 1..];
      BehindError(out[..count]);
      var e := t.CheckAccount(extra[ex], next);
      if e.Some? {
        return Err(e.value);
      }
      CheckedIs(s, extra[ex], next);
      Look(t, next);
      if !t.nodes[extra[ex]].isLeaf {
        return Err(BadPath);
      }
      cur, i := extra[ex], 0;
      ex := ex + 1;
    }
  }

  lemma BehindError(done: seq<Entry>)
    ensures forall e: Error :: Behind(done, Err(e)) == Err(e)
  {
  }

  // The checks on a predecessor: a leaf of this tree that points to `cur`.
  method CheckPredecessor(t: Torna, acc: nat, cur: nat) returns (e: Option<Error>)
    requires t.Wf()
    ensures t.Wf() && t.Abs() == old(t.Abs()) && t.Footprint() == old(t.Footprint())
    ensures e == CheckPrev(t.Abs(), acc, cur)
  {
    t.Live();
    assert acc in t.nodes.Keys <==> acc in t.Abs().nodes.Keys;
    hide Torna.Wf, Torna.Abs;
    Header(t);
    if acc !in t.nodes {
      return Some(WrongOwner);
    }
    Look(t, acc);
    if t.nodes[acc].keyCount > t.fanout + 1 {
      return Some(BadNode);
    }
    if !t.nodes[acc].isLeaf {
      return Some(BadPath);
    }
    if t.nodes[acc].next != cur {
      return Some(BadPath);
    }
    return None;
  }

  method ScanBackward(t: Torna, start: nat, upto: nat, end: Key, extra: seq<nat>, room: nat, out: array<Entry>) returns (r: Result<nat>)
    requires t.Wf() && Scratch(t, out) && room <= out.Length
    requires start in t.Abs().nodes && t.Abs().nodes[start].Leaf? && upto <= |t.Abs().nodes[start].es|
    modifies out
    ensures t.Wf() && t.Abs() == old(t.Abs())
    ensures match ScanDown(old(t.Abs()), start, upto, end, extra, room)
            case Ok(es) => r == Ok(|es|) && |es| <= out.Length && out[..|es|] == es
            case Err(e) => r == Err(e)
  {
    hide Torna.Wf, Torna.Abs, Torna.Footprint, ScanDown, CheckPrev, Behind, Node.View, Node.Valid, Node.Entries;
    ghost var s := t.Abs();
    ghost var full := ScanDown(s, start, upto, end, extra, room);
    var cur, i: int, ex, count := start, upto - 1, 0, 0;
    assert extra[0..] == extra && out[..0] == [];
    BehindNone([], full);
    while true
      invariant t.Wf() && t.Abs() == s && Scratch(t, out) && t.Footprint() == old(t.Footprint())
      invariant cur in s.nodes && s.nodes[cur].Leaf? && -1 <= i < |s.nodes[cur].es| && ex <= |extra| && count <= room
      invariant full == Behind(out[..count], ScanDown(s, cur, i + 1, end, extra[ex..], room - count))
      decreases |extra| - ex
    {
      while i >= 0 && count < room
        invariant t.Wf() && t.Abs() == s && Scratch(t, out) && t.Footprint() == old(t.Footprint())
        invariant -1 <= i < |s.nodes[cur].es| && count <= room
        invariant full == Behind(out[..count], ScanDown(s, cur, i + 1, end, extra[ex..], room - count))
        decreases i + 1
      {
        DownStep(s, cur, i + 1, end, extra[ex..], room - count);
        EntryAt(t, cur, i);
        if t.nodes[cur].keys[i] < end {
          BehindNone(out[..count], Ok([]));
          return Ok(count);
        }
        BehindOne(out[..count], s.nodes[cur].es[i], ScanDown(s, cur, i, end, extra[ex..], room - count - 1));
        WriteOut(t, out, count, cur, i);
        count := count + 1;
        i := i - 1;
      }
      DownStep(s, cur, i + 1, end, extra[ex..], room - count);
      BehindNone(out[..count], Ok([]));
      if count >= room {
        return Ok(count);
      }
      if ex >= |extra| {
        return Ok(count);
      }
      assert extra[ex..][0] == extra[ex] && extra[ex..][1..] == extra[ex + 1..];
      BehindError(out[..count]);
      var e := CheckPredecessor(t, extra[ex], cur);
      if e.Some? {
        return Err(e.value);
      }
      PrevIs(s, extra[ex], cur);
      Look(t, extra[ex]);
      cur := extra[ex];
      i := t.nodes[cur].keyCount - 1;
      ex := ex + 1;
    }
  }

  lemma PrevIs(s: State, acc: nat, cur: nat)
    requires CheckPrev(s, acc, cur) == None
    ensures acc in s.nodes && s.nodes[acc].Leaf?
  {
  }

  method DoRangeScan(t: Torna, rq: ScanRq, out: array<Entry>) returns (r: Result<nat>)
    requires Sound(t) && Scratch(t, out) && out.Length == rq.cap
    modifies out
    ensures t.Wf() && t.Abs() == old(t.Abs())
    ensures match RangeScan(old(t.Abs()), rq)
            case Ok(es) => r == Ok(|es|) && |es| <= out.Length && out[..|es|] == es
            case Err(e) => r == Err(e)
  {
    hide Torna.Wf, Torna.Abs, Torna.Footprint, TidyState, AllShaped, ScanUp, ScanDown, Descend, Node.View, Node.Valid,
      Pos, LowerBound, KeysOf, Ascending;
    Header(t);
    var room := if rq.max > rq.cap then rq.cap else rq.max;
    if t.height == 0 || room == 0 {
      assert out[..0] == [];
      return Ok(0);
    }
    if |rq.path| == 0 || |rq.path| != t.height {
      return Err(BadPath);
    }
    var cur := DescendTo(t, rq.path, rq.start);
    if cur.Err? {
      return Err(cur.error);
    }
    ghost var s := t.Abs();
    var x := cur.value;
    var lb, found := Stand(t, x, rq.start);
    if rq.reverse {
      r := ScanBackward(t, x, if found then lb + 1 else lb, rq.end, rq.extra, room, out);
    } else {
      r := ScanForward(t, x, lb, rq.end, rq.extra, room, out);
    }
  }

  // Where `key` stands in leaf `x`.
  method Stand(t: Torna, x: nat, key: Key) returns (lb: nat, found: bool)
    requires Sound(t) && x in t.Abs().nodes && t.Abs().nodes[x].Leaf?
    ensures t.Wf() && t.Abs() == old(t.Abs()) && t.Footprint() == old(t.Footprint())
    ensures var es := old(t.Abs()).nodes[x].es; lb == Pos(es, key) && lb <= |es| && found == (lb < |es| && es[lb].key == key)
  {
    LookTidy(t, x);
    Look(t, x);
    var n := t.nodes[x];
    EntriesZip(n);
    hide Torna.Wf, Torna.Abs, TidyState, AllShaped, Ascending, Node.View, Pos;
    lb, found := n.Locate(key);
    t.Untouched();
  }
}
