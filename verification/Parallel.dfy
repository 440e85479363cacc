// Hot-path transactions on different leaves: any order gives the same store and the same answers.
module Parallel {
  import opened Base
  import opened NodeViews
  import opened Engine
  import opened InsertPlanned
  import opened Structure
  import opened HotTheorems

  datatype HotOp =
    | Put(e: Entry, path: seq<nat>)         // InsertFast
    | Overwrite(e: Entry, path: seq<nat>)   // UpdateFast
    | Take(key: Key, path: seq<nat>)        // DeleteFast

  // What the sender sees: success with return data, or an error.
  datatype Answer = Done | Taken(was: Option<Val>) | Refused(error: Error)

  function HotApply(s: State, op: HotOp): (r: (State, Answer))
    requires AllShaped(s.nodes)
  {
    match op
    case Put(e, path) =>
      (match InsertFast(s, e, path) case Ok(s') => (s', Done) case Err(x) => (s, Refused(x)))
    case Overwrite(e, path) =>
      (match UpdateFast(s, e, path) case Ok(s') => (s', Done) case Err(x) => (s, Refused(x)))
    case Take(key, path) =>
      (match DeleteFast(s, key, path) case Ok(r) => (r.0, Taken(r.1)) case Err(x) => (s, Refused(x)))
  }

  // The leaf account an operation writes, if any.
  function Target(op: HotOp): Option<nat> {
    if |op.path| == 0 then None else Some(op.path[|op.path| - 1])
  }

  // What one operation makes of its own leaf.
  function LeafAfter(s: State, op: HotOp): NodeView
    requires AllShaped(s.nodes) && Target(op).Some? && Target(op).value in s.nodes
  {
    var x := Target(op).value;
    var s' := HotApply(s, op).0;
    if x in s'.nodes then s'.nodes[x] else s.nodes[x]
  }

  // ---- an operation depends on the structure and its own leaf only ----

  ghost predicate SameLeaf(a: State, b: State, op: HotOp) {
    Target(op).Some? ==> (Target(op).value in a.nodes ==> Target(op).value in b.nodes && b.nodes[Target(op).value] == a.nodes[Target(op).value])
  }

  lemma HeaderSame(a: State, b: State)
    requires SameStructure(a, b)
    ensures b == a.(nodes := b.nodes)
  {
  }

  lemma Local(a: State, b: State, op: HotOp)
    requires AllShaped(a.nodes) && AllShaped(b.nodes) && SameStructure(a, b) && Roomy(a) && Roomy(b) && SameLeaf(a, b, op)
    ensures HotApply(a, op).1 == HotApply(b, op).1
    ensures Target(op).Some? && Target(op).value in a.nodes ==>
            Target(op).value in b.nodes && LeafAfter(a, op) == LeafAfter(b, op)
  {
    HeaderSame(a, b);
    hide SameStructure, FastLeaf, Inserted, Removed, Updated, Holds, ValueIn;
    match op
    case Put(e, path) => FastLeafSame(a, b, path, e.key);
    case Overwrite(e, path) => FastLeafSame(a, b, path, e.key);
    case Take(key, path) => FastLeafSame(a, b, path, key);
  }

  // And it writes nothing else.
  lemma WritesOwnLeaf(s: State, op: HotOp)
    requires AllShaped(s.nodes) && Roomy(s)
    ensures var s' := HotApply(s, op).0;
            && SameStructure(s, s') && Roomy(s') && AllShaped(s'.nodes)
            && forall x | x in s.nodes && Target(op) != Some(x) :: x in s'.nodes && s'.nodes[x] == s.nodes[x]
  {
    Reflexive(s);
    hide FastLeaf, Holds, Inserted, Removed, Updated, SameStructure, Roomy;
    match op
    case Put(e, path) =>
      if InsertFast(s, e, path).Ok? {
        var es := s.nodes[FastLeaf(s, path, e.key).value].es;
        InsertedLength(es, e);
        LeafRewritten(s, FastLeaf(s, path, e.key).value, Inserted(es, e));
      }
    case Overwrite(e, path) =>
      if UpdateFast(s, e, path).Ok? {
        var leaf := FastLeaf(s, path, e.key).value;
        UpdatedLength(s.nodes[leaf].es, e);
        LeafCount(s, leaf);
        LeafRewritten(s, leaf, Updated(s.nodes[leaf].es, e));
      }
    case Take(key, path) =>
      if DeleteFast(s, key, path).Ok? && Holds(s.nodes[FastLeaf(s, path, key).value].es, key) {
        var leaf := FastLeaf(s, path, key).value;
        RemovedLength(s.nodes[leaf].es, key);
        LeafCount(s, leaf);
        LeafRewritten(s, leaf, Removed(s.nodes[leaf].es, key));
      }
  }

  lemma LeafCount(s: State, leaf: nat)
    requires Roomy(s) && leaf in s.nodes && s.nodes[leaf].Leaf?
    ensures |s.nodes[leaf].es| <= s.fanout + 1
  {
    assert Count(s.nodes[leaf]) <= s.fanout + 1;
  }

  lemma UpdatedLength(es: seq<Entry>, e: Entry)
    requires Holds(es, e.key)
    ensures |Updated(es, e)| == |es|
  {
  }

  // ---- many operations ----

  function HotRun(s: State, ops: seq<HotOp>): State
    requires AllShaped(s.nodes) && Roomy(s)
    decreases |ops|
  {
    if ops == [] then s
    else
      WritesOwnLeaf(s, ops[0]);
      HotRun(HotApply(s, ops[0]).0, ops[1..])
  }

  function HotAnswers(s: State, ops: seq<HotOp>): (out: seq<Answer>)
    requires AllShaped(s.nodes) && Roomy(s)
    ensures |out| == |ops|
    decreases |ops|
  {
    if ops == [] then []
    else
      WritesOwnLeaf(s, ops[0]);
      [HotApply(s, ops[0]).1] + HotAnswers(HotApply(s, ops[0]).0, ops[1..])
  }

  // No two operations name the same leaf account.
  ghost predicate LeavesApart(ops: seq<HotOp>) {
    forall i, j | 0 <= i < j < |ops| && Target(ops[i]).Some? :: Target(ops[i]) != Target(ops[j])
  }

  // What every operation leaves behind, seen from the state they all started in.
  ghost predicate EachOnItsOwn(s: State, s': State, ops: seq<HotOp>)
    requires AllShaped(s.nodes)
  {
    && SameStructure(s, s')
    && (forall i | 0 <= i < |ops| && Target(ops[i]).Some? && Target(ops[i]).value in s.nodes ::
          Target(ops[i]).value in s'.nodes && s'.nodes[Target(ops[i]).value] == LeafAfter(s, ops[i]))
    && (forall x | x in s.nodes && (forall i | 0 <= i < |ops| :: Target(ops[i]) != Some(x)) ::
          x in s'.nodes && s'.nodes[x] == s.nodes[x])
  }

  lemma TailApart(ops: seq<HotOp>)
    requires LeavesApart(ops) && |ops| > 0
    ensures LeavesApart(ops[1..])
    ensures forall i | 0 < i < |ops| && Target(ops[i]).Some? :: Target(ops[0]) != Target(ops[i])
  {
    var rest := ops[1..];
    forall i, j | 0 <= i < j < |rest| && Target(rest[i]).Some? ensures Target(rest[i]) != Target(rest[j]) {
      assert rest[i] == ops[i + 1] && rest[j] == ops[j + 1];
    }
  }

  lemma LaterUntouched(s: State, op: HotOp, later: HotOp)
    requires AllShaped(s.nodes) && Roomy(s) && AllShaped(HotApply(s, op).0.nodes)
    requires Target(later).Some? ==> Target(op) != Target(later)
    ensures HotApply(HotApply(s, op).0, later).1 == HotApply(s, later).1
    ensures Target(later).Some? && Target(later).value in s.nodes ==>
            Target(later).value in HotApply(s, op).0.nodes && LeafAfter(HotApply(s, op).0, later) == LeafAfter(s, later)
  {
    hide HotApply, LeafAfter, SameStructure, Roomy;
    WritesOwnLeaf(s, op);
    Local(s, HotApply(s, op).0, later);
  }

  // Every answer is the one the operation would have got first.
  lemma {:induction false} AnswersAreOwn(s: State, ops: seq<HotOp>)
    requires AllShaped(s.nodes) && Roomy(s) && LeavesApart(ops)
    ensures forall i | 0 <= i < |ops| :: HotAnswers(s, ops)[i] == HotApply(s, ops[i]).1
    decreases |ops|
  {
    if ops != [] {
      WritesOwnLeaf(s, ops[0]);
      TailApart(ops);
      var s1 := HotApply(s, ops[0]).0;
      hide HotApply, LeavesApart, AllShaped, Roomy, SameStructure;
      AnswersAreOwn(s1, ops[1..]);
      forall i | 0 <= i < |ops| ensures HotAnswers(s, ops)[i] == HotApply(s, ops[i]).1 {
        if i > 0 {
          assert ops[1..][i - 1] == ops[i];
          LaterUntouched(s, ops[0], ops[i]);
        }
      }
    }
  }

  lemma {:induction false} StoreIsOwn(s: State, ops: seq<HotOp>)
    requires AllShaped(s.nodes) && Roomy(s) && LeavesApart(ops)
    ensures EachOnItsOwn(s, HotRun(s, ops), ops)
    decreases |ops|
  {
    if ops == [] {
      Reflexive(s);
    } else {
      WritesOwnLeaf(s, ops[0]);
      TailApart(ops);
      var s1 := HotApply(s, ops[0]).0;
      StoreIsOwn(s1, ops[1..]);
      hide HotApply, LeavesApart, AllShaped, Roomy, SameStructure, LeafAfter;
      OwnStep(s, ops, HotRun(s1, ops[1..]));
    }
  }

  lemma OwnStep(s: State, ops: seq<HotOp>, s2: State)
    requires AllShaped(s.nodes) && Roomy(s) && LeavesApart(ops) && |ops| > 0
    requires AllShaped(HotApply(s, ops[0]).0.nodes)
    requires EachOnItsOwn(HotApply(s, ops[0]).0, s2, ops[1..])
    ensures EachOnItsOwn(s, s2, ops)
  {
    var s1 := HotApply(s, ops[0]).0;
    WritesOwnLeaf(s, ops[0]);
    TailApart(ops);
    SameTrans(s, s1, s2);
    LiveSame(s, s1);
    hide HotApply, LeavesApart, AllShaped, Roomy, SameStructure;
    forall i | 0 <= i < |ops| && Target(ops[i]).Some? && Target(ops[i]).value in s.nodes
      ensures Target(ops[i]).value in s2.nodes && s2.nodes[Target(ops[i]).value] == LeafAfter(s, ops[i])
    {
      if i > 0 {
        assert ops[1..][i - 1] == ops[i];
        LaterUntouched(s, ops[0], ops[i]);
      } else {
        forall j | 0 <= j < |ops[1..]| ensures Target(ops[1..][j]) != Target(ops[0]) {
          assert ops[1..][j] == ops[j + 1];
        }
      }
    }
    forall x | x in s.nodes && (forall i | 0 <= i < |ops| :: Target(ops[i]) != Some(x))
      ensures x in s2.nodes && s2.nodes[x] == s.nodes[x]
    {
      forall j | 0 <= j < |ops[1..]| ensures Target(ops[1..][j]) != Some(x) {
        assert ops[1..][j] == ops[j + 1];
      }
    }
  }

  lemma LiveSame(a: State, b: State)
    requires SameStructure(a, b)
    ensures forall x :: x in a.nodes <==> x in b.nodes
  {
    assert forall x :: x in a.nodes.Keys <==> x in b.nodes.Keys;
  }

  // ---- permutations ----

  ghost predicate Permutes(perm: seq<nat>, n: nat) {
    && |perm| == n && Distinct(perm)
    && (forall i | 0 <= i < n :: perm[i] < n)
    && (forall k | 0 <= k < n :: k in perm)
  }

  function Reordered<T>(s: seq<T>, perm: seq<nat>): (r: seq<T>)
    requires forall i | 0 <= i < |perm| :: perm[i] < |s|
    ensures |r| == |perm| && forall i | 0 <= i < |perm| :: r[i] == s[perm[i]]
  {
    seq(|perm|, i requires 0 <= i < |perm| => s[perm[i]])
  }

  lemma ReorderedApart(ops: seq<HotOp>, perm: seq<nat>)
    requires LeavesApart(ops) && Permutes(perm, |ops|)
    ensures LeavesApart(Reordered(ops, perm))
  {
    var r := Reordered(ops, perm);
    forall i, j | 0 <= i < j < |r| && Target(r[i]).Some? ensures Target(r[i]) != Target(r[j]) {
      assert r[i] == ops[perm[i]] && r[j] == ops[perm[j]] && perm[i] != perm[j];
      assert perm[i] < perm[j] || perm[j] < perm[i];
    }
  }

  // The description of the final store does not depend on the order.
  lemma OwnDecides(s: State, a: State, b: State, ops: seq<HotOp>, perm: seq<nat>)
    requires AllShaped(s.nodes) && Permutes(perm, |ops|)
    requires EachOnItsOwn(s, a, ops) && EachOnItsOwn(s, b, Reordered(ops, perm))
    ensures a == b
  {
    assert SameStructure(s, a) && SameStructure(s, b);
    LiveSame(s, a);
    LiveSame(s, b);
    HeaderSame(s, a);
    HeaderSame(s, b);
    hide EachOnItsOwn, SameStructure, AllShaped, Permutes, Reordered;
    forall x | x in s.nodes ensures a.nodes[x] == b.nodes[x] {
      OwnAt(s, a, b, ops, perm, x);
    }
    assert a.nodes == b.nodes;
  }

  lemma OwnAt(s: State, a: State, b: State, ops: seq<HotOp>, perm: seq<nat>, x: nat)
    requires AllShaped(s.nodes) && Permutes(perm, |ops|) && x in s.nodes
    requires EachOnItsOwn(s, a, ops) && EachOnItsOwn(s, b, Reordered(ops, perm))
    ensures x in a.nodes && x in b.nodes && a.nodes[x] == b.nodes[x]
  {
    hide LeafAfter, SameStructure, AllShaped;
    var r := Reordered(ops, perm);
    if i :| 0 <= i < |ops| && Target(ops[i]) == Some(x) {
      assert i in perm;
      var j :| 0 <= j < |perm| && perm[j] == i;
      assert r[j] == ops[i];
    } else {
      forall j | 0 <= j < |r| ensures Target(r[j]) != Some(x) {
        assert r[j] == ops[perm[j]];
      }
    }
  }

  // Transactions on different leaves commute: every order ends in the same state, and every
  // transaction gets the same answer.
  lemma OrderDoesNotMatter(s: State, ops: seq<HotOp>, perm: seq<nat>)
    requires AllShaped(s.nodes) && Roomy(s) && LeavesApart(ops) && Permutes(perm, |ops|)
    ensures HotRun(s, Reordered(ops, perm)) == HotRun(s, ops)
    ensures HotAnswers(s, Reordered(ops, perm)) == Reordered(HotAnswers(s, ops), perm)
  {
    var r := Reordered(ops, perm);
    hide HotApply, LeavesApart, AllShaped, Roomy, Permutes, EachOnItsOwn;
    ReorderedApart(ops, perm);
    StoreIsOwn(s, ops);
    StoreIsOwn(s, r);
    OwnDecides(s, HotRun(s, ops), HotRun(s, r), ops, perm);
    AnswersAreOwn(s, ops);
    AnswersAreOwn(s, r);
  }
}
