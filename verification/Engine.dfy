// What every instruction of sbf/src/torna/torna.c does, as a function of the tree's accounts.
// An account is named by the node index whose address it is; the runtime undoes every write
// of an instruction that returns an error, so an instruction is a Result<State>.
module Engine {
  import opened Base
  import opened NodeViews
  import opened Shapes

  const MAX_TREE_HEIGHT: nat := 32
  const MAX_MULTI_LEAF_LEAVES: nat := 8
  const MAX_MULTI_LEAF_EPL: nat := 12

  // The header, the allocator's high-water mark and the live node accounts of one tree.
  datatype State = State(
    fanout: nat,
    root: nat,
    height: nat,
    leftmost: nat,
    rightmost: nat,
    epoch: nat,
    highWater: nat,
    nodes: Store)
  {
    function Set(idx: nat, v: NodeView): State {
      this.(nodes := nodes[idx := v])
    }

    // Close an account: its node is gone.
    function Close(idx: nat): State {
      this.(nodes := nodes - {idx})
    }

    function Bumped(): State {
      this.(epoch := epoch + 1)
    }

    // A read of an account that is not live sees zeros.
    function At(idx: nat): NodeView {
      if idx in nodes then nodes[idx] else ZEROED
    }

    function Min(): nat {
      fanout / 2
    }
  }

  predicate FanoutOk(fanout: nat) {
    4 <= fanout <= 256
  }

  function InitTree(fanout: nat): State {
    State(fanout, 0, 0, 0, 0, 0, 0, map[])
  }

  // ---- account checks ----

  function CheckNode(s: State, acc: nat, want: nat): Option<Error> {
    if acc !in s.nodes then Some(NodeTooSmall)
    else if Count(s.nodes[acc]) > s.fanout + 1 then Some(BadNode)
    else if acc != want then Some(BadPath)
    else None
  }

  lemma CheckedIs(s: State, acc: nat, want: nat)
    ensures CheckNode(s, acc, want) == None ==> acc == want && acc in s.nodes
  {
  }

  // The next spare must be the address of the next node index, and still be empty.
  function ConsumeSpare(s: State, acc: nat, isLeaf: bool): Result<State> {
    if acc in s.nodes then Err(InitTwice)
    else if acc != s.highWater + 1 then Err(BadPath)
    else Ok(s.(highWater := acc, nodes := s.nodes[acc := if isLeaf then Leaf([], 0) else ZEROED]))
  }

  predicate AllShaped(st: Store) {
    forall i | i in st :: Shaped(st[i])
  }

  // Check the accounts path[lvl..] against the search path of `key`, which must go through
  // node `want` at this level.
  function Descend(s: State, path: seq<nat>, key: Key, lvl: nat, want: nat): (r: Result<nat>)
    requires lvl < |path| && AllShaped(s.nodes)
    ensures r.Ok? ==> path[lvl] == want && PathOpen(s.nodes, path, lvl) && r.value == path[|path| - 1]
    decreases |path| - lvl
  {
    match CheckNode(s, path[lvl], want)
    case Some(e) => Err(e)
    case None =>
      match s.nodes[path[lvl]]
      case Leaf(_, _) => if lvl == |path| - 1 then Ok(path[lvl]) else Err(BadPath)
      case Inner(keys, kids) =>
        if lvl == |path| - 1 then Err(BadPath)
        else Descend(s, path, key, lvl + 1, kids[Route(keys, key)])
  }

  // Internal nodes down to a leaf.
  predicate PathOpen(st: Store, path: seq<nat>, lvl: nat) {
    && lvl < |path|
    && (forall i | lvl <= i < |path| :: path[i] in st && Shaped(st[path[i]]))
    && (forall i | lvl <= i < |path| - 1 :: st[path[i]].Inner?)
    && st[path[|path| - 1]].Leaf?
  }

  // The same walk without any check, used for the last key of a batch.
  predicate RoutesToLeaf(s: State, path: seq<nat>, key: Key, lvl: nat)
    requires PathOpen(s.nodes, path, lvl)
    decreases |path| - lvl
  {
    lvl == |path| - 1
    || (var v := s.nodes[path[lvl]];
        path[lvl + 1] == v.kids[Route(v.keys, key)] && RoutesToLeaf(s, path, key, lvl + 1))
  }

  // ---- Insert ----

  // The state once the levels from the leaf up to `lvl` are done: `used` spares are consumed,
  // and if `split`, the new node `right` with separator `sep` waits to enter level lvl - 1.
  datatype Rise = Rise(s: State, used: nat, split: bool, sep: Key, right: nat)

  ghost predicate KindsKept(a: Store, b: Store) {
    forall i | i in a :: i in b && b[i].Leaf? == a[i].Leaf? && (Shaped(a[i]) ==> Shaped(b[i]))
  }

  // Node `idx` keeps `v` of what it held, and a new node takes `w`.
  function SplitInto(s: State, idx: nat, v: NodeView, spare: nat, w: NodeView): Result<State> {
    var s1 :- ConsumeSpare(s, spare, w.Leaf?);
    Ok(s1.Set(idx, v).Set(s1.highWater, w))
  }

  // An over-full leaf keeps its left half; the right half goes to a new leaf behind it.
  function SplitLeaf(s: State, idx: nat, es: seq<Entry>, next: nat, spares: seq<nat>): (r: Result<Rise>)
    requires |es| >= 1
    requires idx in s.nodes && s.nodes[idx].Leaf?
    ensures r.Ok? ==> KindsKept(s.nodes, r.value.s.nodes) && r.value.used <= |spares|
  {
    if |spares| == 0 then Err(NeedSplitSlot)
    else
      var right, half := s.highWater + 1, |es| / 2;
      var s1 :- SplitInto(s, idx, Leaf(es[..half], right), spares[0], Leaf(es[half..], next));
      Ok(Rise(if next == 0 then s1.(rightmost := right) else s1, 1, true, es[half].key, right))
  }

  function InsertLeaf(s: State, idx: nat, e: Entry, spares: seq<nat>): (r: Result<Rise>)
    requires idx in s.nodes && s.nodes[idx].Leaf?
    ensures r.Ok? ==> KindsKept(s.nodes, r.value.s.nodes) && r.value.used <= |spares|
  {
    var Leaf(es, next) := s.nodes[idx];
    if Holds(es, e.key) then Err(DuplicateKey)
    else
      var es' := Inserted(es, e);
      if |es'| <= s.fanout then Ok(Rise(s.Set(idx, Leaf(es', next)), 0, false, 0, 0))
      else SplitLeaf(s, idx, es', next, spares)
  }

  function InsertInner(u: Rise, idx: nat, spares: seq<nat>): (r: Result<Rise>)
    requires idx in u.s.nodes && u.s.nodes[idx].Inner? && Shaped(u.s.nodes[idx])
    requires u.used <= |spares|
    ensures r.Ok? ==> KindsKept(u.s.nodes, r.value.s.nodes) && r.value.used <= |spares|
  {
    var Inner(keys, kids) := u.s.nodes[idx];
    var pos := LowerBound(keys, u.sep);
    var keys', kids' := InsertAt(keys, pos, u.sep), KidInsertAt(kids, pos, u.right);
    if |keys'| <= u.s.fanout then Ok(u.(s := u.s.Set(idx, Inner(keys', kids')), split := false))
    else if u.used >= |spares| then Err(NeedSplitSlot)
    else
      var right, mid := u.s.highWater + 1, |keys'| / 2;
      var s1 :- SplitInto(u.s, idx, Inner(keys'[..mid], kids'[..mid + 1]), spares[u.used],
                          Inner(keys'[mid + 1..], kids'[mid + 1..]));
      Ok(Rise(s1, u.used + 1, true, keys'[mid], right))
  }

  function InsertUp(s: State, path: seq<nat>, e: Entry, spares: seq<nat>, lvl: nat): (r: Result<Rise>)
    requires PathOpen(s.nodes, path, lvl)
    ensures r.Ok? ==> KindsKept(s.nodes, r.value.s.nodes) && r.value.used <= |spares|
    decreases |path| - lvl
  {
    if lvl == |path| - 1 then InsertLeaf(s, path[lvl], e, spares)
    else
      var u :- InsertUp(s, path, e, spares, lvl + 1);
      if u.split then InsertInner(u, path[lvl], spares) else Ok(u)
  }

  // A split that reaches the top puts a new root above the old one.
  function GrowRoot(u: Rise, spares: seq<nat>): Result<State>
    requires u.used <= |spares|
  {
    if u.used == |spares| then Err(NeedSplitSlot)
    else if u.s.height >= MAX_TREE_HEIGHT then Err(BadPath)
    else
      var s1 :- ConsumeSpare(u.s, spares[u.used], false);
      Ok(s1.Set(s1.highWater, Inner([u.sep], [u.s.root, u.right]))
           .(root := s1.highWater, height := s1.height + 1))
  }

  function Insert(s: State, e: Entry, path: seq<nat>, spares: seq<nat>): Result<State>
    requires AllShaped(s.nodes)
  {
    if |path| != s.height || |path| > MAX_TREE_HEIGHT then Err(BadPath)
    else if s.height == 0 then
      if |spares| == 0 then Err(NeedSplitSlot)
      else
        var s1 :- ConsumeSpare(s, spares[0], true);
        var idx := s1.highWater;
        Ok(s1.Set(idx, Leaf([e], 0)).(root := idx, height := 1, leftmost := idx, rightmost := idx).Bumped())
    else
      var leaf :- Descend(s, path, e.key, 0, s.root);
      var u :- InsertUp(s, path, e, spares, 0);
      if u.used == 0 then Ok(u.s)                       // no split: not a structural change
      else if !u.split then Ok(u.s.Bumped())
      else
        var s1 :- GrowRoot(u, spares);
        Ok(s1.Bumped())
  }

  // ---- Delete ----

  // sides[lvl] names the sibling supplied for level lvl: 0 none, 1 right, any other left.
  // `sibs` holds the supplied sibling accounts in level order.
  datatype DeleteRq = DeleteRq(key: Key, path: seq<nat>, sides: seq<nat>, sibs: seq<nat>)

  function SibOff(sides: seq<nat>, lvl: nat): (n: nat)
    requires lvl <= |sides|
    ensures n <= lvl
  {
    if lvl == 0 then 0 else SibOff(sides, lvl - 1) + (if sides[lvl - 1] != 0 then 1 else 0)
  }

  // The state once the levels from the leaf up to `lvl` are repaired; `stop` once the
  // cascade has left its loop.
  datatype Fall = Fall(s: State, stop: bool)

  function BorrowFromRight(s: State, l: nat, r: nat, par: nat, sep: nat): Result<State> {
    match (s.At(par), s.At(l), s.At(r))
    case (Inner(pk, pc), Leaf(a, an), Leaf(b, bn)) =>
      if sep >= |pk| || |b| < 2 then Err(BadNode) else
      Ok(s.Set(l, Leaf(a + [b[0]], an)).Set(r, Leaf(b[1..], bn)).Set(par, Inner(pk[sep := b[1].key], pc)))
    case (Inner(pk, pc), Inner(ak, ac), Inner(bk, bc)) =>
      if sep >= |pk| || |bk| == 0 || |bc| == 0 then Err(BadNode) else
      Ok(s.Set(l, Inner(ak + [pk[sep]], ac + [bc[0]])).Set(r, Inner(bk[1..], bc[1..]))
          .Set(par, Inner(pk[sep := bk[0]], pc)))
    case _ => Err(BadNode)
  }

  function BorrowFromLeft(s: State, l: nat, r: nat, par: nat, sep: nat): Result<State> {
    match (s.At(par), s.At(l), s.At(r))
    case (Inner(pk, pc), Leaf(a, an), Leaf(b, bn)) =>
      if sep >= |pk| || |a| == 0 then Err(BadNode) else
      var m := |a| - 1;
      Ok(s.Set(r, Leaf([a[m]] + b, bn)).Set(l, Leaf(a[..m], an)).Set(par, Inner(pk[sep := a[m].key], pc)))
    case (Inner(pk, pc), Inner(ak, ac), Inner(bk, bc)) =>
      if sep >= |pk| || |ak| == 0 || |ac| == 0 then Err(BadNode) else
      var m, n := |ak| - 1, |ac| - 1;
      Ok(s.Set(r, Inner([pk[sep]] + bk, [ac[n]] + bc)).Set(l, Inner(ak[..m], ac[..n]))
          .Set(par, Inner(pk[sep := ak[m]], pc)))
    case _ => Err(BadNode)
  }

  // Everything of `r` moves into `l`, `r` is closed, and its pointer leaves the parent.
  function Merge(s: State, l: nat, r: nat, par: nat, sep: nat): Result<State> {
    match (s.At(par), s.At(l), s.At(r))
    case (Inner(pk, pc), Leaf(a, _), Leaf(b, bn)) =>
      if sep >= |pk| || sep + 1 >= |pc| then Err(BadNode) else
      var s1 := s.Set(l, Leaf(a + b, bn)).Set(par, Inner(RemoveAt(pk, sep), RemoveAt(pc, sep + 1))).Close(r);
      Ok(if bn == 0 then s1.(rightmost := l) else s1)
    case (Inner(pk, pc), Inner(ak, ac), Inner(bk, bc)) =>
      if sep >= |pk| || sep + 1 >= |pc| then Err(BadNode) else
      Ok(s.Set(l, Inner(ak + [pk[sep]] + bk, ac + bc))
          .Set(par, Inner(RemoveAt(pk, sep), RemoveAt(pc, sep + 1))).Close(r))
    case _ => Err(BadNode)
  }

  // A sibling with entries to spare lends one, and the cascade stops; otherwise the two merge.
  function Repair(s: State, node: nat, sib: nat, par: nat, our: nat, right: bool): Result<Fall>
    requires right || our > 0
  {
    var borrow := Count(s.At(sib)) > s.Min();
    var s1 :- if right then (if borrow then BorrowFromRight(s, node, sib, par, our) else Merge(s, node, sib, par, our))
              else (if borrow then BorrowFromLeft(s, sib, node, par, our - 1) else Merge(s, sib, node, par, our - 1));
    Ok(Fall(s1, borrow))
  }

  // Repair the under-full node of level lvl with the sibling supplied for it.
  function Fix(s: State, rq: DeleteRq, lvl: nat): Result<Fall>
    requires 0 < lvl < |rq.path| == |rq.sides| && SibOff(rq.sides, |rq.sides|) <= |rq.sibs|
  {
    if rq.sides[lvl] == 0 then Err(BadPath)
    else
      var node, par := rq.path[lvl], rq.path[lvl - 1];
      match s.At(par)
      case Leaf(_, _) => Err(BadNode)
      case Inner(keys, kids) =>
        var our := IndexOf(kids, node);
        var right := rq.sides[lvl] == 1;
        if our > |keys| || our >= |kids| then Err(BadPath)
        else if (if right then our + 1 > |keys| || our + 1 >= |kids| else our == 0) then Err(BadPath)
        else
          SibOffMono(rq.sides, lvl + 1, |rq.sides|);
          var sib := rq.sibs[SibOff(rq.sides, lvl)];
          match CheckNode(s, sib, if right then kids[our + 1] else kids[our - 1])
          case Some(e) => Err(e)
          case None =>
            Repair(s, node, sib, par, our, right)
  }

  lemma {:induction false} SibOffMono(sides: seq<nat>, a: nat, b: nat)
    requires a <= b <= |sides|
    ensures SibOff(sides, a) <= SibOff(sides, b)
  {
    if a < b {
      SibOffMono(sides, a, b - 1);
    }
  }

  lemma SibOffNext(sides: seq<nat>, i: nat)
    requires i <= |sides|
    ensures i == 0 ==> SibOff(sides, i) == 0
    ensures i < |sides| ==> SibOff(sides, i + 1) == SibOff(sides, i) + (if sides[i] != 0 then 1 else 0)
  {
  }

  function DeleteUp(s: State, rq: DeleteRq, lvl: nat): Result<Fall>
    requires lvl < |rq.path| == |rq.sides| && SibOff(rq.sides, |rq.sides|) <= |rq.sibs|
    decreases |rq.path| - lvl
  {
    if lvl == |rq.path| - 1 then
      match s.At(rq.path[lvl])
      case Inner(_, _) => Err(BadPath)
      case Leaf(es, next) =>
        if Holds(es, rq.key) then Ok(Fall(s.Set(rq.path[lvl], Leaf(Removed(es, rq.key), next)), false))
        else Err(KeyNotFound)
    else
      var d :- DeleteUp(s, rq, lvl + 1);
      if d.stop || Count(d.s.At(rq.path[lvl + 1])) >= d.s.Min() then Ok(Fall(d.s, true))
      else Fix(d.s, rq, lvl + 1)
  }

  // An internal root without separators gives way to its only child; an emptied leaf root
  // leaves the empty tree.
  function Collapse(s: State, path: seq<nat>): State
    requires |path| > 0
  {
    match s.At(path[0])
    case Inner(keys, kids) =>
      if |path| > 1 && |keys| == 0 && |kids| > 0 then s.(root := kids[0], height := if s.height > 0 then s.height - 1 else 0).Close(path[0])
      else s
    case Leaf(es, _) =>
      if |path| == 1 && |es| == 0 then s.(height := 0, root := 0, leftmost := 0, rightmost := 0).Close(path[0])
      else s
  }

  function Delete(s: State, rq: DeleteRq): Result<State>
    requires AllShaped(s.nodes)
  {
    if |rq.path| == 0 || |rq.path| > MAX_TREE_HEIGHT then Err(BadPath)
    else if |rq.sides| != |rq.path| then Err(BadIxData)
    else if |rq.path| != s.height then Err(BadPath)
    else if SibOff(rq.sides, |rq.sides|) > |rq.sibs| then Err(NotEnoughAccounts)
    else
      var leaf :- Descend(s, rq.path, rq.key, 0, s.root);
      var d :- DeleteUp(s, rq, 0);
      Ok(Collapse(d.s, rq.path).Bumped())
  }

  // ---- CompactLeaf ----

  function DescendLeftmost(s: State, path: seq<nat>, lvl: nat, want: nat): (r: Result<nat>)
    requires lvl < |path| && AllShaped(s.nodes)
    ensures r.Ok? ==> path[lvl] == want && PathOpen(s.nodes, path, lvl) && r.value == path[|path| - 1]
    decreases |path| - lvl
  {
    match CheckNode(s, path[lvl], want)
    case Some(e) => Err(e)
    case None =>
      match s.nodes[path[lvl]]
      case Leaf(_, _) => if lvl == |path| - 1 then Ok(path[lvl]) else Err(BadPath)
      case Inner(keys, kids) =>
        if lvl == |path| - 1 then Err(BadPath)
        else DescendLeftmost(s, path, lvl + 1, kids[0])
  }

  function CompactLeaf(s: State, path: seq<nat>): Result<State>
    requires AllShaped(s.nodes)
  {
    if s.height < 2 || |path| != s.height then Err(BadPath)
    else
      var leaf :- DescendLeftmost(s, path, 0, s.root);
      var par := path[|path| - 2];
      var Inner(keys, kids) := s.nodes[par];
      if leaf != s.leftmost then Err(BadPath)
      else if |s.nodes[leaf].es| != 0 then Err(NotEmpty)
      else if |keys| <= s.Min() then Err(NeedSplitSlot)
      else Ok(s.Set(par, Inner(keys[1..], kids[1..])).(leftmost := s.nodes[leaf].next).Bumped().Close(leaf))
  }

  // ---- hot path: only the leaf is written ----

  function FastLeaf(s: State, path: seq<nat>, key: Key): (r: Result<nat>)
    requires AllShaped(s.nodes)
    ensures r.Ok? ==> |path| > 0 && PathOpen(s.nodes, path, 0) && r.value == path[|path| - 1]
  {
    if |path| == 0 then Err(TreeUninit)
    else if |path| != s.height then Err(BadPath)
    else Descend(s, path, key, 0, s.root)
  }

  function InsertFast(s: State, e: Entry, path: seq<nat>): Result<State>
    requires AllShaped(s.nodes)
  {
    var leaf :- FastLeaf(s, path, e.key);
    var Leaf(es, next) := s.nodes[leaf];
    if |es| >= s.fanout then Err(NeedSplitSlot)
    else if Holds(es, e.key) then Err(DuplicateKey)
    else Ok(s.Set(leaf, Leaf(Inserted(es, e), next)))
  }

  function UpdateFast(s: State, e: Entry, path: seq<nat>): Result<State>
    requires AllShaped(s.nodes)
  {
    var leaf :- FastLeaf(s, path, e.key);
    var Leaf(es, next) := s.nodes[leaf];
    if Holds(es, e.key) then Ok(s.Set(leaf, Leaf(Updated(es, e), next))) else Err(KeyNotFound)
  }

  function ValueIn(es: seq<Entry>, key: Key): Option<Val> {
    if Holds(es, key) then Some(es[Pos(es, key)].val) else None
  }

  // Deleting a key that is not there succeeds and reports so.
  function DeleteFast(s: State, key: Key, path: seq<nat>): Result<(State, Option<Val>)>
    requires AllShaped(s.nodes)
  {
    var leaf :- FastLeaf(s, path, key);
    var Leaf(es, next) := s.nodes[leaf];
    if Holds(es, key) then Ok((s.Set(leaf, Leaf(Removed(es, key), next)), ValueIn(es, key)))
    else Ok((s, None))
  }

  function Find(s: State, key: Key, path: seq<nat>): Result<Option<Val>>
    requires AllShaped(s.nodes)
  {
    if s.height == 0 then Ok(None)
    else if |path| != s.height then Err(BadPath)
    else
      var leaf :- Descend(s, path, key, 0, s.root);
      Ok(ValueIn(s.nodes[leaf].es, key))
  }

  // ---- batches ----

  // Write es[i..] into one leaf, refusing an entry that does not ascend.
  function FillLeaf(s: State, leaf: nat, es: seq<Entry>, i: nat): Result<State>
    requires leaf in s.nodes && s.nodes[leaf].Leaf?
    decreases |es| - i
  {
    if i >= |es| then Ok(s)
    else if i > 0 && es[i - 1].key >= es[i].key then Err(BadIxData)
    else if Holds(s.nodes[leaf].es, es[i].key) then Err(DuplicateKey)
    else FillLeaf(s.Set(leaf, Leaf(Inserted(s.nodes[leaf].es, es[i]), s.nodes[leaf].next)), leaf, es, i + 1)
  }

  function BulkInsertFast(s: State, path: seq<nat>, es: seq<Entry>): Result<State>
    requires AllShaped(s.nodes)
  {
    if |es| == 0 then Ok(s)
    else
      var leaf :- FastLeaf(s, path, es[0].key);
      if |s.nodes[leaf].es| + |es| > s.fanout then Err(NeedSplitSlot)
      else if !RoutesToLeaf(s, path, es[|es| - 1].key, 0) then Err(BadPath)
      else FillLeaf(s, leaf, es, 0)
  }

  // The entries meant for one leaf, with that leaf's path.
  datatype Block = Block(path: seq<nat>, es: seq<Entry>)

  predicate StrictlyAscending(es: seq<Entry>) {
    forall i | 0 < i < |es| :: es[i - 1].key < es[i].key
  }

  // Phase 1 for blocks[li..]: nothing is written yet.
  function CheckBlocks(s: State, blocks: seq<Block>, li: nat): Option<Error>
    requires AllShaped(s.nodes)
    requires forall b | b in blocks :: |b.path| == s.height > 0 && |b.es| > 0
    decreases |blocks| - li
  {
    if li >= |blocks| then None
    else
      var b := blocks[li];
      match Descend(s, b.path, b.es[0].key, 0, s.root)
      case Err(e) => Some(e)
      case Ok(leaf) =>
        if |s.nodes[leaf].es| + |b.es| > s.fanout then Some(NeedSplitSlot)
        else if li > 0 && !NextIs(s, blocks[li - 1].path, leaf) then Some(LeafNotAdjacent)
        else if !RoutesToLeaf(s, b.path, b.es[|b.es| - 1].key, 0) then Some(BadPath)
        else if li > 0 && blocks[li - 1].es[|blocks[li - 1].es| - 1].key >= b.es[0].key then Some(BadIxData)
        else if !StrictlyAscending(b.es) then Some(BadIxData)
        else CheckBlocks(s, blocks, li + 1)
  }

  predicate NextIs(s: State, path: seq<nat>, leaf: nat)
    requires |path| > 0
  {
    var v := s.At(path[|path| - 1]);
    v.Leaf? && v.next == leaf
  }

  // Phase 2 for blocks[li..].
  function WriteBlocks(s: State, blocks: seq<Block>, li: nat): Result<State>
    requires forall b | b in blocks :: |b.path| > 0
    decreases |blocks| - li
  {
    if li >= |blocks| then Ok(s)
    else
      var leaf := blocks[li].path[|blocks[li].path| - 1];
      if !s.At(leaf).Leaf? then Err(BadNode)
      else
        var s1 :- FillLeaf(s, leaf, blocks[li].es, 0);
        WriteBlocks(s1, blocks, li + 1)
  }

  function MultiLeafInsertFast(s: State, pathLen: nat, blocks: seq<Block>): Result<State>
    requires AllShaped(s.nodes)
    requires forall b | b in blocks :: |b.path| == pathLen     // the accounts come in blocks of this length
  {
    if |blocks| == 0 then Ok(s)
    else if |blocks| > MAX_MULTI_LEAF_LEAVES then Err(MultiLeafOverflow)
    else if pathLen == 0 then Err(TreeUninit)
    else if exists b | b in blocks :: |b.es| == 0 || |b.es| > MAX_MULTI_LEAF_EPL then Err(MultiLeafOverflow)
    else if pathLen != s.height then Err(BadPath)
    else
      match CheckBlocks(s, blocks, 0)
      case Some(e) => Err(e)
      case None => WriteBlocks(s, blocks, 0)
  }
}
