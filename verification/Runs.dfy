// Whole runs of a tree: any sequence of instructions, accepted or refused.
module Runs {
  import opened Base
  import opened Engine
  import opened Represent
  import opened Edits
  import opened MapModel
  import opened InsertTheorem
  import opened DeleteTheorem
  import opened CompactTheorem
  import opened HotTheorems
  import opened BatchTheorems
  import opened MultiLeafTheorem
  import opened Scans

  const MAX_ACCOUNTS: nat := 40

  datatype Ix =
    | IxInsert(e: Entry, path: seq<nat>, spares: seq<nat>)
    | IxDelete(rq: DeleteRq)
    | IxCompactLeaf(path: seq<nat>)
    | IxInsertFast(e: Entry, path: seq<nat>)
    | IxUpdateFast(e: Entry, path: seq<nat>)
    | IxDeleteFast(key: Key, path: seq<nat>)
    | IxBulkInsertFast(path: seq<nat>, es: seq<Entry>)
    | IxMultiLeafInsertFast(pathLen: nat, blocks: seq<Block>)
    | IxFind(key: Key, path: seq<nat>)
    | IxRangeScan(scan: ScanRq)

  // How many accounts the instruction is sent with.
  function Accounts(ix: Ix): nat {
    match ix
    case IxInsert(_, path, spares) => 4 + |path| + |spares|
    case IxDelete(rq) => 2 + |rq.path| + |rq.sibs|
    case IxCompactLeaf(path) => 2 + |path|
    case IxInsertFast(_, path) => 2 + |path|
    case IxUpdateFast(_, path) => 2 + |path|
    case IxDeleteFast(_, path) => 2 + |path|
    case IxBulkInsertFast(path, _) => 2 + |path|
    case IxMultiLeafInsertFast(pathLen, blocks) => 2 + pathLen * |blocks|
    case IxFind(_, path) => 1 + |path|
    case IxRangeScan(scan) => 2 + |scan.path| + |scan.extra|
  }

  // What one instruction makes of the tree.
  function Apply(s: State, ix: Ix): Result<State>
    requires AllShaped(s.nodes)
  {
    if Accounts(ix) > MAX_ACCOUNTS then Err(InvalidArgument)
    else
      match ix
      case IxInsert(e, path, spares) => Insert(s, e, path, spares)
      case IxDelete(rq) => Delete(s, rq)
      case IxCompactLeaf(path) => CompactLeaf(s, path)
      case IxInsertFast(e, path) => InsertFast(s, e, path)
      case IxUpdateFast(e, path) => UpdateFast(s, e, path)
      case IxDeleteFast(key, path) =>
        var r :- DeleteFast(s, key, path);
        Ok(r.0)
      case IxBulkInsertFast(path, es) => BulkInsertFast(s, path, es)
      case IxMultiLeafInsertFast(pathLen, blocks) =>
        if forall b | b in blocks :: |b.path| == pathLen then MultiLeafInsertFast(s, pathLen, blocks)
        else Err(NotEnoughAccounts)
      case IxFind(key, path) =>
        var r :- Find(s, key, path);
        Ok(s)
      case IxRangeScan(scan) =>
        var r :- RangeScan(s, scan);
        Ok(s)
  }

  // What fits into the 40 accounts of an instruction, beside header, payer, allocator and system
  // program with an Insert, header and signer (or scratch account) with the others, and the header
  // alone with Find.
  predicate Fits(ix: Ix) {
    match ix
    case IxInsert(_, path, spares) => |path| + |spares| <= 36
    case IxDelete(rq) => |rq.path| + |rq.sibs| <= 38
    case IxCompactLeaf(path) => |path| <= 38
    case IxInsertFast(_, path) => |path| <= 38
    case IxUpdateFast(_, path) => |path| <= 38
    case IxDeleteFast(_, path) => |path| <= 38
    case IxBulkInsertFast(path, _) => |path| <= 38
    case IxMultiLeafInsertFast(pathLen, blocks) => pathLen * |blocks| <= 38
    case IxFind(_, path) => |path| <= 39
    case IxRangeScan(scan) => |scan.path| + |scan.extra| <= 38
  }

  // What does not fit is refused as such, and no hot or cold instruction that fits is.
  lemma FitsDecides(s: State, ix: Ix)
    requires AllShaped(s.nodes)
    ensures !Fits(ix) ==> Apply(s, ix) == Err(InvalidArgument)
    ensures Fits(ix) ==>
              match ix
              case IxInsert(e, path, spares) => Apply(s, ix) == Insert(s, e, path, spares)
              case IxDelete(rq) => Apply(s, ix) == Delete(s, rq)
              case IxCompactLeaf(path) => Apply(s, ix) == CompactLeaf(s, path)
              case IxInsertFast(e, path) => Apply(s, ix) == InsertFast(s, e, path)
              case IxUpdateFast(e, path) => Apply(s, ix) == UpdateFast(s, e, path)
              case IxDeleteFast(key, path) => Apply(s, ix).Ok? <==> DeleteFast(s, key, path).Ok?
              case IxBulkInsertFast(path, es) => Apply(s, ix) == BulkInsertFast(s, path, es)
              case IxMultiLeafInsertFast(pathLen, blocks) =>
                (forall b | b in blocks :: |b.path| == pathLen) ==> Apply(s, ix) == MultiLeafInsertFast(s, pathLen, blocks)
              case IxFind(key, path) => Apply(s, ix).Ok? <==> Find(s, key, path).Ok?
              case IxRangeScan(scan) => Apply(s, ix).Ok? <==> RangeScan(s, scan).Ok?
  {
    hide AllShaped, Insert, Delete, CompactLeaf, InsertFast, UpdateFast, DeleteFast, BulkInsertFast, MultiLeafInsertFast, Find, RangeScan;
  }

  // A refused instruction leaves no trace.
  function Exec(s: State, ix: Ix): State
    requires AllShaped(s.nodes)
  {
    if Apply(s, ix).Ok? then Apply(s, ix).value else s
  }

  // What an accepted instruction does to the map.
  ghost function Effect(m: map<Key, Val>, ix: Ix): map<Key, Val> {
    match ix
    case IxInsert(e, _, _) => m[e.key := e.val]
    case IxDelete(rq) => m - {rq.key}
    case IxInsertFast(e, _) => m[e.key := e.val]
    case IxUpdateFast(e, _) => m[e.key := e.val]
    case IxDeleteFast(key, _) => m - {key}
    case IxBulkInsertFast(_, es) => AddAll(m, es, 0)
    case IxMultiLeafInsertFast(_, blocks) => AddAll(m, Flattened(blocks, 0), 0)
    case _ => m
  }

  // One accepted instruction keeps the tree well formed and has its effect on the map.
  ghost predicate StepsTo(s: State, lm: nat, s': State, ix: Ix)
    requires Valid(s)
  {
    ValidWith(s', lm) && Valid(s') && Contents(s') == Effect(Contents(s), ix)
  }

  lemma ColdStep(s: State, lm: nat, ix: Ix)
    requires ValidWith(s, lm) && Valid(s) && AllShaped(s.nodes) && Apply(s, ix).Ok?
    requires ix.IxInsert? || ix.IxDelete? || ix.IxCompactLeaf?
    ensures StepsTo(s, lm, Apply(s, ix).value, ix)
  {
    hide ValidWith, Valid, Contents, StateEntries, Insert, Delete, CompactLeaf, AllShaped, FirstLeaf, FirstParent,
      LeftmostPath, Edited;
    match ix
    case IxInsert(e, path, spares) => InsertCorrect(s, lm, e, path, spares);
    case IxDelete(rq) => DeleteCorrect(s, lm, rq);
    case IxCompactLeaf(path) => CompactCorrect(s, lm, path);
    case _ =>
  }

  lemma HotStep(s: State, lm: nat, ix: Ix)
    requires ValidWith(s, lm) && Valid(s) && AllShaped(s.nodes) && Apply(s, ix).Ok?
    requires ix.IxInsertFast? || ix.IxUpdateFast?
    ensures StepsTo(s, lm, Apply(s, ix).value, ix)
  {
    hide ValidWith, Valid, Contents, StateEntries, InsertFast, UpdateFast, AllShaped, SearchPath, LeafOf, Edited;
    match ix
    case IxInsertFast(e, path) => InsertFastCorrect(s, lm, e, path);
    case IxUpdateFast(e, path) => UpdateFastCorrect(s, lm, e, path);
    case _ =>
  }

  lemma DeleteFastStep(s: State, ix: Ix)
    requires Valid(s) && AllShaped(s.nodes) && Apply(s, ix).Ok? && ix.IxDeleteFast?
    ensures StepsTo(s, 0, Apply(s, ix).value, ix)
  {
    hide Contents, StateEntries, DeleteFast, AllShaped, SearchPath, Edited, EmptyTree, Represents;
    DeleteFastCorrect(s, ix.key, ix.path);
    assert ix.key !in Contents(s) ==> Contents(s) - {ix.key} == Contents(s);
  }

  lemma BatchStep(s: State, lm: nat, ix: Ix)
    requires ValidWith(s, lm) && Valid(s) && AllShaped(s.nodes) && Apply(s, ix).Ok?
    requires ix.IxBulkInsertFast? || ix.IxMultiLeafInsertFast? || ix.IxFind? || ix.IxRangeScan?
    ensures StepsTo(s, lm, Apply(s, ix).value, ix)
  {
    hide ValidWith, Valid, Contents, BulkInsertFast, MultiLeafInsertFast, AllShaped, Find, RangeScan, AddAll, Flattened;
    match ix
    case IxBulkInsertFast(path, es) => BulkCorrect(s, lm, path, es);
    case IxMultiLeafInsertFast(pathLen, blocks) => MultiLeafCorrect(s, lm, pathLen, blocks);
    case _ =>
  }

  // `lm` is the occupancy leaves keep: 0 in general, fanout / 2 for instructions other than
  // DeleteFast.
  lemma StepCorrect(s: State, lm: nat, ix: Ix)
    requires ValidWith(s, lm) && Valid(s) && AllShaped(s.nodes) && (ix.IxDeleteFast? ==> lm == 0)
    ensures var s' := Exec(s, ix);
            && ValidWith(s', lm) && Valid(s') && AllShaped(s'.nodes)
            && Contents(s') == if Apply(s, ix).Ok? then Effect(Contents(s), ix) else Contents(s)
  {
    hide ValidWith, Valid, Contents, AllShaped, Apply, Effect;
    if Apply(s, ix).Ok? {
      if ix.IxInsert? || ix.IxDelete? || ix.IxCompactLeaf? {
        ColdStep(s, lm, ix);
      } else if ix.IxInsertFast? || ix.IxUpdateFast? {
        HotStep(s, lm, ix);
      } else if ix.IxDeleteFast? {
        DeleteFastStep(s, ix);
      } else {
        BatchStep(s, lm, ix);
      }
    }
    ValidShaped(Exec(s, ix));
  }

  lemma StepValid(s: State, ix: Ix)
    requires Valid(s)
    ensures AllShaped(s.nodes) && Valid(Exec(s, ix)) && AllShaped(Exec(s, ix).nodes)
    ensures Contents(Exec(s, ix)) == if Apply(s, ix).Ok? then Effect(Contents(s), ix) else Contents(s)
  {
    ValidShaped(s);
    hide EmptyTree, Represents, Contents, AllShaped, Apply, Effect, Exec;
    StepCorrect(s, 0, ix);
  }

  // ---- runs ----

  ghost function Run(s: State, ixs: seq<Ix>): State
    requires Valid(s)
    ensures Valid(Run(s, ixs))
    decreases |ixs|
  {
    if ixs == [] then s
    else
      StepValid(s, ixs[0]);
      Run(Exec(s, ixs[0]), ixs[1..])
  }

  lemma InitValid(fanout: nat, lm: nat)
    requires FanoutOk(fanout) && lm <= fanout / 2
    ensures ValidWith(InitTree(fanout), lm) && Valid(InitTree(fanout)) && Contents(InitTree(fanout)) == map[]
  {
  }

  ghost predicate WithoutDeleteFast(ixs: seq<Ix>) {
    forall i | 0 <= i < |ixs| :: !ixs[i].IxDeleteFast?
  }

  lemma {:induction false} RunKeeps(s: State, lm: nat, ixs: seq<Ix>)
    requires ValidWith(s, lm) && Valid(s) && (lm == 0 || WithoutDeleteFast(ixs))
    ensures ValidWith(Run(s, ixs), lm)
    decreases |ixs|
  {
    if ixs != [] {
      ValidShaped(s);
      hide ValidWith, Valid, AllShaped, Exec, Contents, Effect;
      StepCorrect(s, lm, ixs[0]);
      RunKeeps(Exec(s, ixs[0]), lm, ixs[1..]);
    }
  }

  // Every state reachable from InitTree is a well-formed tree; if DeleteFast is never used,
  // every leaf but a leaf root keeps at least fanout / 2 entries as well.
  lemma ReachableValid(fanout: nat, ixs: seq<Ix>)
    requires 4 <= fanout <= 256 && Valid(InitTree(fanout))
    ensures Valid(Run(InitTree(fanout), ixs))
    ensures WithoutDeleteFast(ixs) ==> ValidWith(Run(InitTree(fanout), ixs), fanout / 2)
  {
    InitValid(fanout, fanout / 2);
    hide Valid, ValidWith, InitTree;
    if WithoutDeleteFast(ixs) {
      RunKeeps(InitTree(fanout), fanout / 2, ixs);
    }
  }

  // The instructions of a run that were accepted.
  ghost function Accepted(s: State, ixs: seq<Ix>): seq<Ix>
    requires Valid(s)
    decreases |ixs|
  {
    if ixs == [] then []
    else
      StepValid(s, ixs[0]);
      (if Apply(s, ixs[0]).Ok? then [ixs[0]] else []) + Accepted(Exec(s, ixs[0]), ixs[1..])
  }

  ghost function Effects(m: map<Key, Val>, ixs: seq<Ix>): map<Key, Val>
    decreases |ixs|
  {
    if ixs == [] then m else Effects(Effect(m, ixs[0]), ixs[1..])
  }

  // After any run the map is what the accepted instructions made of it, one after the other.
  lemma {:induction false} RunContents(s: State, ixs: seq<Ix>)
    requires Valid(s)
    ensures Contents(Run(s, ixs)) == Effects(Contents(s), Accepted(s, ixs))
    decreases |ixs|
  {
    hide Valid, AllShaped, Apply, Contents, Effect;
    if ixs != [] {
      StepValid(s, ixs[0]);
      var s1 := Exec(s, ixs[0]);
      RunContents(s1, ixs[1..]);
      assert Apply(s, ixs[0]).Ok? ==> ([ixs[0]] + Accepted(s1, ixs[1..]))[1..] == Accepted(s1, ixs[1..]);
      assert [] + Accepted(s1, ixs[1..]) == Accepted(s1, ixs[1..]);
    }
  }

  lemma {:induction false} RunConcat(s: State, a: seq<Ix>, b: seq<Ix>)
    requires Valid(s)
    ensures Run(s, a + b) == Run(Run(s, a), b)
    decreases |a|
  {
    hide Valid, AllShaped, Exec;
    if a == [] {
      assert a + b == b;
    } else {
      StepValid(s, a[0]);
      assert (a + b)[1..] == a[1..] + b;
      RunConcat(Exec(s, a[0]), a[1..], b);
    }
  }
}
