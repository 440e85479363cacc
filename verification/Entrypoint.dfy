// The engine's entry point: one instruction, from the accounts it came with to its effect.
module Entrypoint {
  import opened Base
  import opened Engine
  import opened Represent
  import opened MapModel
  import opened HotTheorems
  import opened Scans
  import opened Runs
  import opened Accounts
  import opened NodeOps
  import opened Tidy
  import opened HotProgram
  import opened BatchProgram
  import opened ScanProgram
  import opened InsertProgram
  import opened DeleteProgram

  lemma Ready(t: Torna)
    requires t.Wf() && Valid(t.Abs())
    ensures HotProgram.Sound(t)
  {
    hide Torna.Wf, Torna.Abs, Torna.Footprint, Valid;
    ValidTidy(t.Abs());
    ValidShaped(t.Abs());
  }

  method ColdPath(t: Torna, ix: Ix) returns (r: Option<Error>)
    requires HotProgram.Sound(t) && Valid(t.Abs()) && (ix.IxInsert? || ix.IxDelete? || ix.IxCompactLeaf?)
    requires Runs.Accounts(ix) <= MAX_ACCOUNTS
    modifies t, t.Footprint()
    ensures t.Wf() && t.Grown()
    ensures Outcome(Apply(old(t.Abs()), ix), r, t.Abs())
  {
    hide Torna.Wf, Torna.Abs, Torna.Footprint, Torna.Grown, Valid, TidyState, AllShaped, Insert, Delete, CompactLeaf;
    match ix {
      case IxInsert(e, path, spares) => r := DoInsert(t, e, path, spares);
      case IxDelete(rq) => r := DoDelete(t, rq);
      case IxCompactLeaf(path) => r := DoCompactLeaf(t, path);
      case _ =>
    }
  }

  method WritePath(t: Torna, ix: Ix) returns (r: Option<Error>)
    requires HotProgram.Sound(t) && Valid(t.Abs()) && Runs.Accounts(ix) <= MAX_ACCOUNTS
    requires ix.IxInsertFast? || ix.IxUpdateFast? || ix.IxDeleteFast? || ix.IxBulkInsertFast? || ix.IxMultiLeafInsertFast?
    modifies t.Footprint()
    ensures t.Wf() && t.Footprint() == old(t.Footprint())
    ensures Outcome(Apply(old(t.Abs()), ix), r, t.Abs())
  {
    hide Torna.Wf, Torna.Abs, Torna.Footprint, Torna.Grown, Valid, TidyState, AllShaped, InsertFast, UpdateFast,
      DeleteFast, BulkInsertFast, MultiLeafInsertFast;
    match ix {
      case IxInsertFast(e, path) => r := DoInsertFast(t, e, path);
      case IxUpdateFast(e, path) => r := DoUpdateFast(t, e, path);
      case IxDeleteFast(key, path) =>
        var found := DoDeleteFast(t, key, path);
        r := if found.Ok? then None else Some(found.error);
      case IxBulkInsertFast(path, es) => r := DoBulkInsertFast(t, path, es);
      case IxMultiLeafInsertFast(pathLen, blocks) =>
        if forall b | b in blocks :: |b.path| == pathLen {
          r := DoMultiLeafInsertFast(t, pathLen, blocks);
        } else {
          r := Some(NotEnoughAccounts);
          t.Untouched();
        }
      case _ =>
    }
  }

  // `out` is the scratch account a scan writes its results to.
  method ReadPath(t: Torna, ix: Ix, out: array<Entry>) returns (r: Option<Error>)
    requires HotProgram.Sound(t) && Valid(t.Abs()) && Runs.Accounts(ix) <= MAX_ACCOUNTS && Scratch(t, out)
    requires ix.IxFind? || (ix.IxRangeScan? && out.Length == ix.scan.cap)
    modifies out
    ensures t.Wf() && t.Abs() == old(t.Abs())
    ensures Outcome(Apply(old(t.Abs()), ix), r, t.Abs())
  {
    hide Torna.Wf, Torna.Abs, Torna.Footprint, Torna.Grown, Valid, TidyState, AllShaped, Find, RangeScan;
    match ix {
      case IxFind(key, path) =>
        var found := DoFind(t, key, path);
        r := if found.Ok? then None else Some(found.error);
      case IxRangeScan(scan) =>
        var found := DoRangeScan(t, scan, out);
        r := if found.Ok? then None else Some(found.error);
      case _ =>
    }
  }

  // Every instruction does to the accounts what it does to the model's state; accepted, it
  // leaves a well-formed tree that holds what the instruction promises.
  method Process(t: Torna, ix: Ix, out: array<Entry>) returns (r: Option<Error>)
    requires t.Wf() && Valid(t.Abs()) && Scratch(t, out) && (ix.IxRangeScan? ==> out.Length == ix.scan.cap)
    modifies t, t.Footprint(), out
    ensures t.Wf()
    ensures AllShaped(old(t.Abs()).nodes) && Outcome(Apply(old(t.Abs()), ix), r, t.Abs())
    ensures r == None ==> Valid(t.Abs()) && Contents(t.Abs()) == Effect(old(Contents(t.Abs())), ix)
  {
    hide Torna.Wf, Torna.Abs, Torna.Footprint, Torna.Grown, Valid, TidyState, AllShaped, Apply, Effect, Contents;
    ghost var s := t.Abs();
    StepIs(s, ix);
    Ready(t);
    if Runs.Accounts(ix) > MAX_ACCOUNTS {
      TooMany(s, ix);
      t.Untouched();
      return Some(InvalidArgument);
    }
    if ix.IxInsert? || ix.IxDelete? || ix.IxCompactLeaf? {
      r := ColdPath(t, ix);
    } else if ix.IxFind? || ix.IxRangeScan? {
      r := ReadPath(t, ix, out);
    } else {
      r := WritePath(t, ix);
    }
  }

  lemma TooMany(s: State, ix: Ix)
    requires AllShaped(s.nodes) && Runs.Accounts(ix) > MAX_ACCOUNTS
    ensures Apply(s, ix) == Err(InvalidArgument)
  {
  }

  lemma StepIs(s: State, ix: Ix)
    requires Valid(s)
    ensures AllShaped(s.nodes)
    ensures Apply(s, ix).Ok? ==> Valid(Apply(s, ix).value) && Contents(Apply(s, ix).value) == Effect(Contents(s), ix)
  {
    hide Valid, AllShaped, Apply, Effect, Contents;
    StepValid(s, ix);
  }
}
