// What the engine's instructions do to the escrow held by one side of the book.
module Books {
  import opened Base
  import opened NodeViews
  import opened Shapes
  import opened Engine
  import opened Represent
  import opened Edits
  import opened MapModel
  import opened InsertTheorem
  import opened HotTheorems
  import opened Runs
  import opened OrderKeys
  import opened Orders
  import opened LeafChain
  import opened InsertPlanned
  import opened Sweep
  import opened Markets

  // A well-formed tree of good orders.
  ghost predicate GoodBook(book: Pubkey, side: Side, s: State) {
    Valid(s) && AllGood(book, side, StateEntries(s))
  }

  // From `s` to `s'` the order under `key` gains `plus` and loses `minus` of escrow, and no
  // other order changes.
  ghost predicate EscrowChange(side: Side, s: State, s': State, key: Key, plus: nat, minus: nat)
    requires Valid(s) && Valid(s')
  {
    && TotalEscrow(side, StateEntries(s')) + minus == TotalEscrow(side, StateEntries(s)) + plus
    && EscrowAt(side, Contents(s'), key) + minus == EscrowAt(side, Contents(s), key) + plus
    && forall k: Key | k != key :: EscrowAt(side, Contents(s'), k) == EscrowAt(side, Contents(s), k)
  }

  lemma GoodIsFormed(book: Pubkey, side: Side, s: State)
    requires GoodBook(book, side, s)
    ensures AllShaped(s.nodes) && FormedBook(s) && 0 !in s.nodes
    ensures forall k | k in Contents(s) :: GoodOrder(book, side, Entry(k, Contents(s)[k]))
  {
    ValidShaped(s);
    StateSorted(s);
    LeavesChain(s);
    NoZeroNode(s);
    var ids := Leaves(s);
    hide Valid, Leaves, Contents, StateEntries, AllShaped, EntriesIn, GoodOrder, Gathered, LeafTo, Distinct;
    forall x | x in s.nodes && s.nodes[x].Leaf? ensures AllFormed(s.nodes[x].es) {
      assert x in ids;
      forall e | e in s.nodes[x].es ensures Formed(e.val) {
        InGathered(s.nodes, ids, x, e);
        GoodOne(book, side, e);
      }
    }
    forall k | k in Contents(s) ensures GoodOrder(book, side, Entry(k, Contents(s)[k])) {
      assert Entry(k, Contents(s)[k]) in StateEntries(s);
    }
  }

  lemma NoZeroNode(s: State)
    requires Valid(s)
    ensures 0 !in s.nodes
  {
    if s.height > 0 {
      assert Represents(s, TreeOf(s), 0);
    }
  }

  lemma GoodOne(book: Pubkey, side: Side, e: Entry)
    requires GoodOrder(book, side, e)
    ensures Formed(e.val)
  {
  }

  lemma EscrowInserted(side: Side, m: map<Key, Val>, m': map<Key, Val>, e: Entry)
    requires e.key !in m && m' == m[e.key := e.val]
    ensures EscrowAt(side, m', e.key) == EscrowOf(side, e.key, e.val) && EscrowAt(side, m, e.key) == 0
    ensures forall k: Key | k != e.key :: EscrowAt(side, m', k) == EscrowAt(side, m, k)
  {
  }

  // Resting an order adds its escrow.
  lemma OrderRested(book: Pubkey, side: Side, s: State, e: Entry, ix: Ix)
    requires GoodBook(book, side, s) && AllShaped(s.nodes) && GoodOrder(book, side, e)
    requires (ix.IxInsertFast? && ix.e == e) || (ix.IxInsert? && ix.e == e)
    requires Apply(s, ix).Ok?
    ensures var s' := Apply(s, ix).value;
            && GoodBook(book, side, s') && e.key !in Contents(s) && Contents(s') == Contents(s)[e.key := e.val]
            && EscrowChange(side, s, s', e.key, EscrowOf(side, e.key, e.val), 0)
  {
    hide ValidWith, Contents, StateEntries, Insert, InsertFast, AllShaped, Edited, GoodOrder, EscrowOf, EscrowAt,
      TotalEscrow, SearchPath, LeafOf, AllGood;
    var s' := Apply(s, ix).value;
    if ix.IxInsert? {
      InsertCorrect(s, 0, e, ix.path, ix.spares);
    } else {
      InsertFastCorrect(s, 0, e, ix.path);
    }
    TotalEdited(side, StateEntries(s), StateEntries(s'), [], [e]);
    TotalOne(side, e);
    GoodPut(book, side, e);
    GoodEdited(book, side, StateEntries(s), StateEntries(s'), [], [e]);
    EscrowInserted(side, Contents(s), Contents(s'), e);
  }

  lemma GoodPut(book: Pubkey, side: Side, e: Entry)
    requires GoodOrder(book, side, e)
    ensures AllGood(book, side, [e]) && AllGood(book, side, [])
  {
  }

  lemma EscrowDropped(side: Side, m: map<Key, Val>, m': map<Key, Val>, key: Key)
    requires key in m && m' == m - {key}
    ensures EscrowAt(side, m, key) == EscrowOf(side, key, m[key]) && EscrowAt(side, m', key) == 0
    ensures forall k: Key | k != key :: EscrowAt(side, m', k) == EscrowAt(side, m, k)
  {
  }

  // Removing an order takes its escrow out.
  lemma OrderRemoved(book: Pubkey, side: Side, s: State, key: Key, path: seq<nat>)
    requires GoodBook(book, side, s) && AllShaped(s.nodes) && key in Contents(s)
    requires Apply(s, IxDeleteFast(key, path)).Ok?
    ensures var s' := Apply(s, IxDeleteFast(key, path)).value;
            && GoodBook(book, side, s') && Contents(s') == Contents(s) - {key}
            && EscrowChange(side, s, s', key, 0, EscrowOf(side, key, Contents(s)[key]))
  {
    hide Valid, Contents, StateEntries, DeleteFast, AllShaped, Edited, GoodOrder, EscrowOf, EscrowAt, TotalEscrow,
      SearchPath, AllGood;
    var s' := Apply(s, IxDeleteFast(key, path)).value;
    var e := Entry(key, Contents(s)[key]);
    DeleteFastCorrect(s, key, path);
    TotalEdited(side, StateEntries(s), StateEntries(s'), [e], []);
    TotalOne(side, e);
    GoodNothing(book, side);
    GoodEdited(book, side, StateEntries(s), StateEntries(s'), [e], []);
    EscrowDropped(side, Contents(s), Contents(s'), key);
  }

  lemma GoodNothing(book: Pubkey, side: Side)
    ensures AllGood(book, side, [])
  {
  }

  lemma EscrowReplaced(side: Side, m: map<Key, Val>, m': map<Key, Val>, e: Entry)
    requires e.key in m && m' == m[e.key := e.val]
    ensures EscrowAt(side, m, e.key) == EscrowOf(side, e.key, m[e.key]) && EscrowAt(side, m', e.key) == EscrowOf(side, e.key, e.val)
    ensures forall k: Key | k != e.key :: EscrowAt(side, m', k) == EscrowAt(side, m, k)
  {
  }

  // Shrinking an order takes the difference out.
  lemma OrderShrunk(book: Pubkey, side: Side, s: State, e: Entry, path: seq<nat>, minus: nat)
    requires GoodBook(book, side, s) && AllShaped(s.nodes) && e.key in Contents(s) && GoodOrder(book, side, e)
    requires EscrowOf(side, e.key, Contents(s)[e.key]) == EscrowOf(side, e.key, e.val) + minus
    requires Apply(s, IxUpdateFast(e, path)).Ok?
    ensures var s' := Apply(s, IxUpdateFast(e, path)).value;
            && GoodBook(book, side, s') && Contents(s') == Contents(s)[e.key := e.val]
            && EscrowChange(side, s, s', e.key, 0, minus)
  {
    hide ValidWith, Contents, StateEntries, UpdateFast, AllShaped, Edited, GoodOrder, EscrowOf, EscrowAt, TotalEscrow,
      SearchPath, AllGood;
    var s' := Apply(s, IxUpdateFast(e, path)).value;
    var e0 := Entry(e.key, Contents(s)[e.key]);
    UpdateFastCorrect(s, 0, e, path);
    TotalEdited(side, StateEntries(s), StateEntries(s'), [e0], [e]);
    TotalOne(side, e0);
    TotalOne(side, e);
    GoodPut(book, side, e);
    GoodEdited(book, side, StateEntries(s), StateEntries(s'), [e0], [e]);
    EscrowReplaced(side, Contents(s), Contents(s'), e);
  }
}
