// Price-time priority over whole runs: a match reaches an order only through all that come ahead.
module Priority {
  import opened Base
  import opened Engine
  import opened Represent
  import opened MapModel
  import opened Scans
  import opened OrderKeys
  import opened Orders
  import opened Sweep
  import opened Markets
  import opened Books
  import opened Solvency
  import opened Settlement
  import opened MarketRuns
  import Admission

  // The order under `key` is changed or gone.
  predicate Touched(orders: map<Key, Val>, orders': map<Key, Val>, key: Key) {
    key in orders && (key !in orders' || orders'[key] != orders[key])
  }

  // One of the fills takes all that the order under `key` holds.
  predicate FilledUp(orders: map<Key, Val>, fs: seq<Fill>, key: Key)
    requires key in orders && Formed(orders[key])
  {
    exists i :: 0 <= i < |fs| && fs[i].key == key && fs[i].fill == SizeOf(orders[key])
  }

  lemma {:induction false} OpenHas(side: Side, limit: U64, es: seq<Entry>, e: Entry)
    requires AllFormed(es) && e in es && Crosses(side, limit, e.key) && SizeOf(e.val) > 0
    ensures AllFormed(Open(side, limit, es)) && e in Open(side, limit, es)
  {
    OpenFormed(side, limit, es);
    if es[0] != e {
      OpenHas(side, limit, es[1..], e);
    }
  }

  lemma {:induction false} OpenFrom(side: Side, limit: U64, es: seq<Entry>, e: Entry)
    requires AllFormed(es) && e in Open(side, limit, es)
    ensures e in es && Crosses(side, limit, e.key)
  {
    hide Crosses;
    if !(Crosses(side, limit, es[0].key) && SizeOf(es[0].val) > 0 && e == es[0]) {
      OpenFrom(side, limit, es[1..], e);
    }
  }

  lemma CrossesAhead(side: Side, limit: U64, k: Key, k': Key)
    requires k < k' && Crosses(side, limit, k')
    ensures Crosses(side, limit, k)
  {
    PricesWorsen(side, k, k');
  }

  lemma SortedIndex(es: seq<Entry>, i: nat, j: nat)
    requires Sorted(es) && i < |es| && j < |es| && es[i].key < es[j].key
    ensures i < j
  {
  }

  // In a sorted list an entry before one of its prefix is in that prefix.
  lemma InPrefix(part: seq<Entry>, all: seq<Entry>, e: Entry, e': Entry)
    requires part <= all && Sorted(all) && e in all && e' in part && e.key < e'.key
    ensures e in part
  {
    var i: nat :| i < |all| && all[i] == e;
    var j: nat :| j < |part| && part[j] == e';
    assert all[j] == e';
    SortedIndex(all, i, j);
    assert part[i] == e;
  }

  // If the greedy sweep of a part of the book fills order number i of the open ones, it fills up
  // each order that stands before it.
  lemma FillsInOrder(side: Side, limit: U64, part: seq<Entry>, all: seq<Entry>, want: nat, slots: nat, fs: seq<Fill>, i: nat, e: Entry)
    returns (j: nat)
    requires part <= all && Sorted(all) && AllFormed(part) && AllFormed(Open(side, limit, part))
    requires FillsOf(side, Open(side, limit, part), want, slots, fs) && i < |fs|
    requires e in all && e.key < fs[i].key && Formed(e.val) && SizeOf(e.val) > 0
    ensures j < i && fs[j].key == e.key && fs[j].fill == SizeOf(e.val) && fs[j].left == 0
  {
    var open := Open(side, limit, part);
    assert all[0..|part|] == part;
    SortedPart(all, 0, |part|);
    OpenSorted(side, limit, part);
    hide Open, Crosses, AllFormed, Filled, SizeOf, Sorted, MakerOf, PriceAt;
    var e' := open[i];
    TradesKey(side, e', fs[i]);
    OpenFrom(side, limit, part, e');
    CrossesAhead(side, limit, e.key, e'.key);
    InPrefix(part, all, e, e');
    OpenHas(side, limit, part, e);
    j :| 0 <= j < |open| && open[j] == e;
    SortedIndex(open, j, i);
    assert Trades(side, open[j], fs[j]);
  }

  lemma {:induction false} TouchedFilled(orders: map<Key, Val>, fs: seq<Fill>, key: Key)
    requires Touched(orders, AfterFills(orders, fs), key)
    ensures exists i :: 0 <= i < |fs| && fs[i].key == key
  {
    if forall i | 0 <= i < |fs| :: fs[i].key != key {
      OthersUntouched(orders, fs, key);
    }
  }

  // A match touches an order only if it fills up, and so removes, every order of a size on that side
  // with a better price, or with the same price and an earlier slot. All of them cross, as the
  // touched one does.
  lemma MatchKeepsPriority(m: Market, rq: MatchRq, key: Key, ahead: Key)
    requires Sound(m) && ShapedBooks(m) && FormedBook(m.Book(rq.side)) && Match(m, rq).Ok?
    requires var m' := Match(m, rq).value.0;
             Sound(m') && Touched(OrdersOf(m, rq.side), OrdersOf(m', rq.side), key)
    requires ahead in OrdersOf(m, rq.side) && Ahead(rq.side, ahead, key)
    ensures Formed(OrdersOf(m, rq.side)[ahead])
    ensures SizeOf(OrdersOf(m, rq.side)[ahead]) > 0 ==>
            FilledUp(OrdersOf(m, rq.side), Match(m, rq).value.1, ahead) && ahead !in OrdersOf(Match(m, rq).value.0, rq.side)
  {
    hide GoodBook, VaultOk, ShapedBooks, FormedBook, Match, Offered, AllFormed, Greedy, Open, FillsOf, Contents, StateEntries, Sorted,
      Settled, Resting, DistinctKeys, Ahead, AllGood, Valid;
    var orders, m', fs := OrdersOf(m, rq.side), Match(m, rq).value.0, Match(m, rq).value.1;
    OneBook(m, rq.side);
    GoodIsFormed(m.book, rq.side, m.Book(rq.side));
    MatchCorrect(m, rq, m', fs);
    SettledOrders(m, rq, fs, m');
    TouchedFilled(orders, fs, key);
    var i: nat :| i < |fs| && fs[i].key == key;
    AheadIsBefore(rq.side, ahead, key);
    OfferedSorted(m, rq);
    StateSorted(m.Book(rq.side));
    if SizeOf(orders[ahead]) > 0 {
      var e := Entry(ahead, orders[ahead]);
      BookLists(m.Book(rq.side), e);
      var j := FillsInOrder(rq.side, rq.limit, Offered(m, rq), StateEntries(m.Book(rq.side)), rq.size, rq.Slots(), fs, i, e);
      FillsRest(m.book, rq.side, rq.limit, Offered(m, rq), orders, rq.size, rq.Slots());
      FilledOrders(orders, fs, j);
    }
  }

  lemma SettledOrders(m: Market, rq: MatchRq, fs: seq<Fill>, m': Market)
    requires Sound(m) && Sound(m') && |fs| <= |rq.makers| && Settled(m, rq, fs, 0, m')
    ensures OrdersOf(m', rq.side) == AfterFills(OrdersOf(m, rq.side), fs)
  {
    hide Sound, OrdersOf, AfterFills, KeepsBooks, Moved, PaysMaker;
    assert fs[0..] == fs;
  }

  lemma BookLists(s: State, e: Entry)
    requires Valid(s) && e.key in Contents(s) && Contents(s)[e.key] == e.val
    ensures Sorted(StateEntries(s)) && e in StateEntries(s)
  {
    StateSorted(s);
  }

  // That holds of every match in the life of a market.
  lemma PriorityHolds(m0: Market, askRoot: nat, bidRoot: nat, ixs: seq<MarketIx>, rq: MatchRq, key: Key, ahead: Key)
    requires Valid(m0.asks) && Valid(m0.bids) && InitMarket(m0, askRoot, bidRoot).Ok? && Sound(m0)
    ensures var m := RunMarket(m0, ixs);
            && Sound(m) && ShapedBooks(m) && FormedBook(m.Book(rq.side))
            && (Match(m, rq).Ok? ==>
                var (m', fs) := Match(m, rq).value;
                && Sound(m')
                && (Touched(OrdersOf(m, rq.side), OrdersOf(m', rq.side), key)
                    && ahead in OrdersOf(m, rq.side) && Ahead(rq.side, ahead, key) ==>
                    && Formed(OrdersOf(m, rq.side)[ahead])
                    && (SizeOf(OrdersOf(m, rq.side)[ahead]) > 0 ==>
                        FilledUp(OrdersOf(m, rq.side), fs, ahead) && ahead !in OrdersOf(m', rq.side))))
  {
    hide Sound, ShapedBooks, FormedBook, Match, RunMarket, OrdersOf, Touched, Ahead, FilledUp, SizeOf, Formed, InitMarket, Valid, Admission.Solvent;
    Admission.SolventAfterRun(m0, askRoot, bidRoot, ixs);
    var m := RunMarket(m0, ixs);
    SoundShaped(m);
    if Match(m, rq).Ok? {
      var (m', fs) := Match(m, rq).value;
      MatchStaysSound(m, rq);
      if Touched(OrdersOf(m, rq.side), OrdersOf(m', rq.side), key) && ahead in OrdersOf(m, rq.side) && Ahead(rq.side, ahead, key) {
        MatchKeepsPriority(m, rq, key, ahead);
      }
    }
  }

  lemma MatchStaysSound(m: Market, rq: MatchRq)
    requires Sound(m) && ShapedBooks(m) && FormedBook(m.Book(rq.side)) && Match(m, rq).Ok?
    ensures Sound(Match(m, rq).value.0)
  {
    hide Sound, ShapedBooks, FormedBook, Match, Offered, AllFormed, Greedy, FillsOf, Open, OrdersOf, Moved, PaysMaker, Accounted;
    MatchCorrect(m, rq, Match(m, rq).value.0, Match(m, rq).value.1);
  }

  // For two orders as they were placed: the better price, or the same price and the earlier landed
  // slot, comes ahead.
  lemma AheadIsTerms(o: Terms, o': Terms)
    requires o.side == o'.side
    ensures Ahead(o.side, OrderEntry(o).key, OrderEntry(o').key) <==>
            (if o.side == Ask then o.price < o'.price else o'.price < o.price) || (o.price == o'.price && o.slot < o'.slot)
  {
    hide KeyNumber, PriceAt, SlotAt, OrderValue;
    PriceOfKeyNumber(o.side, o.price, o.slot, o.maker, o.nonce);
    PriceOfKeyNumber(o.side, o'.price, o'.slot, o'.maker, o'.nonce);
    SlotOfKeyNumber(o.side, o.price, o.slot, o.maker, o.nonce);
    SlotOfKeyNumber(o.side, o'.price, o'.slot, o'.maker, o'.nonce);
  }
}
