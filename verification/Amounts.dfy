// What the order book moves, keeps and names, in plain arithmetic over prices and sizes.
module Amounts {
  import opened Base
  import opened Bytes
  import opened OrderKeys
  import opened Orders
  import opened Sweep
  import opened Markets
  import opened Solvency
  import opened Settlement
  import Priority

  // ---- matching ----

  // The price the taker allows.
  predicate Allowed(rq: MatchRq, key: Key) {
    if rq.side == Ask then PriceAt(Ask, key) <= rq.limit else rq.limit <= PriceAt(Bid, key)
  }

  // Each fill is of an order within the limit, at that order's price. There are at most 8 and at most
  // maxFills of them, for no more than the size wanted; and if they are fewer and leave some of it
  // unfilled, every order of a size within the limit in the leaves offered is among them.
  lemma MatchFills(m: Market, rq: MatchRq, m': Market, fs: seq<Fill>)
    requires Sound(m) && ShapedBooks(m) && FormedBook(m.Book(rq.side)) && Match(m, rq) == Ok((m', fs))
    ensures |fs| <= 8 && |fs| <= rq.maxFills && BaseTraded(fs, 0) <= rq.size
    ensures forall i | 0 <= i < |fs| :: Allowed(rq, fs[i].key) && fs[i].price == PriceAt(rq.side, fs[i].key) && fs[i].fill > 0
    ensures |fs| < 8 && |fs| < rq.maxFills && BaseTraded(fs, 0) < rq.size ==>
              forall e | e in Offered(m, rq) && Formed(e.val) && SizeOf(e.val) > 0 && Allowed(rq, e.key) ::
                exists i :: 0 <= i < |fs| && fs[i].key == e.key
  {
    hide Sound, ShapedBooks, FormedBook, Match, Offered, AllFormed, Greedy, Open, OrdersOf, Settled, Filled, BaseTraded, Formed,
      SizeOf, PriceAt;
    MatchCorrect(m, rq, m', fs);
    TradedIsFilled(fs, 0);
    assert fs[0..] == fs;
    var open := Open(rq.side, rq.limit, Offered(m, rq));
    forall i | 0 <= i < |fs| ensures Allowed(rq, fs[i].key) && fs[i].price == PriceAt(rq.side, fs[i].key) && fs[i].fill > 0 {
      assert Trades(rq.side, open[i], fs[i]);
      assert open[i] in open;
      Priority.OpenFrom(rq.side, rq.limit, Offered(m, rq), open[i]);
    }
    if |fs| < 8 && |fs| < rq.maxFills && BaseTraded(fs, 0) < rq.size {
      forall e | e in Offered(m, rq) && Formed(e.val) && SizeOf(e.val) > 0 && Allowed(rq, e.key)
        ensures exists i :: 0 <= i < |fs| && fs[i].key == e.key
      {
        Priority.OpenHas(rq.side, rq.limit, Offered(m, rq), e);
        var i: nat :| i < |open| && open[i] == e;
        assert Trades(rq.side, open[i], fs[i]);
      }
    }
  }

  lemma {:induction false} TradedIsFilled(fs: seq<Fill>, j: nat)
    requires j <= |fs|
    ensures BaseTraded(fs, j) == Filled(fs[j..])
    decreases |fs| - j
  {
    if j < |fs| {
      TradedIsFilled(fs, j + 1);
      assert fs[j..][1..] == fs[j + 1..];
    }
  }

  // ---- placing ----

  // Two placements of one side come to the same key exactly if price, slot, maker prefix and nonce
  // agree.
  lemma KeysCollide(o: Terms, o': Terms)
    requires o.side == o'.side
    ensures OrderEntry(o).key == OrderEntry(o').key <==>
            o.price == o'.price && o.slot == o'.slot && o.maker[..8] == o'.maker[..8] && o.nonce == o'.nonce
  {
    hide OrderEntry, Num, Digits, PriceAt, SlotAt;
    EntryReads(o);
    EntryReads(o');
    if o.price == o'.price && o.slot == o'.slot && o.maker[..8] == o'.maker[..8] && o.nonce == o'.nonce {
      KeyParts(o.side, o.price, o.slot, o.maker, o.nonce);
      KeyParts(o.side, o'.price, o'.slot, o'.maker, o'.nonce);
      KeysAreNumbers(OrderKey(o.side, o.price, o.slot, o.maker, o.nonce), OrderEntry(o).key);
      KeysAreNumbers(OrderKey(o.side, o.price, o.slot, o.maker, o.nonce), OrderEntry(o').key);
    }
  }

  // A client that planned the key with an estimated slot gets the order's key by writing the landed
  // slot into it (what OrderKeys.LandedKey does to the bytes).
  lemma LandedIs(o: Terms, estimate: U64)
    ensures var planned := OrderKey(o.side, o.price, estimate, o.maker, o.nonce);
            Digits(OrderEntry(o).key, 32) == planned[..8] + Digits(o.slot, 8) + planned[16..]
  {
    hide OrderEntry, Num, Digits;
    EntryReads(o);
    KeyParts(o.side, o.price, estimate, o.maker, o.nonce);
    KeyParts(o.side, o.price, o.slot, o.maker, o.nonce);
    SlotReplaced(Digits(Rank(o.side, o.price), 8), Digits(estimate, 8), Digits(o.slot, 8), o.maker[..8], Digits(o.nonce, 8));
  }
}
