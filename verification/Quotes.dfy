// The client's preview of a match: the fills a taker would get, computed off-chain.
module Quotes {
  import opened Base
  import opened Engine
  import opened Represent
  import opened MapModel
  import opened OrderKeys
  import opened Orders
  import opened LeafChain
  import opened Scans
  import opened Sweep
  import opened Markets
  import opened Books
  import opened Solvency
  import opened Settlement
  import opened BookProgram
  import Planner

  method QuoteLeaf(side: Side, limit: U64, es: seq<Entry>, maxFills: nat, done: seq<Fill>, remaining0: U64)
    returns (fills: seq<Fill>, remaining: U64, stop: bool)
    requires |done| <= maxFills && AllFormed(es)
    ensures var fs := Greedy(side, limit, es, remaining0, maxFills - |done|);
            fills == done + fs && |fills| <= maxFills && remaining == remaining0 - Filled(fs)
    ensures stop == Stops(side, limit, es, remaining0, maxFills - |done|)
  {
    hide Greedy, Stops, Crosses, AllFormed, Formed, FillOf, Filled, InLeaf;
    fills, remaining, stop := done, remaining0, false;
    var i := 0;
    ghost var fs: seq<Fill> := [];
    var whole := Looking(side, limit, es, remaining0, maxFills - |done|);
    LeafStarts(whole);
    while i < |es| && remaining > 0 && |fills| < maxFills
      invariant 0 <= i <= |es| && fills == done + fs && |fills| <= maxFills && !stop
      invariant InLeaf(whole, fs, Looking(side, limit, es[i..], remaining, maxFills - |fills|))
    {
      ghost var here := Looking(side, limit, es[i..], remaining, maxFills - |fills|);
      assert es[i..][1..] == es[i + 1..];
      RestFormed(whole, fs, here);
      var price := PriceAt(side, es[i].key);
      var cross := if side == Ask then price <= limit else price >= limit;
      CrossesIs(side, limit, es[i].key);
      if !cross {
        stop := true;
        break;
      }
      var resting := SizeOf(es[i].val);
      if resting == 0 {
        LeafSkips(whole, fs, here);
      } else {
        var fill := if remaining < resting then remaining else resting;
        var f := Fill(es[i].key, MakerOf(es[i].val), price, fill, resting - fill);
        LeafTakes(whole, fs, here, f);
        fills, fs := fills + [f], fs + [f];
        remaining := remaining - fill;
      }
      i := i + 1;
    }
    LeafEnds(whole, fs, Looking(side, limit, es[i..], remaining, maxFills - |fills|), stop);
  }

  // The preview is the greedy sweep of the whole book.
  method ComputeFills(s: State, side: Side, limit: U64, size: U64, maxFills: nat) returns (fills: seq<Fill>, height: nat)
    requires Valid(s) && FormedBook(s) && AllFormed(StateEntries(s))
    ensures fills == Greedy(side, limit, StateEntries(s), size, maxFills) && height == s.height
  {
    hide Valid, Leaves, StateEntries, Gathered, Linked, FormedBook, AllFormed, Greedy, Stops, Filled;
    height := s.height;
    fills := [];
    ghost var ids := Leaves(s);
    Planner.ScanStarts(s);
    AllLeaves(s);
    if s.height == 0 {
      GreedyNothing(s.nodes, side, limit, ids, size, maxFills);
      return;
    }
    var idx, remaining: U64 := s.leftmost, size;
    ghost var p := 0;
    assert ids[0..] == ids;
    NothingBefore(Greedy(side, limit, Gathered(s.nodes, ids), size, maxFills));
    while idx != 0 && remaining > 0 && |fills| < maxFills
      invariant p <= |ids| && idx == (if p < |ids| then ids[p] else 0) && |fills| <= maxFills
      invariant AllFormed(Gathered(s.nodes, ids[p..]))
      invariant Greedy(side, limit, Gathered(s.nodes, ids), size, maxFills)
             == fills + Greedy(side, limit, Gathered(s.nodes, ids[p..]), remaining, maxFills - |fills|)
      decreases |ids| - p
    {
      Planner.GatheredStep(s, ids, p);
      if idx !in s.nodes {
        break;
      }
      LeafFormed(s, idx);
      GatheredCons(s.nodes, ids, p, |ids|);
      assert ids[p..|ids|] == ids[p..] && ids[p + 1..|ids|] == ids[p + 1..];
      GatheredFormed(s, ids[p + 1..]);
      var es := s.nodes[idx].es;
      GreedyConcat(side, limit, es, Gathered(s.nodes, ids[p + 1..]), remaining, maxFills - |fills|);
      ghost var before, fs := fills, Greedy(side, limit, es, remaining, maxFills - |fills|);
      var stop: bool;
      fills, remaining, stop := QuoteLeaf(side, limit, es, maxFills, fills, remaining);
      if stop {
        return;
      }
      Reassoc(before, fs, Greedy(side, limit, Gathered(s.nodes, ids[p + 1..]), remaining, maxFills - |fills|));
      idx := s.nodes[idx].next;
      p := p + 1;
    }
    if p < |ids| {
      LinkedAt(s, ids, p);
    }
    GreedyNothing(s.nodes, side, limit, ids[p..], remaining, maxFills - |fills|);
    assert fills + [] == fills;
  }

  lemma AllLeaves(s: State)
    requires Valid(s) && FormedBook(s)
    ensures s.height == 0 ==> |Leaves(s)| == 0
    ensures AllFormed(Gathered(s.nodes, Leaves(s)))
  {
    GatheredFormed(s, Leaves(s));
  }

  lemma NothingBefore(fs: seq<Fill>)
    ensures [] + fs == fs
  {
  }

  // What a match on the same book fills is a prefix of the preview; and all of it when the taker
  // supplied every leaf, or when the match ended for another reason than running out of leaves.
  lemma MatchFollowsPreview(m: Market, rq: MatchRq, m': Market, fs: seq<Fill>)
    requires Sound(m) && ShapedBooks(m) && FormedBook(m.Book(rq.side)) && Match(m, rq) == Ok((m', fs))
    ensures AllFormed(Offered(m, rq)) && AllFormed(StateEntries(m.Book(rq.side)))
    ensures var all := Greedy(rq.side, rq.limit, StateEntries(m.Book(rq.side)), rq.size, rq.Slots());
            && fs <= all
            && (|rq.groups| >= |Leaves(m.Book(rq.side))| ==> fs == all)
            && (|fs| == rq.Slots() || Filled(fs) == rq.size ==> fs == all)
            && (Stops(rq.side, rq.limit, Offered(m, rq), rq.size, rq.Slots()) ==> fs == all)
  {
    var s := m.Book(rq.side);
    hide GoodBook, VaultOk, FormedBook, Match, Greedy, Open, FillsOf, Offered, OrdersOf, AllFormed, Settled,
      StateEntries, Sorted, Stops, Filled;
    OneBook(m, rq.side);
    BookFormed(m.book, rq.side, s);
    MatchCorrect(m, rq, m', fs);
    OfferedSorted(m, rq);
    var a := Offered(m, rq);
    var b := StateEntries(s)[|a|..];
    assert StateEntries(s) == a + b;
    RestOfBook(a, b);
    PreviewSplits(rq.side, rq.limit, a, b, rq.size, rq.Slots());
    if |rq.groups| >= |Leaves(s)| {
      OfferedAll(m, rq);
    }
  }

  lemma PreviewSplits(side: Side, limit: U64, a: seq<Entry>, b: seq<Entry>, want: nat, slots: nat)
    requires AllFormed(a) && AllFormed(b) && AllFormed(a + b)
    ensures var fs, all := Greedy(side, limit, a, want, slots), Greedy(side, limit, a + b, want, slots);
            && fs <= all
            && (|b| == 0 || |fs| == slots || Filled(fs) == want || Stops(side, limit, a, want, slots) ==> fs == all)
  {
    hide Greedy, AllFormed, Stops, Filled;
    GreedyConcat(side, limit, a, b, want, slots);
    var fs := Greedy(side, limit, a, want, slots);
    if |b| == 0 || Filled(fs) == want || |fs| == slots {
      NoneLeft(side, limit, b, want - Filled(fs), slots - |fs|);
      assert fs + [] == fs;
    }
  }

  lemma BookFormed(book: Pubkey, side: Side, s: State)
    requires GoodBook(book, side, s)
    ensures AllFormed(StateEntries(s))
  {
    hide Valid, StateEntries;
    forall e | e in StateEntries(s) ensures Formed(e.val) {
      GoodOne(book, side, e);
    }
  }

  lemma RestOfBook(a: seq<Entry>, b: seq<Entry>)
    requires AllFormed(a + b)
    ensures AllFormed(a) && AllFormed(b)
  {
    forall e | e in b ensures Formed(e.val) {
      assert e in a + b;
    }
    forall e | e in a ensures Formed(e.val) {
      assert e in a + b;
    }
  }

  lemma NoneLeft(side: Side, limit: U64, es: seq<Entry>, want: nat, slots: nat)
    requires AllFormed(es) && (es == [] || want == 0 || slots == 0)
    ensures Greedy(side, limit, es, want, slots) == []
  {
  }

  lemma OfferedAll(m: Market, rq: MatchRq)
    requires Sound(m) && |rq.groups| >= |Leaves(m.Book(rq.side))|
    ensures Offered(m, rq) == StateEntries(m.Book(rq.side))
  {
    var s := m.Book(rq.side);
    hide GoodBook, VaultOk, Gathered, Leaves, StateEntries;
    OneBook(m, rq.side);
    Planner.ScanStarts(s);
    assert Leaves(s)[..|Leaves(s)|] == Leaves(s);
  }
}
