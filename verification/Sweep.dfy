// Which resting orders a taker gets, and at what sizes.
module Sweep {
  import opened Base
  import opened NodeViews
  import opened Shapes
  import opened Engine
  import opened OrderKeys
  import opened Orders
  import opened InsertPlanned
  import opened LeafChain
  import opened Scans

  // `left` is what remains of the order after the fill.
  datatype Fill = Fill(key: Key, maker: Pubkey, price: U64, fill: U64, left: U64)

  function Crosses(side: Side, limit: U64, key: Key): bool {
    if side == Ask then PriceAt(side, key) <= limit else PriceAt(side, key) >= limit
  }

  predicate AllFormed(es: seq<Entry>) {
    forall e | e in es :: Formed(e.val)
  }

  function FillOf(side: Side, e: Entry, want: nat): (f: Fill)
    requires Formed(e.val)
    ensures f.fill <= want
  {
    var f := Min(want, SizeOf(e.val));
    Fill(e.key, MakerOf(e.val), PriceAt(side, e.key), f, SizeOf(e.val) - f)
  }

  // ---- the reference: sweep the sorted book greedily ----

  function Greedy(side: Side, limit: U64, es: seq<Entry>, want: nat, slots: nat): (fs: seq<Fill>)
    requires AllFormed(es)
    ensures |fs| <= slots
  {
    if es == [] || want == 0 || slots == 0 || !Crosses(side, limit, es[0].key) then []
    else if SizeOf(es[0].val) == 0 then Greedy(side, limit, es[1..], want, slots)
    else
      var f := FillOf(side, es[0], want);
      [f] + Greedy(side, limit, es[1..], want - f.fill, slots - 1)
  }

  function Filled(fs: seq<Fill>): nat {
    if fs == [] then 0 else fs[0].fill + Filled(fs[1..])
  }

  // The orders a taker at `limit` could trade with at all, in book order.
  function Open(side: Side, limit: U64, es: seq<Entry>): seq<Entry>
    requires AllFormed(es)
  {
    if es == [] then []
    else (if Crosses(side, limit, es[0].key) && SizeOf(es[0].val) > 0 then [es[0]] else []) + Open(side, limit, es[1..])
  }

  lemma {:induction false} NoneOpen(side: Side, limit: U64, es: seq<Entry>)
    requires Sorted(es) && AllFormed(es) && es != [] && !Crosses(side, limit, es[0].key)
    ensures Open(side, limit, es) == []
  {
    if |es| > 1 {
      SortedPart(es, 1, |es|);
      PricesWorsen(side, es[0].key, es[1].key);
      NoneOpen(side, limit, es[1..]);
    } else {
      assert es[1..] == [];
    }
  }

  // Fill `f` trades order `e`.
  predicate Trades(side: Side, e: Entry, f: Fill) {
    && Formed(e.val) && f.key == e.key && f.maker == MakerOf(e.val) && f.price == PriceAt(side, e.key)
    && f.fill > 0 && f.fill + f.left == SizeOf(e.val)
  }

  ghost predicate FillsOf(side: Side, open: seq<Entry>, want: nat, slots: nat, fs: seq<Fill>) {
    && |fs| <= |open| && |fs| <= slots && Filled(fs) <= want
    && (forall i | 0 <= i < |fs| :: Trades(side, open[i], fs[i]))
    && (forall i | 0 <= i < |fs| - 1 :: fs[i].left == 0)
    && (|fs| == |open| || |fs| == slots || Filled(fs) == want)
    && (|fs| > 0 && fs[|fs| - 1].left > 0 ==> Filled(fs) == want)
  }

  // The greedy sweep takes the first tradable orders in book order, all of each but perhaps the
  // last, and stops only for want of orders, of slots, or of anything left to fill.
  lemma {:induction false} GreedyMeaning(side: Side, limit: U64, es: seq<Entry>, want: nat, slots: nat)
    requires Sorted(es) && AllFormed(es)
    ensures AllFormed(Open(side, limit, es))
    ensures FillsOf(side, Open(side, limit, es), want, slots, Greedy(side, limit, es, want, slots))
  {
    hide Sorted, Crosses, AllFormed, Greedy, Open, FillsOf, FillOf, Stops;
    if es == [] {
      NothingMeant(side, limit, want, slots);
    } else {
      SortedPart(es, 1, |es|);
      FormedRest(es);
      var rest := es[1..];
      assert es[1..|es|] == rest;
      OpenStep(side, limit, es);
      if want == 0 || slots == 0 {
        GreedyMeaning(side, limit, rest, want, slots);
        NoFills(side, limit, es, want, slots);
      } else if !Crosses(side, limit, es[0].key) {
        NoneOpen(side, limit, es);
        NothingMeant(side, limit, want, slots);
        GreedyEnds(side, limit, es, want, slots);
      } else if SizeOf(es[0].val) == 0 {
        GreedySkips(side, limit, es, want, slots);
        GreedyMeaning(side, limit, rest, want, slots);
      } else {
        GreedyTakes(side, limit, es, want, slots);
        var f := FillOf(side, es[0], want);
        GreedyMeaning(side, limit, rest, want - f.fill, slots - 1);
        FillsCons(side, es[0], Open(side, limit, rest), want, slots, Greedy(side, limit, rest, want - f.fill, slots - 1));
      }
    }
  }

  lemma NothingMeant(side: Side, limit: U64, want: nat, slots: nat)
    ensures AllFormed([]) && Open(side, limit, []) == [] && Greedy(side, limit, [], want, slots) == []
    ensures FillsOf(side, [], want, slots, [])
  {
  }

  lemma {:induction false} OpenFormed(side: Side, limit: U64, es: seq<Entry>)
    requires AllFormed(es)
    ensures AllFormed(Open(side, limit, es))
  {
    if es != [] {
      OpenFormed(side, limit, es[1..]);
    }
  }

  lemma NoFills(side: Side, limit: U64, es: seq<Entry>, want: nat, slots: nat)
    requires AllFormed(es) && (want == 0 || slots == 0)
    ensures AllFormed(Open(side, limit, es)) && Greedy(side, limit, es, want, slots) == []
    ensures FillsOf(side, Open(side, limit, es), want, slots, [])
  {
    OpenFormed(side, limit, es);
  }

  lemma OpenStep(side: Side, limit: U64, es: seq<Entry>)
    requires AllFormed(es) && es != [] && AllFormed(es[1..]) && Formed(es[0].val)
    ensures Open(side, limit, es) ==
            if Crosses(side, limit, es[0].key) && SizeOf(es[0].val) > 0 then [es[0]] + Open(side, limit, es[1..])
            else Open(side, limit, es[1..])
  {
    assert [] + Open(side, limit, es[1..]) == Open(side, limit, es[1..]);
  }

  lemma FormedRest(es: seq<Entry>)
    requires AllFormed(es) && es != []
    ensures Formed(es[0].val) && AllFormed(es[1..])
  {
  }

  lemma GreedyEnds(side: Side, limit: U64, es: seq<Entry>, want: nat, slots: nat)
    requires AllFormed(es) && es != [] && !Crosses(side, limit, es[0].key)
    ensures Greedy(side, limit, es, want, slots) == [] && Stops(side, limit, es, want, slots) == (want > 0 && slots > 0)
  {
  }

  lemma GreedySkips(side: Side, limit: U64, es: seq<Entry>, want: nat, slots: nat)
    requires AllFormed(es) && es != [] && AllFormed(es[1..]) && want > 0 && slots > 0
    requires Crosses(side, limit, es[0].key) && Formed(es[0].val) && SizeOf(es[0].val) == 0
    ensures Greedy(side, limit, es, want, slots) == Greedy(side, limit, es[1..], want, slots)
    ensures Stops(side, limit, es, want, slots) == Stops(side, limit, es[1..], want, slots)
  {
  }

  lemma GreedyTakes(side: Side, limit: U64, es: seq<Entry>, want: nat, slots: nat)
    requires AllFormed(es) && es != [] && AllFormed(es[1..]) && want > 0 && slots > 0
    requires Crosses(side, limit, es[0].key) && Formed(es[0].val) && SizeOf(es[0].val) > 0
    ensures var f := FillOf(side, es[0], want);
            && Greedy(side, limit, es, want, slots) == [f] + Greedy(side, limit, es[1..], want - f.fill, slots - 1)
            && Stops(side, limit, es, want, slots) == Stops(side, limit, es[1..], want - f.fill, slots - 1)
  {
  }

  lemma FillsCons(side: Side, e: Entry, open: seq<Entry>, want: nat, slots: nat, fs: seq<Fill>)
    requires Formed(e.val) && AllFormed(open) && want > 0 && slots > 0 && SizeOf(e.val) > 0
    requires FillsOf(side, open, want - FillOf(side, e, want).fill, slots - 1, fs)
    ensures AllFormed([e] + open) && FillsOf(side, [e] + open, want, slots, [FillOf(side, e, want)] + fs)
  {
    hide Trades, FillOf, AllFormed, Filled, SizeOf;
    var f := FillOf(side, e, want);
    FillTrades(side, e, want);
    FilledCons(f, fs);
    if fs != [] {
      FilledFirst(side, open[0], fs);
    }
    var all, os := [f] + fs, [e] + open;
    forall i | 0 <= i < |all| ensures Trades(side, os[i], all[i]) && (i < |all| - 1 ==> all[i].left == 0) {
      if i > 0 {
        assert Trades(side, open[i - 1], fs[i - 1]);
      }
    }
    assert AllFormed(os) by {
      FormedCons(e, open);
    }
  }

  lemma FillTrades(side: Side, e: Entry, want: nat)
    requires Formed(e.val) && want > 0 && SizeOf(e.val) > 0
    ensures var f := FillOf(side, e, want); Trades(side, e, f) && (f.left > 0 ==> f.fill == want)
  {
  }

  lemma FormedCons(e: Entry, es: seq<Entry>)
    requires Formed(e.val) && AllFormed(es)
    ensures AllFormed([e] + es)
  {
  }

  lemma FilledFirst(side: Side, e: Entry, fs: seq<Fill>)
    requires fs != [] && Trades(side, e, fs[0])
    ensures Filled(fs) > 0
  {
  }

  // ---- leaf by leaf ----

  // The sweep of this run of entries ends at an order that does not cross.
  predicate Stops(side: Side, limit: U64, es: seq<Entry>, want: nat, slots: nat)
    requires AllFormed(es)
  {
    if es == [] || want == 0 || slots == 0 then false
    else if !Crosses(side, limit, es[0].key) then true
    else if SizeOf(es[0].val) == 0 then Stops(side, limit, es[1..], want, slots)
    else
      var f := FillOf(side, es[0], want);
      Stops(side, limit, es[1..], want - f.fill, slots - 1)
  }

  lemma {:induction false} FilledAtMost(side: Side, limit: U64, es: seq<Entry>, want: nat, slots: nat)
    requires AllFormed(es)
    ensures Filled(Greedy(side, limit, es, want, slots)) <= want
  {
    if es != [] && want > 0 && slots > 0 && Crosses(side, limit, es[0].key) {
      if SizeOf(es[0].val) == 0 {
        FilledAtMost(side, limit, es[1..], want, slots);
      } else {
        var f := FillOf(side, es[0], want);
        FilledAtMost(side, limit, es[1..], want - f.fill, slots - 1);
        var g := Greedy(side, limit, es[1..], want - f.fill, slots - 1);
        assert ([f] + g)[1..] == g;
      }
    }
  }

  lemma {:induction false} GreedyConcat(side: Side, limit: U64, a: seq<Entry>, b: seq<Entry>, want: nat, slots: nat)
    requires AllFormed(a) && AllFormed(b) && AllFormed(a + b)
    ensures var f := Greedy(side, limit, a, want, slots);
            && Filled(f) <= want
            && Greedy(side, limit, a + b, want, slots) ==
               (if Stops(side, limit, a, want, slots) then f else f + Greedy(side, limit, b, want - Filled(f), slots - |f|))
            && (Stops(side, limit, a + b, want, slots) <==>
                Stops(side, limit, a, want, slots) || Stops(side, limit, b, want - Filled(f), slots - |f|))
  {
    hide Crosses, AllFormed, Greedy, Stops, FillOf, Filled;
    FilledAtMost(side, limit, a, want, slots);
    if a == [] {
      assert a + b == b;
      NothingMeant(side, limit, want, slots);
      FilledNone(side, limit, want, slots);
    } else if want == 0 || slots == 0 {
      NoFills(side, limit, a, want, slots);
      NoFills(side, limit, b, want, slots);
      NoFills(side, limit, a + b, want, slots);
      FilledNone(side, limit, want, slots);
      NeverStops(side, limit, a, want, slots);
      NeverStops(side, limit, b, want, slots);
      NeverStops(side, limit, a + b, want, slots);
    } else {
      FormedRest(a);
      FormedRest(a + b);
      assert (a + b)[1..] == a[1..] + b;
      if !Crosses(side, limit, a[0].key) {
        GreedyEnds(side, limit, a, want, slots);
        GreedyEnds(side, limit, a + b, want, slots);
      } else if SizeOf(a[0].val) == 0 {
        GreedySkips(side, limit, a, want, slots);
        GreedySkips(side, limit, a + b, want, slots);
        GreedyConcat(side, limit, a[1..], b, want, slots);
      } else {
        var f := FillOf(side, a[0], want);
        GreedyTakes(side, limit, a, want, slots);
        GreedyTakes(side, limit, a + b, want, slots);
        GreedyConcat(side, limit, a[1..], b, want - f.fill, slots - 1);
        var g := Greedy(side, limit, a[1..], want - f.fill, slots - 1);
        FilledCons(f, g);
        if !Stops(side, limit, a, want, slots) {
          var r := Greedy(side, limit, b, want - f.fill - Filled(g), slots - 1 - |g|);
          assert [f] + (g + r) == [f] + g + r;
        }
      }
    }
  }

  lemma FilledNone(side: Side, limit: U64, want: nat, slots: nat)
    ensures AllFormed([]) && !Stops(side, limit, [], want, slots) && Filled([]) == 0
    ensures forall fs: seq<Fill> :: [] + fs == fs
  {
  }

  lemma FilledCons(f: Fill, fs: seq<Fill>)
    ensures Filled([f] + fs) == f.fill + Filled(fs)
  {
    assert ([f] + fs)[1..] == fs;
  }

  lemma NeverStops(side: Side, limit: U64, es: seq<Entry>, want: nat, slots: nat)
    requires AllFormed(es) && (want == 0 || slots == 0)
    ensures !Stops(side, limit, es, want, slots)
  {
  }

  // ---- the matcher's sweep over the leaves a taker supplies ----

  // grps[i] is the number of the leaf that fill i came from.
  datatype Swept = Swept(fills: seq<Fill>, grps: seq<nat>)

  function Copies(g: nat, n: nat): (gs: seq<nat>)
    ensures |gs| == n && forall i | 0 <= i < n :: gs[i] == g
  {
    seq(n, _ => g)
  }

  // The values of a market's tree are all 40 bytes wide.
  predicate FormedBook(s: State) {
    forall x | x in s.nodes && s.nodes[x].Leaf? :: AllFormed(s.nodes[x].es)
  }

  function SweepFrom(s: State, side: Side, limit: U64, leaves: seq<nat>, g: nat, expected: nat, want: nat, slots: nat): (r: Result<Swept>)
    requires g <= |leaves|
    requires FormedBook(s)
    ensures r.Ok? ==> |r.value.fills| == |r.value.grps| <= slots
    decreases |leaves| - g
  {
    if g == |leaves| || want == 0 || slots == 0 then Ok(Swept([], []))
    else if leaves[g] !in s.nodes then Err(IllegalOwner)
    else if leaves[g] != expected || expected in leaves[..g] || s.nodes[expected].Inner? then Err(InvalidArgument)
    else
      var es := s.nodes[expected].es;
      var fs := Greedy(side, limit, es, want, slots);
      if Stops(side, limit, es, want, slots) then Ok(Swept(fs, Copies(g, |fs|)))
      else
        FilledAtMost(side, limit, es, want, slots);
        var rest :- SweepFrom(s, side, limit, leaves, g + 1, s.nodes[expected].next, want - Filled(fs), slots - |fs|);
        Ok(Swept(fs + rest.fills, Copies(g, |fs|) + rest.grps))
  }

  lemma {:induction false} GatheredFormed(s: State, ids: seq<nat>)
    requires FormedBook(s)
    ensures AllFormed(Gathered(s.nodes, ids))
  {
    if ids != [] {
      GatheredFormed(s, ids[1..]);
    }
  }

  // Whatever leaves a taker supplies, an accepted sweep is the greedy one over as many leaves
  // of the chain; and the right leaves are accepted (so the duplicate check never refuses them).
  lemma {:induction false} SweepIsGreedy(s: State, ids: seq<nat>, side: Side, limit: U64, leaves: seq<nat>, g: nat, want: nat, slots: nat)
    requires Linked(s, ids) && Distinct(ids) && FormedBook(s) && 0 !in s.nodes
    requires g <= |leaves| && g <= |ids| && leaves[..g] == ids[..g]
    ensures var n := Min(|leaves|, |ids|);
            var r := SweepFrom(s, side, limit, leaves, g, if g < |ids| then ids[g] else 0, want, slots);
            var es := Gathered(s.nodes, ids[g..n]);
            && AllFormed(es)
            && (r.Ok? ==> r.value.fills == Greedy(side, limit, es, want, slots))
            && (leaves <= ids ==> r.Ok?)
    decreases |leaves| - g
  {
    hide Linked, Distinct, FormedBook, Gathered, AllFormed, Greedy, Stops, Filled;
    var n := Min(|leaves|, |ids|);
    GatheredFormed(s, ids[g..n]);
    var expected := if g < |ids| then ids[g] else 0;
    if g == |leaves| || want == 0 || slots == 0 {
      GreedyNothing(s.nodes, side, limit, ids[g..n], want, slots);
    } else if g < |ids| && leaves[g] == ids[g] {
      LinkedAt(s, ids, g);
      NotSeen(leaves, ids, g);
      GatheredCons(s.nodes, ids, g, n);
      var es, rest := s.nodes[ids[g]].es, Gathered(s.nodes, ids[g + 1..n]);
      LeafFormed(s, ids[g]);
      GatheredFormed(s, ids[g + 1..n]);
      GreedyConcat(side, limit, es, rest, want, slots);
      var fs := Greedy(side, limit, es, want, slots);
      SweepIsGreedy(s, ids, side, limit, leaves, g + 1, want - Filled(fs), slots - |fs|);
    }
  }

  lemma NotSeen(leaves: seq<nat>, ids: seq<nat>, g: nat)
    requires Distinct(ids) && g < |ids| && g < |leaves| && leaves[..g] == ids[..g] && leaves[g] == ids[g]
    ensures ids[g] !in leaves[..g] && leaves[..g + 1] == ids[..g + 1]
  {
    assert leaves[..g + 1] == leaves[..g] + [leaves[g]] && ids[..g + 1] == ids[..g] + [ids[g]];
  }

  lemma LeafFormed(s: State, x: nat)
    requires FormedBook(s) && x in s.nodes && s.nodes[x].Leaf?
    ensures AllFormed(s.nodes[x].es)
  {
  }

  lemma GreedyNothing(st: Store, side: Side, limit: U64, ids: seq<nat>, want: nat, slots: nat)
    requires AllFormed(Gathered(st, ids)) && (|ids| == 0 || want == 0 || slots == 0)
    ensures Greedy(side, limit, Gathered(st, ids), want, slots) == []
  {
  }

  // ---- which leaves a sweep accepts ----

  lemma {:induction false} FilledConcat(a: seq<Fill>, b: seq<Fill>)
    ensures Filled(a + b) == Filled(a) + Filled(b)
  {
    if a == [] {
      assert a + b == b;
    } else {
      FilledConcat(a[1..], b);
      FilledCons(a[0], a[1..] + b);
      assert a + b == [a[0]] + (a[1..] + b);
    }
  }

  // A sweep that has gone through these entries still wants more, has slots left, and has not met
  // an order that does not cross.
  predicate Unfinished(side: Side, limit: U64, es: seq<Entry>, want: nat, slots: nat)
    requires AllFormed(es)
  {
    var fs := Greedy(side, limit, es, want, slots);
    Filled(fs) < want && |fs| < slots && !Stops(side, limit, es, want, slots)
  }

  lemma UnfinishedConcat(side: Side, limit: U64, a: seq<Entry>, b: seq<Entry>, want: nat, slots: nat)
    requires AllFormed(a) && AllFormed(b) && AllFormed(a + b)
    ensures var fs := Greedy(side, limit, a, want, slots);
            && Filled(fs) <= want
            && (Unfinished(side, limit, a + b, want, slots) <==>
                !Stops(side, limit, a, want, slots) && Unfinished(side, limit, b, want - Filled(fs), slots - |fs|))
  {
    hide Greedy, Stops, AllFormed, Filled;
    GreedyConcat(side, limit, a, b, want, slots);
    var fs := Greedy(side, limit, a, want, slots);
    FilledConcat(fs, Greedy(side, limit, b, want - Filled(fs), slots - |fs|));
  }

  // The sweep has gone through the chain's leaves from g to k and is unfinished.
  ghost predicate SweepReaches(s: State, ids: seq<nat>, side: Side, limit: U64, g: nat, k: nat, want: nat, slots: nat)
    requires FormedBook(s) && g <= k <= |ids|
  {
    GatheredFormed(s, ids[g..k]);
    Unfinished(side, limit, Gathered(s.nodes, ids[g..k]), want, slots)
  }

  // Each leaf supplied that the sweep reaches is the chain's next.
  ghost predicate InStep(s: State, ids: seq<nat>, side: Side, limit: U64, leaves: seq<nat>, g: nat, want: nat, slots: nat)
    requires FormedBook(s) && g <= |ids|
  {
    forall k | g <= k <= |ids| && k < |leaves| && SweepReaches(s, ids, side, limit, g, k, want, slots) ::
      k < |ids| && leaves[k] == ids[k]
  }

  lemma SweepReachesFirst(s: State, ids: seq<nat>, side: Side, limit: U64, g: nat, want: nat, slots: nat)
    requires FormedBook(s) && g <= |ids|
    ensures SweepReaches(s, ids, side, limit, g, g, want, slots) <==> want > 0 && slots > 0
  {
    assert ids[g..g] == [];
  }

  lemma SweepReachesNone(s: State, ids: seq<nat>, side: Side, limit: U64, g: nat, k: nat, want: nat, slots: nat)
    requires FormedBook(s) && g <= k <= |ids| && (want == 0 || slots == 0)
    ensures !SweepReaches(s, ids, side, limit, g, k, want, slots)
  {
    hide FormedBook;
  }

  lemma SweepReachesNext(s: State, ids: seq<nat>, side: Side, limit: U64, g: nat, k: nat, want: nat, slots: nat)
    requires FormedBook(s) && g < k <= |ids| && ids[g] in s.nodes && s.nodes[ids[g]].Leaf? && AllFormed(s.nodes[ids[g]].es)
    ensures var es := s.nodes[ids[g]].es;
            var fs := Greedy(side, limit, es, want, slots);
            && Filled(fs) <= want
            && (SweepReaches(s, ids, side, limit, g, k, want, slots) <==>
                !Stops(side, limit, es, want, slots) && SweepReaches(s, ids, side, limit, g + 1, k, want - Filled(fs), slots - |fs|))
  {
    hide FormedBook, AllFormed, Greedy, Stops, Filled, Unfinished, Gathered;
    GatheredFormed(s, ids[g..k]);
    GatheredFormed(s, ids[g + 1..k]);
    GatheredCons(s.nodes, ids, g, k);
    UnfinishedConcat(side, limit, s.nodes[ids[g]].es, Gathered(s.nodes, ids[g + 1..k]), want, slots);
  }

  lemma InStepHead(s: State, ids: seq<nat>, side: Side, limit: U64, leaves: seq<nat>, g: nat, want: nat, slots: nat)
    requires FormedBook(s) && g <= |ids| && g < |leaves| && want > 0 && slots > 0
    ensures InStep(s, ids, side, limit, leaves, g, want, slots) ==> g < |ids| && leaves[g] == ids[g]
  {
    hide FormedBook, SweepReaches;
    SweepReachesFirst(s, ids, side, limit, g, want, slots);
  }

  lemma InStepNow(s: State, ids: seq<nat>, side: Side, limit: U64, leaves: seq<nat>, g: nat, want: nat, slots: nat)
    requires FormedBook(s) && g <= |ids| && (want == 0 || slots == 0 || g >= |leaves|)
    ensures InStep(s, ids, side, limit, leaves, g, want, slots)
  {
    hide FormedBook, SweepReaches;
    forall k | g <= k <= |ids| && k < |leaves| ensures !SweepReaches(s, ids, side, limit, g, k, want, slots) {
      SweepReachesNone(s, ids, side, limit, g, k, want, slots);
    }
  }

  lemma InStepTail(s: State, ids: seq<nat>, side: Side, limit: U64, leaves: seq<nat>, g: nat, want: nat, slots: nat)
    requires FormedBook(s) && g < |ids| && g < |leaves| && leaves[g] == ids[g] && ids[g] in s.nodes && s.nodes[ids[g]].Leaf?
    ensures var es := s.nodes[ids[g]].es;
            && AllFormed(es)
            && (var fs := Greedy(side, limit, es, want, slots);
                && Filled(fs) <= want
                && (InStep(s, ids, side, limit, leaves, g, want, slots) <==>
                    Stops(side, limit, es, want, slots) || InStep(s, ids, side, limit, leaves, g + 1, want - Filled(fs), slots - |fs|)))
  {
    hide FormedBook, AllFormed, Greedy, Stops, Filled, SweepReaches;
    LeafFormed(s, ids[g]);
    var es := s.nodes[ids[g]].es;
    FilledAtMost(side, limit, es, want, slots);
    var fs := Greedy(side, limit, es, want, slots);
    forall k | g < k <= |ids|
      ensures SweepReaches(s, ids, side, limit, g, k, want, slots) <==>
              !Stops(side, limit, es, want, slots) && SweepReaches(s, ids, side, limit, g + 1, k, want - Filled(fs), slots - |fs|)
    {
      SweepReachesNext(s, ids, side, limit, g, k, want, slots);
    }
  }

  // A sweep is accepted exactly when every leaf it reaches is the chain's next; what is supplied
  // behind the leaf that finishes it does not matter.
  lemma {:induction false} SweepIff(s: State, ids: seq<nat>, side: Side, limit: U64, leaves: seq<nat>, g: nat, want: nat, slots: nat)
    requires Linked(s, ids) && Distinct(ids) && FormedBook(s) && 0 !in s.nodes
    requires g <= |leaves| && g <= |ids| && leaves[..g] == ids[..g]
    ensures SweepFrom(s, side, limit, leaves, g, if g < |ids| then ids[g] else 0, want, slots).Ok? <==>
            InStep(s, ids, side, limit, leaves, g, want, slots)
    decreases |leaves| - g
  {
    hide Linked, Distinct, FormedBook, AllFormed, Greedy, Stops, Filled, InStep;
    if g == |leaves| || want == 0 || slots == 0 {
      InStepNow(s, ids, side, limit, leaves, g, want, slots);
    } else if g < |ids| && leaves[g] == ids[g] {
      LinkedAt(s, ids, g);
      NotSeen(leaves, ids, g);
      InStepTail(s, ids, side, limit, leaves, g, want, slots);
      var fs := Greedy(side, limit, s.nodes[ids[g]].es, want, slots);
      SweepIff(s, ids, side, limit, leaves, g + 1, want - Filled(fs), slots - |fs|);
    } else {
      InStepHead(s, ids, side, limit, leaves, g, want, slots);
    }
  }

  // A fill is of an entry in the leaf its group number names.
  predicate FillIn(s: State, ids: seq<nat>, g: nat, f: Fill) {
    g < |ids| && ids[g] in s.nodes && s.nodes[ids[g]].Leaf? && exists e | e in s.nodes[ids[g]].es :: e.key == f.key
  }

  lemma {:induction false} GreedyFrom(side: Side, limit: U64, es: seq<Entry>, want: nat, slots: nat, i: nat)
    requires AllFormed(es) && i < |Greedy(side, limit, es, want, slots)|
    ensures exists e | e in es :: e.key == Greedy(side, limit, es, want, slots)[i].key
  {
    hide Crosses;
    if SizeOf(es[0].val) == 0 {
      GreedyFrom(side, limit, es[1..], want, slots, i);
    } else if i > 0 {
      GreedyFrom(side, limit, es[1..], want - FillOf(side, es[0], want).fill, slots - 1, i - 1);
    } else {
      assert es[0] in es;
    }
  }

  lemma {:induction false} GroupsAreLeaves(s: State, ids: seq<nat>, side: Side, limit: U64, leaves: seq<nat>, g: nat, want: nat, slots: nat)
    requires Linked(s, ids) && Distinct(ids) && FormedBook(s) && 0 !in s.nodes
    requires g <= |leaves| && g <= |ids| && leaves[..g] == ids[..g]
    ensures var r := SweepFrom(s, side, limit, leaves, g, if g < |ids| then ids[g] else 0, want, slots);
            r.Ok? ==> forall i | 0 <= i < |r.value.fills| :: FillIn(s, ids, r.value.grps[i], r.value.fills[i])
    decreases |leaves| - g
  {
    hide Linked, Distinct, FormedBook, AllFormed, Greedy, Stops, Filled, FillIn;
    if g < |leaves| && want > 0 && slots > 0 && g < |ids| && leaves[g] == ids[g] {
      LinkedAt(s, ids, g);
      NotSeen(leaves, ids, g);
      LeafFormed(s, ids[g]);
      var es := s.nodes[ids[g]].es;
      FilledAtMost(side, limit, es, want, slots);
      var fs := Greedy(side, limit, es, want, slots);
      FillsThere(s, ids, side, limit, g, want, slots);
      GroupsAreLeaves(s, ids, side, limit, leaves, g + 1, want - Filled(fs), slots - |fs|);
    }
  }

  lemma FillsThere(s: State, ids: seq<nat>, side: Side, limit: U64, g: nat, want: nat, slots: nat)
    requires g < |ids| && ids[g] in s.nodes && s.nodes[ids[g]].Leaf? && AllFormed(s.nodes[ids[g]].es)
    ensures forall f | f in Greedy(side, limit, s.nodes[ids[g]].es, want, slots) :: FillIn(s, ids, g, f)
  {
    hide Greedy, AllFormed;
    var es := s.nodes[ids[g]].es;
    var fs := Greedy(side, limit, es, want, slots);
    forall i | 0 <= i < |fs| ensures FillIn(s, ids, g, fs[i]) {
      GreedyFrom(side, limit, es, want, slots, i);
    }
  }
}
