// Whole lives of a market: solvency, and what each order gets back.
module MarketRuns {
  import opened Base
  import opened Shapes
  import opened Engine
  import opened Represent
  import opened MapModel
  import opened OrderKeys
  import opened Tokens
  import opened Orders
  import opened Sweep
  import opened Markets
  import opened Books
  import opened Solvency
  import opened Settlement

  function EventsOf(m: Market, ix: MarketIx): seq<Event>
    requires ShapedBooks(m) && FormedBook(m.asks) && FormedBook(m.bids)
  {
    var r := Step(m, ix);
    if r.Ok? then r.value.1 else []
  }

  // A refused instruction leaves no trace.
  function ExecMarket(m: Market, ix: MarketIx): Market
    requires ShapedBooks(m) && FormedBook(m.asks) && FormedBook(m.bids)
  {
    var r := Step(m, ix);
    if r.Ok? then r.value.0 else m
  }

  // What account `v` receives beyond what is locked in it: outside payments, and the release of a
  // match whose taker has it pay the vault itself.
  function GiftOf(m: Market, ix: MarketIx, v: Pubkey): nat
    requires ShapedBooks(m) && FormedBook(m.asks) && FormedBook(m.bids)
  {
    match ix
    case External(l) =>
      if LeavesVaults(m, l) && Balance(l, v) >= Balance(m.tokens, v) then Balance(l, v) - Balance(m.tokens, v) else 0
    case IxMatch(rq) => if rq.recv == v then Releases(EventsOf(m, ix), rq.side) else 0
    case _ => 0
  }

  lemma NothingHappens(m: Market, l: Ledger)
    requires Sound(m) && LeavesVaults(m, l)
    ensures KeepsBooks(m, m.(tokens := l), [])
    ensures forall v | IsVault(m, v) :: Moved(m, l, [], v, Balance(l, v) - Balance(m.tokens, v))
  {
    hide GoodBook, Balance, VaultOk, Contents, StateEntries;
  }

  lemma NothingMoves(m: Market)
    requires Sound(m)
    ensures KeepsBooks(m, m, []) && forall v :: Moved(m, m.tokens, [], v, 0)
  {
    hide GoodBook, Balance, VaultOk, Contents, StateEntries;
  }

  lemma MatchStep(m: Market, rq: MatchRq, m': Market, evs: seq<Event>)
    requires Sound(m) && ShapedBooks(m) && FormedBook(m.asks) && FormedBook(m.bids) && Step(m, IxMatch(rq)) == Ok((m', evs))
    ensures KeepsBooks(m, m', evs)
    ensures forall v | IsVault(m, v) :: Moved(m, m'.tokens, evs, v, if rq.recv == v then Releases(evs, rq.side) else 0)
  {
    hide Sound, ShapedBooks, FormedBook, Match, KeepsBooks, Moved, Offered, AllFormed, Greedy, FillsOf;
    var fs := Match(m, rq).value.1;
    MatchCorrect(m, rq, m', fs);
    assert fs[0..] == fs;
  }

  // Every instruction keeps the market sound, and moves exactly the tokens its events name.
  lemma StepAccounted(m: Market, ix: MarketIx)
    requires Sound(m) && ShapedBooks(m) && FormedBook(m.asks) && FormedBook(m.bids)
    ensures KeepsBooks(m, ExecMarket(m, ix), EventsOf(m, ix))
    ensures forall v | IsVault(m, v) :: Moved(m, ExecMarket(m, ix).tokens, EventsOf(m, ix), v, GiftOf(m, ix, v))
  {
    hide Sound, ShapedBooks, FormedBook, Match, Place, PlaceCold, Cancel, KeepsBooks, Moved, RefundsOf, LocksOf, LeavesVaults;
    var m' := ExecMarket(m, ix);
    if Step(m, ix).Err? {
      NothingMoves(m);
      RefusedGift(m, ix);
    } else {
      match ix
      case IxPlace(o, path) => PlaceAccounted(m, o, path);
      case IxPlaceCold(o, path, spares) => PlaceColdAccounted(m, o, path, spares);
      case IxCancel(rq) => CancelStep(m, rq, m');
      case IxMatch(rq) => MatchStep(m, rq, m', EventsOf(m, ix));
      case External(l) =>
        NothingHappens(m, l);
        GiftIs(m, l);
    }
  }

  lemma RefusedGift(m: Market, ix: MarketIx)
    requires ShapedBooks(m) && FormedBook(m.asks) && FormedBook(m.bids) && Step(m, ix).Err?
    ensures forall v :: GiftOf(m, ix, v) == 0
  {
    hide ShapedBooks, FormedBook, Match, Place, PlaceCold, Cancel, LeavesVaults;
  }

  lemma GiftIs(m: Market, l: Ledger)
    requires ShapedBooks(m) && FormedBook(m.asks) && FormedBook(m.bids) && LeavesVaults(m, l)
    ensures forall v | IsVault(m, v) :: GiftOf(m, External(l), v) == Balance(l, v) - Balance(m.tokens, v)
  {
    hide ShapedBooks, FormedBook, Balance, VaultOk;
  }

  lemma PlaceAccounted(m: Market, o: Terms, path: seq<nat>)
    requires Sound(m) && ShapedBooks(m) && Place(m, o, path).Ok?
    ensures KeepsBooks(m, Place(m, o, path).value, LocksOf(o))
    ensures forall v | IsVault(m, v) :: Moved(m, Place(m, o, path).value.tokens, LocksOf(o), v, 0)
  {
    hide Sound, AllShaped, Runs.Apply, KeepsBooks, Moved, Contents, Admit;
    PlaceStep(m, o, Runs.IxInsertFast(OrderEntry(o), path), Place(m, o, path).value);
  }

  lemma PlaceColdAccounted(m: Market, o: Terms, path: seq<nat>, spares: seq<nat>)
    requires Sound(m) && ShapedBooks(m) && PlaceCold(m, o, path, spares).Ok?
    ensures KeepsBooks(m, PlaceCold(m, o, path, spares).value, LocksOf(o))
    ensures forall v | IsVault(m, v) :: Moved(m, PlaceCold(m, o, path, spares).value.tokens, LocksOf(o), v, 0)
  {
    hide Sound, AllShaped, Runs.Apply, KeepsBooks, Moved, Contents, Admit;
    PlaceStep(m, o, Runs.IxInsert(OrderEntry(o), path, spares), PlaceCold(m, o, path, spares).value);
  }

  lemma NextSound(m: Market, ix: MarketIx)
    requires Sound(m)
    ensures ShapedBooks(m) && FormedBook(m.asks) && FormedBook(m.bids)
    ensures Sound(ExecMarket(m, ix)) && SameTerms(m, ExecMarket(m, ix))
  {
    hide Sound, ShapedBooks, FormedBook, ExecMarket, EventsOf, KeepsBooks;
    SoundShaped(m);
    StepAccounted(m, ix);
    KeepsSound(m, ExecMarket(m, ix), EventsOf(m, ix));
  }

  // ---- runs ----

  ghost function RunMarket(m: Market, ixs: seq<MarketIx>): Market
    requires Sound(m)
    decreases |ixs|
  {
    if ixs == [] then m
    else
      NextSound(m, ixs[0]);
      RunMarket(ExecMarket(m, ixs[0]), ixs[1..])
  }

  ghost function RunEvents(m: Market, ixs: seq<MarketIx>): seq<Event>
    requires Sound(m)
    decreases |ixs|
  {
    if ixs == [] then []
    else
      NextSound(m, ixs[0]);
      EventsOf(m, ixs[0]) + RunEvents(ExecMarket(m, ixs[0]), ixs[1..])
  }

  ghost function RunGifts(m: Market, ixs: seq<MarketIx>, v: Pubkey): nat
    requires Sound(m)
    decreases |ixs|
  {
    if ixs == [] then 0
    else
      NextSound(m, ixs[0]);
      GiftOf(m, ixs[0], v) + RunGifts(ExecMarket(m, ixs[0]), ixs[1..], v)
  }

  lemma {:induction false} RunAccounted(m: Market, ixs: seq<MarketIx>, v: Pubkey)
    requires Sound(m) && IsVault(m, v)
    ensures KeepsBooks(m, RunMarket(m, ixs), RunEvents(m, ixs))
    ensures Moved(m, RunMarket(m, ixs).tokens, RunEvents(m, ixs), v, RunGifts(m, ixs, v))
    decreases |ixs|
  {
    hide Sound, ShapedBooks, FormedBook, ExecMarket, EventsOf, GiftOf, KeepsBooks, Moved;
    if ixs == [] {
      NothingMoves(m);
    } else {
      NextSound(m, ixs[0]);
      StepAccounted(m, ixs[0]);
      var m1, m', a := ExecMarket(m, ixs[0]), RunMarket(m, ixs), EventsOf(m, ixs[0]);
      RunAccounted(m1, ixs[1..], v);
      KeepsBooksChain(m, m1, m', a, RunEvents(m1, ixs[1..]));
      MovedChain(m, m1, m'.tokens, a, RunEvents(m1, ixs[1..]), v, GiftOf(m, ixs[0], v), RunGifts(m1, ixs[1..], v));
    }
  }

  // ---- solvency ----

  // What account `v` has to hold for the resting orders: the base vault the sizes of the asks, the
  // quote vault price times size of the bids.
  ghost function Obligation(m: Market, v: Pubkey): nat
    requires Sound(m)
  {
    (if v == m.baseVault then SizeTotal(StateEntries(m.asks)) else 0) + (if v == m.quoteVault then ValueTotal(StateEntries(m.bids)) else 0)
  }

  lemma ObligationIs(m: Market, v: Pubkey)
    requires Sound(m)
    ensures Obligation(m, v) == (if v == m.baseVault then Escrowed(m, Ask) else 0) + (if v == m.quoteVault then Escrowed(m, Bid) else 0)
  {
    hide GoodBook, StateEntries, SizeTotal, ValueTotal, TotalEscrow, VaultOk;
    OneBook(m, Ask);
    OneBook(m, Bid);
    TotalIs(StateEntries(m.asks));
    TotalIs(StateEntries(m.bids));
  }

  // A vault's surplus over its obligation changes by the gifts alone.
  lemma SurplusIsGifts(m: Market, ixs: seq<MarketIx>, v: Pubkey)
    requires Sound(m) && IsVault(m, v)
    ensures var m' := RunMarket(m, ixs);
            && Sound(m') && SameTerms(m, m')
            && Balance(m'.tokens, v) - Obligation(m', v) == Balance(m.tokens, v) - Obligation(m, v) + RunGifts(m, ixs, v)
  {
    hide Sound, Balance, Escrowed, Obligation, RunMarket, RunEvents, RunGifts, Locks, Releases, EscrowFor;
    RunAccounted(m, ixs, v);
    ObligationIs(m, v);
    ObligationIs(RunMarket(m, ixs), v);
  }

  lemma CleanIsEmpty(book: Pubkey, side: Side, s: State, root: nat)
    requires Valid(s) && CleanBook(s, root) == None
    ensures GoodBook(book, side, s) && TotalEscrow(side, StateEntries(s)) == 0
    ensures forall key :: EscrowAt(side, Contents(s), key) == 0
  {
    StateSorted(s);
    CleanEntries(s, root);
    hide Valid, StateEntries, Contents, EntriesIn, CleanBook;
    TotalOfNothing(side, StateEntries(s));
    forall key ensures EscrowAt(side, Contents(s), key) == 0 {
      if key in Contents(s) {
        assert Entry(key, Contents(s)[key]) in StateEntries(s);
      }
    }
  }

  lemma CleanEntries(s: State, root: nat)
    requires Valid(s) && CleanBook(s, root) == None
    ensures forall e | e in StateEntries(s) :: Formed(e.val) && SizeOf(e.val) == 0
  {
    if s.height > 0 {
      assert Represents(s, TreeOf(s), 0);
    }
  }

  // Init accepts a market only when nothing rests in it.
  lemma InitSound(m: Market, askRoot: nat, bidRoot: nat)
    requires Valid(m.asks) && Valid(m.bids) && InitMarket(m, askRoot, bidRoot).Ok?
    ensures InitMarket(m, askRoot, bidRoot).value == m && Sound(m)
    ensures forall side :: Escrowed(m, side) == 0
    ensures forall side, key :: EscrowFor(m, side, key) == 0
  {
    hide Valid, StateEntries, Contents, CleanBook, VaultOk, GoodBook, TotalEscrow, EscrowAt;
    CleanIsEmpty(m.book, Ask, m.asks, askRoot);
    CleanIsEmpty(m.book, Bid, m.bids, bidRoot);
  }

  // Whatever happens after Init, in any order, each vault holds what the resting orders are owed
  // from it; and exactly that, beyond what it held at first and was given.
  lemma AlwaysSolvent(m: Market, askRoot: nat, bidRoot: nat, ixs: seq<MarketIx>, v: Pubkey)
    requires Valid(m.asks) && Valid(m.bids) && InitMarket(m, askRoot, bidRoot).Ok? && Sound(m) && IsVault(m, v)
    ensures var m' := RunMarket(m, ixs);
            && Sound(m') && Balance(m'.tokens, v) >= Obligation(m', v)
            && Balance(m'.tokens, v) == Obligation(m', v) + Balance(m.tokens, v) + RunGifts(m, ixs, v)
  {
    hide Sound, Balance, Escrowed, Obligation, RunMarket, RunGifts, Valid, InitMarket;
    InitSound(m, askRoot, bidRoot);
    ObligationIs(m, v);
    SurplusIsGifts(m, ixs, v);
  }

  // Nobody pays in from outside, and no taker has itself paid into the vault.
  predicate NoGift(ix: MarketIx, v: Pubkey) {
    !ix.External? && (ix.IxMatch? ==> ix.take.recv != v)
  }

  lemma {:induction false} NoGifts(m: Market, ixs: seq<MarketIx>, v: Pubkey)
    requires Sound(m) && forall i | 0 <= i < |ixs| :: NoGift(ixs[i], v)
    ensures RunGifts(m, ixs, v) == 0
    decreases |ixs|
  {
    hide Sound, ShapedBooks, FormedBook, ExecMarket, EventsOf;
    if ixs != [] {
      NextSound(m, ixs[0]);
      NoGifts(ExecMarket(m, ixs[0]), ixs[1..], v);
    }
  }

  // ---- per order ----

  // Over any history of fills and cancels, what one order's escrow pays out plus what it still
  // holds is exactly what was escrowed for it; once it is gone, all of it has been paid out.
  lemma OrderConserved(m: Market, askRoot: nat, bidRoot: nat, ixs: seq<MarketIx>, side: Side, key: Key)
    requires Valid(m.asks) && Valid(m.bids) && InitMarket(m, askRoot, bidRoot).Ok? && Sound(m)
    ensures var m' := RunMarket(m, ixs);
            && Sound(m')
            && EscrowFor(m', side, key) + ReleasesFor(RunEvents(m, ixs), side, key) == LocksFor(RunEvents(m, ixs), side, key)
            && (key !in OrdersOf(m', side) ==> ReleasesFor(RunEvents(m, ixs), side, key) == LocksFor(RunEvents(m, ixs), side, key))
  {
    hide Sound, Balance, Escrowed, RunMarket, RunEvents, Locks, Releases, LocksFor, ReleasesFor, Valid, InitMarket, Contents;
    InitSound(m, askRoot, bidRoot);
    RunAccounted(m, ixs, m.baseVault);
  }
}
