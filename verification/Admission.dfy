// Exactly when the order book accepts a placement or a cancel. On a solvent market a maker can
// always get out what an order still holds.
module Admission {
  import opened Base
  import opened Bytes
  import opened Shapes
  import opened Engine
  import opened Represent
  import opened MapModel
  import opened InsertPlanned
  import opened HotTheorems
  import opened Runs
  import opened OrderKeys
  import opened Tokens
  import opened Orders
  import opened Markets
  import opened Books
  import opened Solvency
  import opened MarketRuns
  import Planner
  import Settlement

  // Each vault holds what the resting orders are owed from it (MarketRuns.AlwaysSolvent: true
  // after every run).
  ghost predicate Solvent(m: Market)
    requires Sound(m)
  {
    Balance(m.tokens, m.baseVault) >= Obligation(m, m.baseVault) && Balance(m.tokens, m.quoteVault) >= Obligation(m, m.quoteVault)
  }

  lemma SolventAfterRun(m: Market, askRoot: nat, bidRoot: nat, ixs: seq<MarketIx>)
    requires Valid(m.asks) && Valid(m.bids) && InitMarket(m, askRoot, bidRoot).Ok? && Sound(m)
    ensures Sound(RunMarket(m, ixs)) && ShapedBooks(RunMarket(m, ixs)) && Solvent(RunMarket(m, ixs))
  {
    hide Sound, Balance, Obligation, RunMarket, RunGifts, Valid, InitMarket, ShapedBooks;
    AlwaysSolvent(m, askRoot, bidRoot, ixs, m.baseVault);
    AlwaysSolvent(m, askRoot, bidRoot, ixs, m.quoteVault);
    SurplusIsGifts(m, ixs, m.baseVault);
    Settlement.SoundShaped(RunMarket(m, ixs));
  }

  lemma TransferIff(l: Ledger, mv: Move)
    ensures Transfer(l, mv).Ok? <==>
            && mv.src in l && mv.dst in l && l[mv.src].owner == mv.authority && l[mv.src].mint == l[mv.dst].mint
            && l[mv.src].amount >= mv.amount && (mv.src == mv.dst || l[mv.dst].amount + mv.amount <= U64_MAX)
  {
  }

  // ---- cancelling ----

  lemma {:induction false} OrderThere(es: seq<Entry>, key: Key, v: Val)
    requires Entry(key, v) in es && Formed(v) && forall e | e in es && e.key == key :: e.val == v
    ensures OrderIn(es, key) == Some((SizeOf(v), MakerOf(v)))
  {
    if es[0].key != key {
      OrderThere(es[1..], key, v);
    } else {
      assert es[0] in es;
    }
  }

  // A leaf reached by the search path of a resting order's key shows that order.
  lemma LeafShows(s: State, rq: CancelRq, book: Pubkey)
    requires GoodBook(book, rq.side, s) && AllShaped(s.nodes) && rq.key in Contents(s) && rq.path == SearchPath(s, rq.key)
    ensures |rq.path| > 0 && Formed(Contents(s)[rq.key])
    ensures OrderIn(LeafRead(s, rq), rq.key) == Some((SizeOf(Contents(s)[rq.key]), MakerOf(Contents(s)[rq.key])))
    ensures Apply(s, IxDeleteFast(rq.key, rq.path)).Ok?
  {
    hide Contents, StateEntries, AllShaped, FastLeaf, SearchPath, LeafOf, AllGood, Apply, OrderIn, Represents;
    KeyNeedsTree(s, rq.key);
    PathSound(s, rq.path, rq.key);
    GoodIsFormed(book, rq.side, s);
    LeafSorted(s, rq.key);
    DeleteTaken(s, rq.key, rq.path);
    LeafReadIs(s, rq);
    OrderThere(LeafRead(s, rq), rq.key, Contents(s)[rq.key]);
  }

  lemma KeyNeedsTree(s: State, key: Key)
    requires Valid(s) && key in Contents(s)
    ensures s.height > 0
  {
  }

  lemma DeleteTaken(s: State, key: Key, path: seq<nat>)
    requires Valid(s) && AllShaped(s.nodes) && s.height > 0 && path == SearchPath(s, key)
    ensures Apply(s, IxDeleteFast(key, path)).Ok?
  {
    hide Valid, AllShaped, FastLeaf, SearchPath, LeafOf, DeleteFast, Contents, StateEntries;
    HeightCapped(s);
    PathSound(s, path, key);
    DeleteFastCorrect(s, key, path);
  }

  lemma HeightCapped(s: State)
    requires Valid(s)
    ensures s.height <= MAX_TREE_HEIGHT
  {
  }

  // What one order holds is part of what its vault owes.
  lemma {:induction false} PartOfTotal(side: Side, es: seq<Entry>, e: Entry)
    requires e in es
    ensures EscrowOf(side, e.key, e.val) <= TotalEscrow(side, es)
  {
    hide EscrowOf;
    if es[0] != e {
      PartOfTotal(side, es[1..], e);
    }
  }

  lemma VaultCovers(m: Market, side: Side, key: Key)
    requires Sound(m) && Solvent(m) && key in OrdersOf(m, side)
    ensures Balance(m.tokens, m.Vault(side)) >= EscrowFor(m, side, key)
  {
    hide Sound, Balance, Obligation, EscrowFor, Escrowed, OrdersOf;
    ObligationIs(m, m.Vault(side));
    OneOfAll(m, side, key);
  }

  lemma OneOfAll(m: Market, side: Side, key: Key)
    requires Sound(m) && key in OrdersOf(m, side)
    ensures EscrowFor(m, side, key) <= Escrowed(m, side)
  {
    OneBook(m, side);
    hide GoodBook, VaultOk, EntriesIn, TotalEscrow;
    StateSorted(m.Book(side));
    var e := Entry(key, OrdersOf(m, side)[key]);
    assert e in StateEntries(m.Book(side));
    hide StateEntries, Contents;
    PartOfTotal(side, StateEntries(m.Book(side)), e);
  }

  lemma CancelNeeds(m: Market, rq: CancelRq)
    requires Sound(m) && ShapedBooks(m) && Cancel(m, rq).Ok?
    ensures rq.maker != m.book && rq.key in OrdersOf(m, rq.side) && rq.path == SearchPath(m.Book(rq.side), rq.key)
    ensures Formed(OrdersOf(m, rq.side)[rq.key]) && MakerOf(OrdersOf(m, rq.side)[rq.key]) == rq.maker
    ensures OwnerOf(m.tokens, rq.dst) == Some(rq.maker) && MintOf(m.tokens, rq.dst) == Some(m.Mint(rq.side))
    ensures Balance(m.tokens, rq.dst) + EscrowFor(m, rq.side, rq.key) <= U64_MAX
  {
    hide GoodBook, AllShaped, Apply, LeafRead, OrderIn, SearchPath, Contents, VaultOk, Cancel, Transfer, OwnerOf, MintOf, Balance;
    var m' := Cancel(m, rq).value;
    OneBook(m, rq.side);
    CancelReadsOrder(m, rq);
    var s, v := m.Book(rq.side), Contents(m.Book(rq.side))[rq.key];
    CancelMakes(m, rq, m', SizeOf(v));
    FastLeafOfDelete(s, rq.key, rq.path);
    hide LeafOf, FastLeaf;
    PathSound(s, rq.path, rq.key);
    var mv := Move(m.Vault(rq.side), rq.dst, m.book, Escrow(rq.side, PriceAt(rq.side, rq.key), SizeOf(v)));
    RefundFits(m, rq, mv);
  }

  lemma RefundFits(m: Market, rq: CancelRq, mv: Move)
    requires VaultOk(m.tokens, m.baseVault, m.baseMint, m.book) && VaultOk(m.tokens, m.quoteVault, m.quoteMint, m.book)
    requires mv.src == m.Vault(rq.side) && mv.dst == rq.dst && mv.authority == m.book && Transfer(m.tokens, mv).Ok?
    requires rq.maker != m.book && OwnerOf(m.tokens, rq.dst) == Some(rq.maker)
    ensures MintOf(m.tokens, rq.dst) == Some(m.Mint(rq.side)) && Balance(m.tokens, rq.dst) + mv.amount <= U64_MAX
  {
    TransferIff(m.tokens, mv);
  }

  lemma RefundGoes(m: Market, rq: CancelRq, mv: Move)
    requires VaultOk(m.tokens, m.baseVault, m.baseMint, m.book) && VaultOk(m.tokens, m.quoteVault, m.quoteMint, m.book)
    requires mv.src == m.Vault(rq.side) && mv.dst == rq.dst && mv.authority == m.book
    requires rq.maker != m.book && OwnerOf(m.tokens, rq.dst) == Some(rq.maker) && MintOf(m.tokens, rq.dst) == Some(m.Mint(rq.side))
    requires Balance(m.tokens, rq.dst) + mv.amount <= U64_MAX && Balance(m.tokens, m.Vault(rq.side)) >= mv.amount
    ensures Transfer(m.tokens, mv).Ok? && CheckMint(m.tokens, rq.dst, m.Mint(rq.side)) == None
  {
    TransferIff(m.tokens, mv);
  }

  lemma CancelTaken(m: Market, rq: CancelRq)
    requires Sound(m) && ShapedBooks(m) && Solvent(m)
    requires rq.maker != m.book && rq.key in OrdersOf(m, rq.side) && rq.path == SearchPath(m.Book(rq.side), rq.key)
    requires Formed(OrdersOf(m, rq.side)[rq.key]) && MakerOf(OrdersOf(m, rq.side)[rq.key]) == rq.maker
    requires OwnerOf(m.tokens, rq.dst) == Some(rq.maker) && MintOf(m.tokens, rq.dst) == Some(m.Mint(rq.side))
    requires Balance(m.tokens, rq.dst) + EscrowFor(m, rq.side, rq.key) <= U64_MAX
    ensures Cancel(m, rq).Ok?
  {
    hide GoodBook, AllShaped, Apply, LeafRead, OrderIn, SearchPath, Contents, VaultOk, Transfer, OwnerOf, MintOf,
      Balance, Solvent, CheckMint, SizeOf, MakerOf;
    var s, v := m.Book(rq.side), OrdersOf(m, rq.side)[rq.key];
    OneBook(m, rq.side);
    LeafShows(s, rq, m.book);
    VaultCovers(m, rq.side, rq.key);
    ProductFits(m, rq.side, rq.key);
    var amount := Escrow(rq.side, PriceAt(rq.side, rq.key), SizeOf(v));
    RefundGoes(m, rq, Move(m.Vault(rq.side), rq.dst, m.book, amount));
  }

  lemma ProductFits(m: Market, side: Side, key: Key)
    requires Sound(m) && key in OrdersOf(m, side) && Formed(OrdersOf(m, side)[key])
    ensures PriceAt(side, key) * SizeOf(OrdersOf(m, side)[key]) <= U64_MAX
  {
    OneBook(m, side);
    hide GoodBook, VaultOk, SizeOf, PriceAt;
    GoodIsFormed(m.book, side, m.Book(side));
  }

  // The order's own maker cancels it, to an account of its own in the right mint that has room.
  ghost predicate CancelFits(m: Market, rq: CancelRq)
    requires Sound(m)
  {
    && rq.maker != m.book
    && rq.key in OrdersOf(m, rq.side) && rq.path == SearchPath(m.Book(rq.side), rq.key)
    && (var v := OrdersOf(m, rq.side)[rq.key];
        && |v| == 40 && v[..32] == rq.maker
        && OwnerOf(m.tokens, rq.dst) == Some(rq.maker) && MintOf(m.tokens, rq.dst) == Some(if rq.side == Ask then m.baseMint else m.quoteMint)
        && Balance(m.tokens, rq.dst) + (if rq.side == Ask then Num(v[32..]) else PriceAt(Bid, rq.key) * Num(v[32..])) <= U64_MAX)
  }

  lemma CancelFitsIs(m: Market, rq: CancelRq)
    requires Sound(m)
    ensures CancelFits(m, rq) <==>
            && rq.maker != m.book
            && rq.key in OrdersOf(m, rq.side) && rq.path == SearchPath(m.Book(rq.side), rq.key)
            && Formed(OrdersOf(m, rq.side)[rq.key]) && MakerOf(OrdersOf(m, rq.side)[rq.key]) == rq.maker
            && OwnerOf(m.tokens, rq.dst) == Some(rq.maker) && MintOf(m.tokens, rq.dst) == Some(m.Mint(rq.side))
            && Balance(m.tokens, rq.dst) + EscrowFor(m, rq.side, rq.key) <= U64_MAX
  {
    hide GoodBook, VaultOk, Num, PriceAt, Contents, SearchPath, Balance, OwnerOf, MintOf;
    OneBook(m, rq.side);
  }

  // Cancel is accepted exactly when the signer is the order's own maker, on the order's search
  // path, with an account of its own in the right mint that has room for the refund. Nothing
  // else can keep a maker from its escrow: neither the vault's balance nor an overflow.
  lemma CancelIff(m: Market, rq: CancelRq)
    requires Sound(m) && ShapedBooks(m) && Solvent(m)
    ensures Cancel(m, rq).Ok? <==> CancelFits(m, rq)
  {
    hide Sound, ShapedBooks, Solvent, Cancel, CancelFits, OrdersOf, EscrowFor, Formed, MakerOf, OwnerOf, MintOf, Balance, SearchPath;
    CancelFitsIs(m, rq);
    if Cancel(m, rq).Ok? {
      CancelNeeds(m, rq);
    }
    if CancelFits(m, rq) {
      CancelTaken(m, rq);
    }
  }

  // ---- placing ----

  // The maker's side of a placement is in order.
  predicate TermsFit(m: Market, o: Terms) {
    var escrow := if o.side == Ask then o.size else o.price * o.size;
    && o.maker != m.book && m.minSize <= o.size && 0 < o.price && o.price * o.size <= U64_MAX
    && OwnerOf(m.tokens, o.src) == Some(o.maker) && MintOf(m.tokens, o.src) == Some(if o.side == Ask then m.baseMint else m.quoteMint)
    && Balance(m.tokens, o.src) >= escrow
    && Balance(m.tokens, if o.side == Ask then m.baseVault else m.quoteVault) + escrow <= U64_MAX
  }

  lemma AdmitIff(m: Market, o: Terms)
    requires VaultOk(m.tokens, m.baseVault, m.baseMint, m.book) && VaultOk(m.tokens, m.quoteVault, m.quoteMint, m.book)
    ensures Admit(m, o).Ok? <==> TermsFit(m, o)
  {
    if o.price * o.size <= U64_MAX {
      TransferIff(m.tokens, Move(o.src, m.Vault(o.side), o.maker, Escrow(o.side, o.price, o.size)));
    }
  }

  // Place is accepted exactly when the terms fit, the path is the search path of the key that holds
  // the order's fields, that key is free, and its leaf has room.
  lemma PlaceIff(m: Market, o: Terms, path: seq<nat>, key: Key)
    requires Sound(m) && ShapedBooks(m) && KeyReads(o, key)
    ensures Place(m, o, path).Ok? <==>
            && TermsFit(m, o)
            && m.Book(o.side).height > 0 && path == SearchPath(m.Book(o.side), key)
            && key !in OrdersOf(m, o.side)
            && LeafOf(m.Book(o.side), key).TLeaf?
            && |LeafOf(m.Book(o.side), key).es| < m.Book(o.side).fanout
  {
    hide GoodBook, VaultOk, Admit, TermsFit, Contents, SearchPath, LeafOf, InsertFast, OrderEntry, StateEntries, KeyReads;
    KeyReadsOnly(o, key);
    var s := m.Book(o.side);
    OneBook(m, o.side);
    AdmitIff(m, o);
    InsertFastCorrect(s, 0, OrderEntry(o), path);
    HeightCapped(s);
    if s.height > 0 {
      PathSound(s, path, OrderEntry(o).key);
    }
  }

  lemma ColdAccounts(s: State, e: Entry)
    requires Valid(s)
    ensures Accounts(IxInsert(e, SearchPath(s, e.key), NextSpares(s.highWater, s.height + 2))) == 2 * s.height + 6
  {
    hide Valid, SearchPath;
    if s.height == 0 {
      Planner.NoPath(s, e.key);
    } else {
      Planner.PathNotEmpty(s, e.key);
    }
  }

  // With the planned path and spares, PlaceCold is accepted exactly when the terms fit, the key that
  // holds the order's fields is free, and the accounts, the signing book among them, fit into one
  // instruction: the leaf being full, or its whole path, is no obstacle. A plain Insert, which the
  // book does not sign, fits up to height 17 (Planner.InsertPlanLands).
  lemma PlaceColdIff(m: Market, o: Terms, key: Key)
    requires Sound(m) && ShapedBooks(m) && KeyReads(o, key)
    ensures var s := m.Book(o.side);
            PlaceCold(m, o, SearchPath(s, key), NextSpares(s.highWater, s.height + 2)).Ok? <==>
            TermsFit(m, o) && s.height <= 16 && key !in OrdersOf(m, o.side)
  {
    hide GoodBook, VaultOk, Admit, TermsFit, Contents, SearchPath, Apply, OrderEntry, NextSpares, Accounts, KeyReads;
    KeyReadsOnly(o, key);
    OneBook(m, o.side);
    AdmitIff(m, o);
    ColdAccounts(m.Book(o.side), OrderEntry(o));
    Planner.InsertPlanLands(m.Book(o.side), OrderEntry(o));
  }
}
