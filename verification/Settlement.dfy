// What an accepted match does to the book and to every token account.
module Settlement {
  import opened Base
  import opened Shapes
  import opened Engine
  import opened Represent
  import opened MapModel
  import opened Runs
  import opened OrderKeys
  import opened Tokens
  import opened Orders
  import opened LeafChain
  import opened InsertPlanned
  import opened Scans
  import opened Sweep
  import opened Markets
  import opened Books
  import opened Solvency

  function Other(side: Side): Side {
    if side == Ask then Bid else Ask
  }

  function AfterFill(orders: map<Key, Val>, f: Fill): map<Key, Val> {
    if f.left == 0 then orders - {f.key} else orders[f.key := OrderValue(f.maker, f.left)]
  }

  function AfterFills(orders: map<Key, Val>, fs: seq<Fill>): map<Key, Val>
    decreases |fs|
  {
    if fs == [] then orders else AfterFills(AfterFill(orders, fs[0]), fs[1..])
  }

  // The fill is of an order resting in the book, at its price.
  predicate Resting(orders: map<Key, Val>, side: Side, f: Fill) {
    && f.key in orders && f.price == PriceAt(side, f.key) && f.fill > 0 && f.fill + f.left <= U64_MAX
    && orders[f.key] == OrderValue(f.maker, f.fill + f.left)
  }

  // The transfers of the fills from number j on, in order.
  function MovesOf(m: Market, rq: MatchRq, fs: seq<Fill>, j: nat): seq<Move>
    requires j <= |fs| <= |rq.makers|
    decreases |fs| - j
  {
    if j == |fs| then []
    else (if fs[j].price * fs[j].fill <= U64_MAX then FillMoves(m, rq, fs[j], rq.makers[j]) else []) + MovesOf(m, rq, fs, j + 1)
  }

  function Release(side: Side, f: Fill): Event {
    Released(side, f.key, Escrow(side, f.price, f.fill))
  }

  // ---- what the fills move ----

  // Base and quote that the fills from number j on trade.
  function BaseTraded(fs: seq<Fill>, j: nat): nat
    requires j <= |fs|
    decreases |fs| - j
  {
    if j == |fs| then 0 else fs[j].fill + BaseTraded(fs, j + 1)
  }

  function QuoteTraded(fs: seq<Fill>, j: nat): nat
    requires j <= |fs|
    decreases |fs| - j
  {
    if j == |fs| then 0 else fs[j].price * fs[j].fill + QuoteTraded(fs, j + 1)
  }

  // What those fills pay account `a` as a maker's: quote for an ask, base for a bid.
  function PaidTo(rq: MatchRq, fs: seq<Fill>, j: nat, a: Pubkey): nat
    requires j <= |fs| <= |rq.makers|
    decreases |fs| - j
  {
    if j == |fs| then 0
    else
      (if rq.makers[j] != a then 0 else if rq.side == Ask then fs[j].price * fs[j].fill else fs[j].fill)
      + PaidTo(rq, fs, j + 1, a)
  }

  lemma FillFlows(m: Market, rq: MatchRq, f: Fill, maker: Pubkey, a: Pubkey)
    requires f.price * f.fill <= U64_MAX
    ensures Into(FillMoves(m, rq, f, maker), a) ==
            (if a != rq.recv then 0 else if rq.side == Ask then f.fill else f.price * f.fill)
            + (if a != maker then 0 else if rq.side == Ask then f.price * f.fill else f.fill)
    ensures OutOf(FillMoves(m, rq, f, maker), a) ==
            (if a != (if rq.side == Ask then m.baseVault else m.quoteVault) then 0 else if rq.side == Ask then f.fill else f.price * f.fill)
            + (if a != rq.pay then 0 else if rq.side == Ask then f.price * f.fill else f.fill)
  {
    var mvs := FillMoves(m, rq, f, maker);
    assert mvs[1..] == [mvs[1]] && [mvs[1]][1..] == [];
    assert Into(mvs[1..], a) == if mvs[1].dst == a then mvs[1].amount else 0;
    assert OutOf(mvs[1..], a) == if mvs[1].src == a then mvs[1].amount else 0;
  }

  lemma FillFlowsAll(m: Market, rq: MatchRq, f: Fill, maker: Pubkey)
    requires f.price * f.fill <= U64_MAX
    ensures forall a ::
              Into(FillMoves(m, rq, f, maker), a) - OutOf(FillMoves(m, rq, f, maker), a) ==
              (if a != rq.recv then 0 else if rq.side == Ask then f.fill else f.price * f.fill)
              + (if a != maker then 0 else if rq.side == Ask then f.price * f.fill else f.fill)
              - (if a != (if rq.side == Ask then m.baseVault else m.quoteVault) then 0 else if rq.side == Ask then f.fill else f.price * f.fill)
              - (if a != rq.pay then 0 else if rq.side == Ask then f.price * f.fill else f.fill)
  {
    hide FillMoves;
    forall a
      ensures Into(FillMoves(m, rq, f, maker), a) - OutOf(FillMoves(m, rq, f, maker), a) ==
              (if a != rq.recv then 0 else if rq.side == Ask then f.fill else f.price * f.fill)
              + (if a != maker then 0 else if rq.side == Ask then f.price * f.fill else f.fill)
              - (if a != (if rq.side == Ask then m.baseVault else m.quoteVault) then 0 else if rq.side == Ask then f.fill else f.price * f.fill)
              - (if a != rq.pay then 0 else if rq.side == Ask then f.price * f.fill else f.fill)
    {
      FillFlows(m, rq, f, maker, a);
    }
  }

  lemma {:induction false} MatchFlows(m: Market, rq: MatchRq, fs: seq<Fill>, j: nat, a: Pubkey)
    requires j <= |fs| <= |rq.makers| && forall i | j <= i < |fs| :: fs[i].price * fs[i].fill <= U64_MAX
    ensures Into(MovesOf(m, rq, fs, j), a) ==
            (if a != rq.recv then 0 else if rq.side == Ask then BaseTraded(fs, j) else QuoteTraded(fs, j)) + PaidTo(rq, fs, j, a)
    ensures OutOf(MovesOf(m, rq, fs, j), a) ==
            (if a != (if rq.side == Ask then m.baseVault else m.quoteVault) then 0
             else if rq.side == Ask then BaseTraded(fs, j) else QuoteTraded(fs, j))
            + (if a != rq.pay then 0 else if rq.side == Ask then QuoteTraded(fs, j) else BaseTraded(fs, j))
    decreases |fs| - j
  {
    hide FillMoves;
    if j < |fs| {
      MatchFlows(m, rq, fs, j + 1, a);
      FillFlows(m, rq, fs[j], rq.makers[j], a);
      FlowConcat(FillMoves(m, rq, fs[j], rq.makers[j]), MovesOf(m, rq, fs, j + 1), a);
    }
  }

  // ---- one fill ----

  lemma RestingValue(book: Pubkey, side: Side, orders: map<Key, Val>, f: Fill)
    requires Resting(orders, side, f) && GoodOrder(book, side, Entry(f.key, orders[f.key]))
    ensures f.maker != book && f.price * f.fill <= U64_MAX
    ensures EscrowOf(side, f.key, orders[f.key]) == Escrow(side, f.price, f.left) + Escrow(side, f.price, f.fill)
    ensures EscrowOf(side, f.key, OrderValue(f.maker, f.left)) == Escrow(side, f.price, f.left)
    ensures GoodOrder(book, side, Entry(f.key, OrderValue(f.maker, f.left)))
  {
    hide OrderValue, MakerOf, SizeOf, PriceAt;
    OrderValueFields(f.maker, f.fill + f.left);
    OrderValueFields(f.maker, f.left);
    EscrowSplits(side, f.price, f.left, f.fill);
    PartFits(f.price, f.fill, f.left);
  }

  lemma PartFits(p: nat, a: nat, b: nat)
    ensures p * (a + b) == p * a + p * b && p * a <= p * (a + b) && p * b <= p * (a + b)
  {
  }

  lemma FillBook(m: Market, side: Side, f: Fill, path: seq<nat>, s': State)
    requires Sound(m) && ShapedBooks(m) && Resting(OrdersOf(m, side), side, f)
    requires Apply(m.Book(side), FillIx(f, path)) == Ok(s')
    ensures GoodBook(m.book, side, s') && Contents(s') == AfterFill(OrdersOf(m, side), f)
    ensures EscrowChange(side, m.Book(side), s', f.key, 0, Escrow(side, f.price, f.fill))
    ensures f.maker != m.book && f.price * f.fill <= U64_MAX
  {
    hide GoodBook, Apply, EscrowChange, Contents, AllShaped, Resting, GoodOrder, OrderValue, EscrowOf, VaultOk, Escrow;
    var s := m.Book(side);
    OneBook(m, side);
    assert Valid(s);
    GoodIsFormed(m.book, side, s);
    IsResting(OrdersOf(m, side), side, f);
    RestingValue(m.book, side, Contents(s), f);
    EscrowSplits(side, f.price, 0, 0);
    if f.left == 0 {
      OrderRemoved(m.book, side, s, f.key, path);
    } else {
      OrderShrunk(m.book, side, s, Entry(f.key, OrderValue(f.maker, f.left)), path, Escrow(side, f.price, f.fill));
    }
  }

  lemma IsResting(orders: map<Key, Val>, side: Side, f: Fill)
    requires Resting(orders, side, f)
    ensures f.key in orders
  {
  }

  // The two transfers of a fill, seen from a vault.
  lemma FillTransfers(m: Market, rq: MatchRq, f: Fill, maker: Pubkey, l': Ledger)
    requires VaultOk(m.tokens, m.baseVault, m.baseMint, m.book) && VaultOk(m.tokens, m.quoteVault, m.quoteMint, m.book)
    requires f.price * f.fill <= U64_MAX && f.maker != m.book && rq.taker != m.book
    requires OwnerOf(m.tokens, maker) == Some(f.maker)
    requires TransferAll(m.tokens, FillMoves(m, rq, f, maker)) == Ok(l')
    ensures VaultOk(l', m.baseVault, m.baseMint, m.book) && VaultOk(l', m.quoteVault, m.quoteMint, m.book)
    ensures SameHolders(m.tokens, l')
    ensures forall v | IsVault(m, v) ::
              Moved(m, l', [Release(rq.side, f)], v, if rq.recv == v then Escrow(rq.side, f.price, f.fill) else 0)
  {
    hide Transfer, Balance, Moved, Escrow, Counter;
    var mvs := FillMoves(m, rq, f, maker);
    TransferPair(m.tokens, mvs[0], mvs[1]);
    var l1 := Transfer(m.tokens, mvs[0]).value;
    TransferMoves(m.tokens, mvs[0]);
    TransferMoves(l1, mvs[1]);
    hide FillMoves, TransferAll;
    ReleaseMoves(m, l', Release(rq.side, f), rq.recv);
  }

  lemma SettleOneMakes(m: Market, rq: MatchRq, f: Fill, maker: Pubkey, path: seq<nat>, m': Market)
    requires ShapedBooks(m) && SettleOne(m, rq, f, maker, path) == Ok(m')
    ensures f.price * f.fill <= U64_MAX && OwnerOf(m.tokens, maker) == Some(f.maker) && PaysMaker(m, rq, f, maker)
    ensures TransferAll(m.tokens, FillMoves(m, rq, f, maker)) == Ok(m'.tokens)
    ensures Apply(m.Book(rq.side), FillIx(f, path)) == Ok(m'.Book(rq.side))
    ensures SameTerms(m, m') && m'.Book(Other(rq.side)) == m.Book(Other(rq.side))
  {
    hide AllShaped, TransferAll, Apply, OwnerOf, MintOf, OrderValue, FillMoves;
  }

  // One fill keeps the market sound and moves what the order loses out of the vault.
  lemma SettleOneStep(m: Market, rq: MatchRq, f: Fill, maker: Pubkey, path: seq<nat>, m': Market)
    requires Sound(m) && ShapedBooks(m) && rq.taker != m.book && Resting(OrdersOf(m, rq.side), rq.side, f)
    requires SettleOne(m, rq, f, maker, path) == Ok(m')
    ensures ShapedBooks(m') && KeepsBooks(m, m', [Release(rq.side, f)])
    ensures OrdersOf(m', rq.side) == AfterFill(OrdersOf(m, rq.side), f)
    ensures m'.Book(Other(rq.side)) == m.Book(Other(rq.side))
    ensures f.price * f.fill <= U64_MAX && TransferAll(m.tokens, FillMoves(m, rq, f, maker)) == Ok(m'.tokens)
    ensures PaysMaker(m, rq, f, maker)
    ensures forall v | IsVault(m, v) ::
              Moved(m, m'.tokens, [Release(rq.side, f)], v, if rq.recv == v then Escrow(rq.side, f.price, f.fill) else 0)
  {
    hide GoodBook, Apply, EscrowChange, Contents, AllShaped, Accounted, TransferAll, Balance, Moved, VaultOk, Resting,
      OrderValue, AfterFill, FillMoves, SettleOne, Escrow, OwnerOf, MintOf, PaysMaker;
    SettleOneMakes(m, rq, f, maker, path, m');
    FillBook(m, rq.side, f, path, m'.Book(rq.side));
    FillTransfers(m, rq, f, maker, m'.tokens);
    OneBook(m, Other(rq.side));
    BothBooks(m, m', rq.side);
    EventReleases(m, m', Release(rq.side, f));
    SoundShaped(m');
  }

  // What one fill comes to: the order shrinks or goes, the other side of the book stays, and of all
  // accounts only those of the two transfers change, by just these amounts.
  ghost predicate FillSettled(m: Market, m': Market, rq: MatchRq, f: Fill, maker: Pubkey)
    requires Sound(m)
  {
    && KeepsBooks(m, m', [Release(rq.side, f)])
    && OrdersOf(m', rq.side) == AfterFill(OrdersOf(m, rq.side), f) && m'.Book(Other(rq.side)) == m.Book(Other(rq.side))
    && PaysMaker(m, rq, f, maker) && f.price * f.fill <= U64_MAX
    && forall a ::
         Balance(m'.tokens, a) == Balance(m.tokens, a)
           + (if a != rq.recv then 0 else if rq.side == Ask then f.fill else f.price * f.fill)
           + (if a != maker then 0 else if rq.side == Ask then f.price * f.fill else f.fill)
           - (if a != (if rq.side == Ask then m.baseVault else m.quoteVault) then 0 else if rq.side == Ask then f.fill else f.price * f.fill)
           - (if a != rq.pay then 0 else if rq.side == Ask then f.price * f.fill else f.fill)
  }

  lemma SettleOneSettles(m: Market, rq: MatchRq, f: Fill, maker: Pubkey, path: seq<nat>)
    requires ShapedBooks(m)
    ensures Sound(m) && rq.taker != m.book && Resting(OrdersOf(m, rq.side), rq.side, f) && SettleOne(m, rq, f, maker, path).Ok? ==>
            FillSettled(m, SettleOne(m, rq, f, maker, path).value, rq, f, maker)
  {
    hide Sound, ShapedBooks, SettleOne, Resting, OrdersOf, KeepsBooks, AfterFill, PaysMaker, Balance, FillMoves, TransferAll, Moved;
    if Sound(m) && rq.taker != m.book && Resting(OrdersOf(m, rq.side), rq.side, f) && SettleOne(m, rq, f, maker, path).Ok? {
      SettleOneStep(m, rq, f, maker, path, SettleOne(m, rq, f, maker, path).value);
      AllMoved(m.tokens, FillMoves(m, rq, f, maker));
      FillFlowsAll(m, rq, f, maker);
    }
  }

  lemma BothBooks(m: Market, m': Market, side: Side)
    requires SameTerms(m, m') && GoodBook(m.book, side, m'.Book(side)) && GoodBook(m.book, Other(side), m'.Book(Other(side)))
    ensures GoodBook(m'.book, Ask, m'.asks) && GoodBook(m'.book, Bid, m'.bids)
  {
    hide GoodBook;
  }

  lemma SoundShaped(m: Market)
    requires Sound(m)
    ensures ShapedBooks(m) && FormedBook(m.asks) && FormedBook(m.bids)
  {
    hide GoodBook, AllShaped, FormedBook;
    GoodIsFormed(m.book, Ask, m.asks);
    GoodIsFormed(m.book, Bid, m.bids);
  }

  // ---- all fills ----

  lemma KeepsBooksChain(m: Market, m1: Market, m': Market, a: seq<Event>, b: seq<Event>)
    requires Sound(m) && KeepsBooks(m, m1, a) && KeepsBooks(m1, m', b)
    ensures KeepsBooks(m, m', a + b)
  {
    hide Sound, Escrowed, EscrowFor;
    SumsConcat(a, b);
    hide Locks, Releases, LocksFor, ReleasesFor;
  }

  lemma MovedChain(m: Market, m1: Market, l': Ledger, a: seq<Event>, b: seq<Event>, v: Pubkey, x: nat, y: nat)
    requires SameTerms(m, m1) && Moved(m, m1.tokens, a, v, x) && Moved(m1, l', b, v, y)
    ensures Moved(m, l', a + b, v, x + y)
  {
    hide Balance;
    SumsConcat(a, b);
    hide Locks, Releases;
  }

  lemma RestingKept(orders: map<Key, Val>, side: Side, f: Fill, g: Fill)
    requires Resting(orders, side, g) && g.key != f.key
    ensures Resting(AfterFill(orders, f), side, g)
  {
  }

  predicate DistinctKeys(fs: seq<Fill>) {
    forall i, j | 0 <= i < j < |fs| :: fs[i].key != fs[j].key
  }

  // What the matcher's second phase leaves behind, given the first.
  ghost predicate Settled(m: Market, rq: MatchRq, fs: seq<Fill>, j: nat, m': Market)
    requires Sound(m) && j <= |fs| <= |rq.makers|
  {
    && KeepsBooks(m, m', ReleasesOf(rq.side, fs[j..]))
    && OrdersOf(m', rq.side) == AfterFills(OrdersOf(m, rq.side), fs[j..])
    && m'.Book(Other(rq.side)) == m.Book(Other(rq.side))
    && TransferAll(m.tokens, MovesOf(m, rq, fs, j)) == Ok(m'.tokens)
    && (forall v | IsVault(m, v) ::
          Moved(m, m'.tokens, ReleasesOf(rq.side, fs[j..]), v, if rq.recv == v then Releases(ReleasesOf(rq.side, fs[j..]), rq.side) else 0))
    && (forall i | j <= i < |fs| :: fs[i].price * fs[i].fill <= U64_MAX)
    && (forall i | j <= i < |fs| :: PaysMaker(m, rq, fs[i], rq.makers[i]))
  }

  // The account a fill pays is the maker's own, in the right mint.
  predicate PaysMaker(m: Market, rq: MatchRq, f: Fill, maker: Pubkey) {
    OwnerOf(m.tokens, maker) == Some(f.maker) && MintOf(m.tokens, maker) == Some(m.PayMint(rq.side))
  }

  lemma HoldersSame(m: Market, m1: Market, rq: MatchRq, f: Fill, maker: Pubkey)
    requires SameTerms(m, m1) && SameHolders(m.tokens, m1.tokens)
    ensures PaysMaker(m1, rq, f, maker) <==> PaysMaker(m, rq, f, maker)
    ensures OwnerOf(m1.tokens, rq.pay) == OwnerOf(m.tokens, rq.pay)
  {
    assert maker in m.tokens.Keys <==> maker in m1.tokens.Keys;
    assert rq.pay in m.tokens.Keys <==> rq.pay in m1.tokens.Keys;
  }

  lemma NothingSettled(m: Market, rq: MatchRq, fs: seq<Fill>)
    requires Sound(m) && |fs| <= |rq.makers|
    ensures Settled(m, rq, fs, |fs|, m)
  {
    hide Sound, Balance, Escrowed, EscrowFor, OrdersOf;
    assert fs[|fs|..] == [];
  }

  lemma {:induction false} SettleSteps(m: Market, rq: MatchRq, sw: Swept, j: nat, m': Market)
    requires Sound(m) && ShapedBooks(m) && rq.taker != m.book
    requires j <= |sw.fills| == |sw.grps| <= |rq.makers| && Inside(sw.grps, |rq.groups|)
    requires Settle(m, rq, sw, j) == Ok(m') && DistinctKeys(sw.fills)
    requires forall i | j <= i < |sw.fills| :: Resting(OrdersOf(m, rq.side), rq.side, sw.fills[i])
    ensures Settled(m, rq, sw.fills, j, m')
    decreases |sw.fills| - j
  {
    hide Sound, ShapedBooks, SettleOne, Resting, OrdersOf, KeepsBooks, Settled, AfterFill, Moved;
    var fs := sw.fills;
    if j == |fs| {
      NothingSettled(m, rq, fs);
    } else {
      var f, maker, path := fs[j], rq.makers[j], rq.groups[sw.grps[j]];
      var m1 := SettleOne(m, rq, f, maker, path).value;
      SettleOneStep(m, rq, f, maker, path, m1);
      KeepsSound(m, m1, [Release(rq.side, f)]);
      forall i | j < i < |fs| ensures Resting(OrdersOf(m1, rq.side), rq.side, fs[i]) {
        RestingKept(OrdersOf(m, rq.side), rq.side, f, fs[i]);
      }
      SettleSteps(m1, rq, sw, j + 1, m');
      SettledStep(m, rq, fs, j, m1, m');
    }
  }

  lemma KeepsSound(m: Market, m': Market, evs: seq<Event>)
    requires Sound(m) && KeepsBooks(m, m', evs)
    ensures Sound(m') && SameTerms(m, m')
  {
    hide Sound, Accounted;
  }

  lemma MovesAfter(m: Market, m1: Market, rq: MatchRq, fs: seq<Fill>, j: nat)
    requires SameTerms(m, m1) && j <= |fs| <= |rq.makers|
    ensures MovesOf(m1, rq, fs, j) == MovesOf(m, rq, fs, j)
    decreases |fs| - j
  {
    if j < |fs| {
      MovesAfter(m, m1, rq, fs, j + 1);
    }
  }

  lemma SettledStep(m: Market, rq: MatchRq, fs: seq<Fill>, j: nat, m1: Market, m': Market)
    requires Sound(m) && j < |fs| <= |rq.makers| && fs[j].price * fs[j].fill <= U64_MAX && PaysMaker(m, rq, fs[j], rq.makers[j])
    requires KeepsBooks(m, m1, [Release(rq.side, fs[j])]) && OrdersOf(m1, rq.side) == AfterFill(OrdersOf(m, rq.side), fs[j])
    requires m1.Book(Other(rq.side)) == m.Book(Other(rq.side))
    requires TransferAll(m.tokens, FillMoves(m, rq, fs[j], rq.makers[j])) == Ok(m1.tokens)
    requires forall v | IsVault(m, v) ::
               Moved(m, m1.tokens, [Release(rq.side, fs[j])], v, if rq.recv == v then Escrow(rq.side, fs[j].price, fs[j].fill) else 0)
    requires Settled(m1, rq, fs, j + 1, m')
    ensures Settled(m, rq, fs, j, m')
  {
    hide Sound, OrdersOf, KeepsBooks, AfterFill, Moved, Escrow, TransferAll, FillMoves, Escrowed, EscrowFor, Locks,
      Releases, PaysMaker;
    KeepsSound(m, m1, [Release(rq.side, fs[j])]);
    var a, b := [Release(rq.side, fs[j])], ReleasesOf(rq.side, fs[j + 1..]);
    assert fs[j..][1..] == fs[j + 1..] && fs[j..][0] == fs[j];
    assert ReleasesOf(rq.side, fs[j..]) == a + b;
    KeepsBooksChain(m, m1, m', a, b);
    MovesAfter(m, m1, rq, fs, j + 1);
    TransferConcat(m.tokens, FillMoves(m, rq, fs[j], rq.makers[j]), MovesOf(m, rq, fs, j + 1));
    SumsConcat(a, b);
    OneEvent(a[0]);
    AllMoved(m.tokens, FillMoves(m, rq, fs[j], rq.makers[j]));
    forall i | j <= i < |fs| ensures PaysMaker(m, rq, fs[i], rq.makers[i]) {
      if i > j {
        HoldersSame(m, m1, rq, fs[i], rq.makers[i]);
      }
    }
    forall v | IsVault(m, v)
      ensures Moved(m, m'.tokens, a + b, v, if rq.recv == v then Releases(a + b, rq.side) else 0)
    {
      var x, y := if rq.recv == v then Escrow(rq.side, fs[j].price, fs[j].fill) else 0, if rq.recv == v then Releases(b, rq.side) else 0;
      assert IsVault(m1, v);
      MovedChain(m, m1, m'.tokens, a, b, v, x, y);
    }
  }

  // ---- the whole match ----

  lemma {:induction false} OpenSorted(side: Side, limit: U64, es: seq<Entry>)
    requires Sorted(es) && AllFormed(es)
    ensures Sorted(Open(side, limit, es)) && forall e | e in Open(side, limit, es) :: e in es
  {
    hide Sorted, Crosses, AllFormed, Open;
    if es == [] {
      NothingMeant(side, limit, 0, 0);
      NothingSorted();
    } else {
      var rest := es[1..];
      assert es[1..|es|] == rest;
      SortedPart(es, 1, |es|);
      FormedRest(es);
      OpenSorted(side, limit, rest);
      OpenStep(side, limit, es);
      SortedCons(es, Open(side, limit, rest));
    }
  }

  lemma NothingSorted()
    ensures Sorted([])
  {
  }

  lemma SortedCons(es: seq<Entry>, some: seq<Entry>)
    requires Sorted(es) && es != [] && Sorted(some) && forall e | e in some :: e in es[1..]
    ensures Sorted([es[0]] + some)
  {
    forall i | 0 <= i < |some| ensures es[0].key < some[i].key {
      assert some[i] in es[1..];
    }
  }

  // The fills of a sorted part of the book are of distinct orders resting in it.
  lemma FillsRest(book: Pubkey, side: Side, limit: U64, es: seq<Entry>, orders: map<Key, Val>, want: nat, slots: nat)
    requires Sorted(es) && AllFormed(es) && forall e | e in es :: e.key in orders && orders[e.key] == e.val
    ensures AllFormed(Open(side, limit, es))
    ensures var fs := Greedy(side, limit, es, want, slots);
            FillsOf(side, Open(side, limit, es), want, slots, fs) && DistinctKeys(fs) && forall i | 0 <= i < |fs| :: Resting(orders, side, fs[i])
  {
    GreedyMeaning(side, limit, es, want, slots);
    OpenSorted(side, limit, es);
    hide Greedy, Open, Crosses, AllFormed, Resting, Trades, Filled;
    var fs, open := Greedy(side, limit, es, want, slots), Open(side, limit, es);
    forall i | 0 <= i < |fs| ensures Resting(orders, side, fs[i]) {
      assert open[i] in open;
      TradesResting(orders, side, open[i], fs[i]);
    }
    forall i, j | 0 <= i < j < |fs| ensures fs[i].key != fs[j].key {
      assert open[i].key < open[j].key;
      TradesKey(side, open[i], fs[i]);
      TradesKey(side, open[j], fs[j]);
    }
  }

  lemma TradesKey(side: Side, e: Entry, f: Fill)
    requires Trades(side, e, f)
    ensures f.key == e.key
  {
  }

  lemma TradesResting(orders: map<Key, Val>, side: Side, e: Entry, f: Fill)
    requires Trades(side, e, f) && e.key in orders && orders[e.key] == e.val
    ensures Resting(orders, side, f)
  {
    OrderValueOfFields(e.val);
  }

  // The part of the book a taker offers to sweep: as many leaves from the best one as it
  // supplies accounts for.
  ghost function Offered(m: Market, rq: MatchRq): seq<Entry>
    requires Sound(m)
  {
    var ids := Leaves(m.Book(rq.side));
    Gathered(m.Book(rq.side).nodes, ids[..Min(|rq.groups|, |ids|)])
  }

  lemma OfferedSorted(m: Market, rq: MatchRq)
    requires Sound(m)
    ensures Sorted(Offered(m, rq)) && AllFormed(Offered(m, rq)) && Offered(m, rq) <= StateEntries(m.Book(rq.side))
    ensures forall e | e in Offered(m, rq) :: e.key in OrdersOf(m, rq.side) && OrdersOf(m, rq.side)[e.key] == e.val
  {
    var s := m.Book(rq.side);
    hide GoodBook, VaultOk, Gathered, Leaves, AllFormed;
    OneBook(m, rq.side);
    GoodIsFormed(m.book, rq.side, s);
    PartOfBook(s, Min(|rq.groups|, |Leaves(s)|));
  }

  lemma PartOfBook(s: State, n: nat)
    requires Valid(s) && FormedBook(s) && n <= |Leaves(s)|
    ensures var es := Gathered(s.nodes, Leaves(s)[..n]);
            && Sorted(es) && AllFormed(es) && es <= StateEntries(s)
            && forall e | e in es :: e.key in Contents(s) && Contents(s)[e.key] == e.val
  {
    hide Valid, Gathered, Leaves, AllFormed, Contents, StateEntries, EntriesIn, Lists;
    var ids := Leaves(s);
    EntriesAcross(s);
    StateLinked(s);
    StateSorted(s);
    GatheredParts(s.nodes, ids, n, |ids|);
    NothingGathered(s.nodes, ids[|ids|..]);
    var es, rest := Gathered(s.nodes, ids[..n]), Gathered(s.nodes, ids[n..|ids|]);
    assert StateEntries(s) == es + rest;
    assert (es + rest)[0..|es|] == es;
    SortedPart(es + rest, 0, |es|);
    GatheredFormed(s, ids[..n]);
    forall e | e in es ensures e.key in Contents(s) && Contents(s)[e.key] == e.val {
      assert e in StateEntries(s);
      ListedIn(StateEntries(s), Contents(s), e);
    }
  }

  lemma ListedIn(es: seq<Entry>, orders: map<Key, Val>, e: Entry)
    requires Lists(es, orders) && e in es
    ensures e.key in orders && orders[e.key] == e.val
  {
  }

  lemma MatchMakes(m: Market, rq: MatchRq, m': Market, fs: seq<Fill>)
    requires ShapedBooks(m) && FormedBook(m.Book(rq.side)) && Match(m, rq) == Ok((m', fs))
    ensures rq.height > 0 && rq.Covered() && rq.taker != m.book && |fs| <= |rq.makers|
    ensures SweepBook(m, rq).Ok? && SweepBook(m, rq).value.fills == fs && Settle(m, rq, SweepBook(m, rq).value, 0) == Ok(m')
  {
    hide ShapedBooks, FormedBook, SweepBook, Settle, CheckMint;
  }

  // The first phase finds the greedy fills of the offered part of the book.
  lemma SweptGreedily(m: Market, rq: MatchRq)
    requires Sound(m) && FormedBook(m.Book(rq.side)) && rq.height > 0 && rq.Covered() && AllFormed(Offered(m, rq))
    ensures SweepBook(m, rq).Ok? ==>
              SweepBook(m, rq).value.fills == Greedy(rq.side, rq.limit, Offered(m, rq), rq.size, rq.Slots())
    ensures rq.Leaves() <= Leaves(m.Book(rq.side)) ==> SweepBook(m, rq).Ok?
  {
    var s := m.Book(rq.side);
    hide GoodBook, VaultOk, Gathered, Leaves, AllFormed, SweepFrom, FormedBook, Greedy, Linked, Distinct;
    OneBook(m, rq.side);
    GoodIsFormed(m.book, rq.side, s);
    SweepStarts(s);
    assert Leaves(s)[0..Min(|rq.groups|, |Leaves(s)|)] == Leaves(s)[..Min(|rq.groups|, |Leaves(s)|)];
    SweepIsGreedy(s, Leaves(s), rq.side, rq.limit, rq.Leaves(), 0, rq.size, rq.Slots());
  }

  lemma SweepStarts(s: State)
    requires Valid(s) && FormedBook(s)
    ensures Linked(s, Leaves(s)) && Distinct(Leaves(s)) && FormedBook(s) && s.leftmost == (if |Leaves(s)| > 0 then Leaves(s)[0] else 0)
  {
    LeavesChain(s);
    hide Valid, Leaves, StateEntries, Distinct, LeafTo, AllFormed;
    IsLinked(s, Leaves(s));
  }

  // Price times fill of every order the first phase picks is a u64: the overflow check of the
  // second phase never fires.
  lemma MatchProductsFit(m: Market, rq: MatchRq)
    requires Sound(m) && FormedBook(m.Book(rq.side)) && rq.height > 0 && rq.Covered() && SweepBook(m, rq).Ok?
    ensures forall f | f in SweepBook(m, rq).value.fills :: f.price * f.fill <= U64_MAX
  {
    hide GoodBook, VaultOk, FormedBook, SweepBook, Greedy, Open, FillsOf, Offered, AllFormed, Resting, DistinctKeys,
      StateEntries, Sorted, Contents, GoodOrder;
    OfferedSorted(m, rq);
    SweptGreedily(m, rq);
    FillsRest(m.book, rq.side, rq.limit, Offered(m, rq), OrdersOf(m, rq.side), rq.size, rq.Slots());
    OneBook(m, rq.side);
    GoodIsFormed(m.book, rq.side, m.Book(rq.side));
    var fs := SweepBook(m, rq).value.fills;
    forall i | 0 <= i < |fs| ensures fs[i].price * fs[i].fill <= U64_MAX {
      IsResting(OrdersOf(m, rq.side), rq.side, fs[i]);
      RestingValue(m.book, rq.side, OrdersOf(m, rq.side), fs[i]);
    }
  }

  // An accepted match is the greedy one: it fills the first tradable orders of the offered part
  // of the book, pays every maker price times fill, takes what it releases out of the vault, and
  // leaves every other order alone.
  lemma MatchCorrect(m: Market, rq: MatchRq, m': Market, fs: seq<Fill>)
    requires Sound(m) && ShapedBooks(m) && FormedBook(m.Book(rq.side)) && Match(m, rq) == Ok((m', fs))
    ensures AllFormed(Offered(m, rq)) && fs == Greedy(rq.side, rq.limit, Offered(m, rq), rq.size, rq.Slots())
    ensures AllFormed(Open(rq.side, rq.limit, Offered(m, rq)))
    ensures FillsOf(rq.side, Open(rq.side, rq.limit, Offered(m, rq)), rq.size, rq.Slots(), fs)
    ensures |fs| <= |rq.makers| && Settled(m, rq, fs, 0, m') && rq.taker != m.book
  {
    hide Sound, ShapedBooks, FormedBook, Match, SweepBook, Settle, Greedy, Open, FillsOf, Offered, OrdersOf,
      AllFormed, Settled, Resting, DistinctKeys, StateEntries, Sorted;
    MatchMakes(m, rq, m', fs);
    OfferedSorted(m, rq);
    SweptGreedily(m, rq);
    FillsRest(m.book, rq.side, rq.limit, Offered(m, rq), OrdersOf(m, rq.side), rq.size, rq.Slots());
    SettleSteps(m, rq, SweepBook(m, rq).value, 0, m');
  }

  // Every token account ends a match with what it had, plus the fills' transfers to it, minus those
  // from it.
  lemma MatchMoves(m: Market, rq: MatchRq, m': Market, fs: seq<Fill>)
    requires Sound(m) && ShapedBooks(m) && FormedBook(m.Book(rq.side)) && Match(m, rq) == Ok((m', fs))
    ensures |fs| <= |rq.makers|
    ensures forall a :: Balance(m'.tokens, a) == Balance(m.tokens, a) + Into(MovesOf(m, rq, fs, 0), a) - OutOf(MovesOf(m, rq, fs, 0), a)
    ensures forall i | 0 <= i < |fs| :: PaysMaker(m, rq, fs[i], rq.makers[i]) && fs[i].price * fs[i].fill <= U64_MAX
  {
    hide Sound, ShapedBooks, FormedBook, Match, Offered, AllFormed, Greedy, FillsOf, Balance, MovesOf, PaysMaker,
      KeepsBooks, Moved, OrdersOf;
    MatchCorrect(m, rq, m', fs);
    AllMoved(m.tokens, MovesOf(m, rq, fs, 0));
  }

  // An accepted match changes balances as follows and not otherwise. Taking asks, the base vault
  // gives each fill's size to the taker, and the taker pays its price times its size in quote to the
  // maker. Taking bids, the quote vault gives price times size, and the taker pays the size in base.
  lemma MatchPays(m: Market, rq: MatchRq, m': Market, fs: seq<Fill>)
    requires Sound(m) && ShapedBooks(m) && FormedBook(m.Book(rq.side)) && Match(m, rq) == Ok((m', fs))
    ensures |fs| <= |rq.makers|
    ensures forall a ::
              Balance(m'.tokens, a) == Balance(m.tokens, a)
                + (if a != rq.recv then 0 else if rq.side == Ask then BaseTraded(fs, 0) else QuoteTraded(fs, 0))
                + PaidTo(rq, fs, 0, a)
                - (if a != (if rq.side == Ask then m.baseVault else m.quoteVault) then 0
                   else if rq.side == Ask then BaseTraded(fs, 0) else QuoteTraded(fs, 0))
                - (if a != rq.pay then 0 else if rq.side == Ask then QuoteTraded(fs, 0) else BaseTraded(fs, 0))
    ensures MintOf(m.tokens, rq.recv) == Some(if rq.side == Ask then m.baseMint else m.quoteMint)
    ensures MintOf(m.tokens, rq.pay) == Some(if rq.side == Ask then m.quoteMint else m.baseMint)
    ensures forall i | 0 <= i < |fs| ::
              && OwnerOf(m.tokens, rq.makers[i]) == Some(fs[i].maker)
              && MintOf(m.tokens, rq.makers[i]) == Some(if rq.side == Ask then m.quoteMint else m.baseMint)
  {
    hide Sound, ShapedBooks, FormedBook, Match, Balance, MovesOf, BaseTraded, QuoteTraded, PaidTo, OwnerOf, MintOf;
    MatchMoves(m, rq, m', fs);
    MatchMints(m, rq);
    forall a
      ensures Into(MovesOf(m, rq, fs, 0), a) ==
              (if a != rq.recv then 0 else if rq.side == Ask then BaseTraded(fs, 0) else QuoteTraded(fs, 0)) + PaidTo(rq, fs, 0, a)
      ensures OutOf(MovesOf(m, rq, fs, 0), a) ==
              (if a != (if rq.side == Ask then m.baseVault else m.quoteVault) then 0
               else if rq.side == Ask then BaseTraded(fs, 0) else QuoteTraded(fs, 0))
              + (if a != rq.pay then 0 else if rq.side == Ask then QuoteTraded(fs, 0) else BaseTraded(fs, 0))
    {
      MatchFlows(m, rq, fs, 0, a);
    }
  }

  lemma MatchMints(m: Market, rq: MatchRq)
    requires ShapedBooks(m) && FormedBook(m.Book(rq.side)) && Match(m, rq).Ok?
    ensures MintOf(m.tokens, rq.recv) == Some(if rq.side == Ask then m.baseMint else m.quoteMint)
    ensures MintOf(m.tokens, rq.pay) == Some(if rq.side == Ask then m.quoteMint else m.baseMint)
  {
    hide ShapedBooks, FormedBook, SweepBook, Settle;
  }

  // What a match comes to, in one place: the greedy fills of the offered part, settled.
  ghost predicate MatchSettled(m: Market, m': Market, rq: MatchRq, fs: seq<Fill>)
    requires Sound(m)
  {
    && AllFormed(Offered(m, rq)) && fs == Greedy(rq.side, rq.limit, Offered(m, rq), rq.size, rq.Slots())
    && |fs| <= |rq.makers| && Settled(m, rq, fs, 0, m')
    && forall a ::
         Balance(m'.tokens, a) == Balance(m.tokens, a)
           + (if a != rq.recv then 0 else if rq.side == Ask then BaseTraded(fs, 0) else QuoteTraded(fs, 0))
           + PaidTo(rq, fs, 0, a)
           - (if a != (if rq.side == Ask then m.baseVault else m.quoteVault) then 0
              else if rq.side == Ask then BaseTraded(fs, 0) else QuoteTraded(fs, 0))
           - (if a != rq.pay then 0 else if rq.side == Ask then QuoteTraded(fs, 0) else BaseTraded(fs, 0))
  }

  lemma MatchSettles(m: Market, rq: MatchRq)
    requires ShapedBooks(m) && FormedBook(m.Book(rq.side))
    ensures Sound(m) && Match(m, rq).Ok? ==> MatchSettled(m, Match(m, rq).value.0, rq, Match(m, rq).value.1)
  {
    hide Sound, ShapedBooks, FormedBook, Match, Offered, AllFormed, Greedy, FillsOf, Balance, MovesOf, PaysMaker, Open,
      Settled, BaseTraded, QuoteTraded, PaidTo, MintOf, OwnerOf;
    if Sound(m) && Match(m, rq).Ok? {
      MatchCorrect(m, rq, Match(m, rq).value.0, Match(m, rq).value.1);
      MatchPays(m, rq, Match(m, rq).value.0, Match(m, rq).value.1);
    }
  }

  // Orders no fill names stay as they were.
  lemma {:induction false} OthersUntouched(orders: map<Key, Val>, fs: seq<Fill>, key: Key)
    requires forall i | 0 <= i < |fs| :: fs[i].key != key
    ensures key in AfterFills(orders, fs) <==> key in orders
    ensures key in orders ==> AfterFills(orders, fs)[key] == orders[key]
    decreases |fs|
  {
    if fs != [] {
      OthersUntouched(AfterFill(orders, fs[0]), fs[1..], key);
    }
  }

  // And each filled order is gone, or rests with what is left of it.
  lemma {:induction false} FilledOrders(orders: map<Key, Val>, fs: seq<Fill>, i: nat)
    requires DistinctKeys(fs) && i < |fs|
    ensures if fs[i].left == 0 then fs[i].key !in AfterFills(orders, fs)
            else fs[i].key in AfterFills(orders, fs) && AfterFills(orders, fs)[fs[i].key] == OrderValue(fs[i].maker, fs[i].left)
    decreases |fs|
  {
    hide OrderValue;
    if i == 0 {
      OthersUntouched(AfterFill(orders, fs[0]), fs[1..], fs[0].key);
    } else {
      assert fs[i] == fs[1..][i - 1];
      FilledOrders(AfterFill(orders, fs[0]), fs[1..], i - 1);
    }
  }
}
