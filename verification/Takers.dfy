// Exactly when the order book accepts a match. On a solvent market the vault can always release
// what the fills call for, so only the taker and the makers' accounts decide.
module Takers {
  import opened Base
  import opened NodeViews
  import opened Engine
  import opened Represent
  import opened MapModel
  import opened InsertPlanned
  import opened HotTheorems
  import opened Structure
  import opened LeafChain
  import opened Scans
  import opened Runs
  import opened OrderKeys
  import opened Tokens
  import opened Orders
  import opened Sweep
  import opened Markets
  import opened Books
  import opened Solvency
  import opened Settlement
  import opened Admission
  import Histories
  import MarketRuns

  // ---- the token accounts ----

  // What account `a` holds once the transfers `mvs` are made.
  function Held(l: Ledger, mvs: seq<Move>, a: Pubkey): int {
    Balance(l, a) + Into(mvs, a) - OutOf(mvs, a)
  }

  predicate Room(l: Ledger, mvs: seq<Move>, mv: Move) {
    mv.src == mv.dst || Held(l, mvs, mv.dst) + mv.amount <= U64_MAX
  }

  // The taker's two accounts are of the market's mints.
  predicate MintsFit(m: Market, rq: MatchRq) {
    && MintOf(m.tokens, rq.recv) == Some(if rq.side == Ask then m.baseMint else m.quoteMint)
    && MintOf(m.tokens, rq.pay) == Some(if rq.side == Ask then m.quoteMint else m.baseMint)
  }

  // After the transfers `mvs`, the fill is payable: the maker's account is the maker's own, the
  // paying account the taker's, it covers the payment, and both receivers have room.
  predicate Payable(m: Market, rq: MatchRq, mvs: seq<Move>, f: Fill, maker: Pubkey) {
    && f.price * f.fill <= U64_MAX
    && PaysMaker(m, rq, f, maker) && OwnerOf(m.tokens, rq.pay) == Some(rq.taker)
    && (var fm := FillMoves(m, rq, f, maker);
        && Room(m.tokens, mvs, fm[0])
        && Held(m.tokens, mvs + [fm[0]], rq.pay) >= fm[1].amount
        && Room(m.tokens, mvs + [fm[0]], fm[1]))
  }

  lemma HeldAfter(l: Ledger, mv: Move, a: Pubkey)
    requires Transfer(l, mv).Ok?
    ensures Held(l, [] + [mv], a) == Balance(Transfer(l, mv).value, a)
  {
    hide Balance, Transfer;
    TransferMoves(l, mv);
    var mvs := [] + [mv];
    assert mvs[1..] == [] && Into([], a) == 0 && OutOf([], a) == 0;
    assert Into(mvs, a) == (if mv.dst == a then mv.amount else 0) && OutOf(mvs, a) == (if mv.src == a then mv.amount else 0);
  }

  // A vault that covers the fill releases it whenever the receiver has room.
  lemma ReleaseIff(m: Market, rq: MatchRq, mv: Move)
    requires VaultOk(m.tokens, m.baseVault, m.baseMint, m.book) && VaultOk(m.tokens, m.quoteVault, m.quoteMint, m.book)
    requires MintsFit(m, rq) && mv.src == m.Vault(rq.side) && mv.dst == rq.recv && mv.authority == m.book
    requires Balance(m.tokens, mv.src) >= mv.amount
    ensures Transfer(m.tokens, mv).Ok? <==> Room(m.tokens, [], mv)
  {
    TransferIff(m.tokens, mv);
  }

  lemma PaymentIff(m: Market, l1: Ledger, rq: MatchRq, f: Fill, mv: Move)
    requires SameHolders(m.tokens, l1) && MintsFit(m, rq) && PaysMaker(m, rq, f, mv.dst)
    requires mv.src == rq.pay && mv.authority == rq.taker
    ensures Transfer(l1, mv).Ok? <==>
            && OwnerOf(m.tokens, rq.pay) == Some(rq.taker) && Balance(l1, rq.pay) >= mv.amount
            && (mv.src == mv.dst || Balance(l1, mv.dst) + mv.amount <= U64_MAX)
  {
    TransferIff(l1, mv);
  }

  lemma PaidIff(m: Market, rq: MatchRq, f: Fill, maker: Pubkey)
    requires VaultOk(m.tokens, m.baseVault, m.baseMint, m.book) && VaultOk(m.tokens, m.quoteVault, m.quoteMint, m.book)
    requires MintsFit(m, rq) && f.price * f.fill <= U64_MAX && PaysMaker(m, rq, f, maker)
    requires Balance(m.tokens, m.Vault(rq.side)) >= Escrow(rq.side, f.price, f.fill)
    ensures TransferAll(m.tokens, FillMoves(m, rq, f, maker)).Ok? <==> Payable(m, rq, [], f, maker)
  {
    hide Transfer, Balance, Held, MintsFit, VaultOk, PaysMaker, Escrow, Counter, OwnerOf, TransferAll;
    var fm := FillMoves(m, rq, f, maker);
    TransferPair(m.tokens, fm[0], fm[1]);
    ReleaseIff(m, rq, fm[0]);
    if Transfer(m.tokens, fm[0]).Ok? {
      TransferMoves(m.tokens, fm[0]);
      PaymentIff(m, Transfer(m.tokens, fm[0]).value, rq, f, fm[1]);
      HeldAfter(m.tokens, fm[0], rq.pay);
      HeldAfter(m.tokens, fm[0], maker);
    }
  }

  // ---- one fill ----

  lemma FillIxIff(s: State, f: Fill, path: seq<nat>)
    requires Valid(s) && AllShaped(s.nodes) && f.key in Contents(s)
    ensures Apply(s, FillIx(f, path)).Ok? <==> path == SearchPath(s, f.key)
  {
    hide ValidWith, AllShaped, SearchPath, Contents, StateEntries, DeleteFast, UpdateFast, OrderValue, LeafOf, FastLeaf;
    KeyNeedsTree(s, f.key);
    HeightCapped(s);
    PathSound(s, SearchPath(s, f.key), f.key);
    if f.left == 0 {
      DeleteFastCorrect(s, f.key, path);
    } else {
      UpdateFastCorrect(s, 0, Entry(f.key, OrderValue(f.maker, f.left)), path);
    }
  }

  // The vault covers a fill of a resting order.
  lemma VaultCoversFill(m: Market, side: Side, f: Fill)
    requires Sound(m) && Solvent(m) && Resting(OrdersOf(m, side), side, f)
    ensures f.price * f.fill <= U64_MAX && Balance(m.tokens, m.Vault(side)) >= Escrow(side, f.price, f.fill)
  {
    hide GoodBook, VaultOk, Contents, Resting, Escrow, EscrowOf, Balance, Solvent, GoodOrder;
    OneBook(m, side);
    GoodIsFormed(m.book, side, m.Book(side));
    IsResting(OrdersOf(m, side), side, f);
    RestingValue(m.book, side, OrdersOf(m, side), f);
    VaultCovers(m, side, f.key);
  }

  lemma SettleOneParts(m: Market, rq: MatchRq, f: Fill, maker: Pubkey, path: seq<nat>)
    requires ShapedBooks(m) && f.price * f.fill <= U64_MAX
    ensures SettleOne(m, rq, f, maker, path).Ok? <==>
            PaysMaker(m, rq, f, maker) && TransferAll(m.tokens, FillMoves(m, rq, f, maker)).Ok? && Apply(m.Book(rq.side), FillIx(f, path)).Ok?
  {
    hide AllShaped, TransferAll, Apply, OwnerOf, MintOf, OrderValue, FillMoves;
  }

  lemma SettleOneIff(m: Market, rq: MatchRq, f: Fill, maker: Pubkey, path: seq<nat>)
    requires Sound(m) && ShapedBooks(m) && Solvent(m) && MintsFit(m, rq) && Resting(OrdersOf(m, rq.side), rq.side, f)
    ensures SettleOne(m, rq, f, maker, path).Ok? <==>
            Payable(m, rq, [], f, maker) && path == SearchPath(m.Book(rq.side), f.key)
  {
    hide GoodBook, Apply, AllShaped, Contents, Resting, SettleOne, TransferAll, MintsFit, VaultOk, Balance, Escrow, Room, Held,
      PaysMaker, OwnerOf, FillMoves, Solvent, SearchPath;
    VaultCoversFill(m, rq.side, f);
    SettleOneParts(m, rq, f, maker, path);
    OneBook(m, rq.side);
    IsResting(OrdersOf(m, rq.side), rq.side, f);
    FillIxIff(m.Book(rq.side), f, path);
    if PaysMaker(m, rq, f, maker) {
      PaidIff(m, rq, f, maker);
    }
  }

  // ---- all fills ----

  // Books and vaults that move by the same events stay solvent.
  lemma StaysSolvent(m: Market, m1: Market, evs: seq<Event>, base: nat, quote: nat)
    requires Sound(m) && Solvent(m) && KeepsBooks(m, m1, evs)
    requires Moved(m, m1.tokens, evs, m.baseVault, base) && Moved(m, m1.tokens, evs, m.quoteVault, quote)
    ensures Solvent(m1)
  {
    hide Sound, Balance, Escrowed, EscrowFor, MarketRuns.Obligation;
    MarketRuns.ObligationIs(m, m.baseVault);
    MarketRuns.ObligationIs(m, m.quoteVault);
    MarketRuns.ObligationIs(m1, m.baseVault);
    MarketRuns.ObligationIs(m1, m.quoteVault);
  }

  // Fill i is taken from the state before fill j: payable after the fills from j on, and on the
  // search path of its order.
  ghost predicate Taken(m: Market, rq: MatchRq, fs: seq<Fill>, j: nat, i: nat, path: seq<nat>)
    requires Sound(m) && j <= i < |fs| <= |rq.makers|
  {
    Payable(m, rq, MovesOf(m, rq, fs[..i], j), fs[i], rq.makers[i]) && path == SearchPath(m.Book(rq.side), fs[i].key)
  }

  lemma HeldLater(l: Ledger, a: seq<Move>, mvs: seq<Move>, x: Pubkey)
    requires TransferAll(l, a).Ok?
    ensures Held(TransferAll(l, a).value, mvs, x) == Held(l, a + mvs, x)
  {
    hide Balance, TransferAll;
    AllMoved(l, a);
    FlowConcat(a, mvs, x);
  }

  lemma RoomLater(l: Ledger, a: seq<Move>, mvs: seq<Move>, mv: Move)
    requires TransferAll(l, a).Ok?
    ensures Room(TransferAll(l, a).value, mvs, mv) <==> Room(l, a + mvs, mv)
  {
    hide Held, TransferAll;
    HeldLater(l, a, mvs, mv.dst);
  }

  lemma PayableLater(m: Market, m1: Market, rq: MatchRq, a: seq<Move>, mvs: seq<Move>, f: Fill, maker: Pubkey)
    requires SameTerms(m, m1) && TransferAll(m.tokens, a) == Ok(m1.tokens)
    ensures Payable(m1, rq, mvs, f, maker) <==> Payable(m, rq, a + mvs, f, maker)
  {
    hide Room, Held, TransferAll, Escrow, Counter;
    AllMoved(m.tokens, a);
    if f.price * f.fill <= U64_MAX {
      var fm := FillMoves(m, rq, f, maker);
      assert FillMoves(m1, rq, f, maker) == fm;
      RoomLater(m.tokens, a, mvs, fm[0]);
      RoomLater(m.tokens, a, mvs + [fm[0]], fm[1]);
      HeldLater(m.tokens, a, mvs + [fm[0]], rq.pay);
      assert a + (mvs + [fm[0]]) == (a + mvs) + [fm[0]];
      HoldersSame(m, m1, rq, f, maker);
    }
  }

  lemma MintsSame(m: Market, m1: Market, rq: MatchRq)
    requires SameTerms(m, m1) && SameHolders(m.tokens, m1.tokens)
    ensures MintsFit(m1, rq) <==> MintsFit(m, rq)
  {
    assert rq.pay in m.tokens.Keys <==> rq.pay in m1.tokens.Keys;
    assert rq.recv in m.tokens.Keys <==> rq.recv in m1.tokens.Keys;
  }

  lemma MovesFirst(m: Market, rq: MatchRq, fs: seq<Fill>, j: nat, i: nat)
    requires j < i <= |fs| <= |rq.makers| && fs[j].price * fs[j].fill <= U64_MAX
    ensures MovesOf(m, rq, fs[..i], j) == FillMoves(m, rq, fs[j], rq.makers[j]) + MovesOf(m, rq, fs[..i], j + 1)
  {
    assert fs[..i][j] == fs[j];
  }

  lemma TakenLater(m: Market, m1: Market, rq: MatchRq, fs: seq<Fill>, j: nat, i: nat, path: seq<nat>)
    requires Sound(m) && Sound(m1) && SameTerms(m, m1) && j < i < |fs| <= |rq.makers| && fs[j].price * fs[j].fill <= U64_MAX
    requires TransferAll(m.tokens, FillMoves(m, rq, fs[j], rq.makers[j])) == Ok(m1.tokens)
    requires SameStructure(m.Book(rq.side), m1.Book(rq.side))
    ensures Taken(m1, rq, fs, j + 1, i, path) <==> Taken(m, rq, fs, j, i, path)
  {
    hide GoodBook, VaultOk, SameStructure, SearchPath, TransferAll, Payable, FillMoves;
    OneBook(m, rq.side);
    OneBook(m1, rq.side);
    Histories.SameSearch(m.Book(rq.side), m1.Book(rq.side), fs[i].key);
    MovesFirst(m, rq, fs, j, i);
    MovesAfter(m, m1, rq, fs[..i], j + 1);
    PayableLater(m, m1, rq, FillMoves(m, rq, fs[j], rq.makers[j]), MovesOf(m, rq, fs[..i], j + 1), fs[i], rq.makers[i]);
  }

  lemma FillKeepsStructure(m: Market, rq: MatchRq, f: Fill, maker: Pubkey, path: seq<nat>, m1: Market)
    requires Sound(m) && ShapedBooks(m) && SettleOne(m, rq, f, maker, path) == Ok(m1)
    ensures SameStructure(m.Book(rq.side), m1.Book(rq.side))
  {
    hide GoodBook, VaultOk, SameStructure, Apply, OrderValue, SettleOne, FillMoves, TransferAll, PaysMaker,
      Roomy, Valid, AllLinked, StateEntries, Leaves, Gathered;
    OneBook(m, rq.side);
    ValidShaped(m.Book(rq.side));
    StateLinked(m.Book(rq.side));
    SettleOneMakes(m, rq, f, maker, path, m1);
    Histories.FastFollows(m.Book(rq.side), FillIx(f, path));
  }

  // What holds from one fill to the next.
  ghost predicate Ready(m: Market, rq: MatchRq, fs: seq<Fill>, j: nat) {
    && Sound(m) && ShapedBooks(m) && Solvent(m) && MintsFit(m, rq) && rq.taker != m.book
    && j <= |fs| <= |rq.makers| && DistinctKeys(fs)
    && forall i | j <= i < |fs| :: Resting(OrdersOf(m, rq.side), rq.side, fs[i])
  }

  lemma NextReady(m: Market, rq: MatchRq, fs: seq<Fill>, j: nat, path: seq<nat>, m1: Market)
    requires Ready(m, rq, fs, j) && j < |fs| && SettleOne(m, rq, fs[j], rq.makers[j], path) == Ok(m1)
    ensures Ready(m1, rq, fs, j + 1) && SameTerms(m, m1) && SameStructure(m.Book(rq.side), m1.Book(rq.side))
    ensures fs[j].price * fs[j].fill <= U64_MAX
    ensures TransferAll(m.tokens, FillMoves(m, rq, fs[j], rq.makers[j])) == Ok(m1.tokens)
  {
    hide Sound, ShapedBooks, SettleOne, Resting, OrdersOf, Solvent, MintsFit, FillMoves, TransferAll, Escrow, AfterFill, PaysMaker,
      Moved, SameStructure;
    var f := fs[j];
    SettleOneStep(m, rq, f, rq.makers[j], path, m1);
    FillKeepsStructure(m, rq, f, rq.makers[j], path, m1);
    AllMoved(m.tokens, FillMoves(m, rq, f, rq.makers[j]));
    KeepsSound(m, m1, [Release(rq.side, f)]);
    MintsSame(m, m1, rq);
    StillSolvent(m, m1, rq, f);
    forall i | j < i < |fs| ensures Resting(OrdersOf(m1, rq.side), rq.side, fs[i]) {
      RestingKept(OrdersOf(m, rq.side), rq.side, f, fs[i]);
    }
  }

  lemma StillSolvent(m: Market, m1: Market, rq: MatchRq, f: Fill)
    requires Sound(m) && Solvent(m) && KeepsBooks(m, m1, [Release(rq.side, f)])
    requires forall v | IsVault(m, v) ::
               Moved(m, m1.tokens, [Release(rq.side, f)], v, if rq.recv == v then Escrow(rq.side, f.price, f.fill) else 0)
    ensures Solvent(m1)
  {
    hide Sound, Solvent, Moved, KeepsBooks, Escrow;
    var e := Escrow(rq.side, f.price, f.fill);
    assert IsVault(m, m.baseVault) && IsVault(m, m.quoteVault);
    StaysSolvent(m, m1, [Release(rq.side, f)], if rq.recv == m.baseVault then e else 0, if rq.recv == m.quoteVault then e else 0);
  }

  // The second phase goes through exactly when every fill is taken.
  lemma {:induction false} SettleIff(m: Market, rq: MatchRq, sw: Swept, j: nat)
    requires Ready(m, rq, sw.fills, j) && |sw.fills| == |sw.grps| && Inside(sw.grps, |rq.groups|)
    ensures Settle(m, rq, sw, j).Ok? <==>
            forall i | j <= i < |sw.fills| :: Taken(m, rq, sw.fills, j, i, rq.groups[sw.grps[i]])
    decreases |sw.fills| - j
  {
    hide Sound, ShapedBooks, SettleOne, Resting, OrdersOf, Solvent, MintsFit, DistinctKeys, FillMoves, TransferAll, Taken, SameStructure;
    var fs := sw.fills;
    if j < |fs| {
      var path := rq.groups[sw.grps[j]];
      FirstTakenIff(m, rq, fs, j, path);
      if SettleOne(m, rq, fs[j], rq.makers[j], path).Ok? {
        var m1 := SettleOne(m, rq, fs[j], rq.makers[j], path).value;
        NextReady(m, rq, fs, j, path, m1);
        SettleIff(m1, rq, sw, j + 1);
        forall i | j < i < |fs|
          ensures Taken(m1, rq, fs, j + 1, i, rq.groups[sw.grps[i]]) <==> Taken(m, rq, fs, j, i, rq.groups[sw.grps[i]])
        {
          TakenLater(m, m1, rq, fs, j, i, rq.groups[sw.grps[i]]);
        }
      }
    }
  }

  lemma FirstTakenIff(m: Market, rq: MatchRq, fs: seq<Fill>, j: nat, path: seq<nat>)
    requires Ready(m, rq, fs, j) && j < |fs|
    ensures SettleOne(m, rq, fs[j], rq.makers[j], path).Ok? <==> Taken(m, rq, fs, j, j, path)
  {
    hide Sound, ShapedBooks, SettleOne, Resting, OrdersOf, Solvent, MintsFit, DistinctKeys, Payable, SearchPath;
    SettleOneIff(m, rq, fs[j], rq.makers[j], path);
    assert MovesOf(m, rq, fs[..j], j) == [];
  }

  // ---- the whole match ----

  // The fills the taker gets: the greedy ones of the part of the book it offers to sweep.
  ghost function FillsFor(m: Market, rq: MatchRq): (fs: seq<Fill>)
    requires Sound(m)
    ensures |fs| <= rq.maxFills && |fs| <= 8
  {
    OfferedSorted(m, rq);
    Greedy(rq.side, rq.limit, Offered(m, rq), rq.size, if rq.maxFills < 8 then rq.maxFills else 8)
  }

  ghost predicate LeavesFit(m: Market, rq: MatchRq)
    requires Sound(m) && rq.height > 0 && rq.Covered()
  {
    SoundShaped(m);
    InStep(m.Book(rq.side), Leaves(m.Book(rq.side)), rq.side, rq.limit, rq.Leaves(), 0, rq.size, rq.Slots())
  }

  // Fill i is payable after the ones before it, and the path supplied for its leaf is the search
  // path of its order.
  ghost predicate FillFits(m: Market, rq: MatchRq, i: nat)
    requires Sound(m) && i < |FillsFor(m, rq)| <= |rq.makers|
  {
    var s, f := m.Book(rq.side), FillsFor(m, rq)[i];
    && s.height > 0 && LeafIndex(s, f.key) < |rq.groups|
    && Payable(m, rq, MovesOf(m, rq, FillsFor(m, rq)[..i], 0), f, rq.makers[i])
    && rq.groups[LeafIndex(s, f.key)] == SearchPath(s, f.key)
  }

  ghost predicate MatchFits(m: Market, rq: MatchRq)
    requires Sound(m)
  {
    && 0 < |rq.groups| <= 64 && rq.height > 0 && (forall g | g in rq.groups :: |g| == rq.height)
    && |rq.makers| == (if rq.maxFills < 8 then rq.maxFills else 8)
    && rq.taker != m.book && MintsFit(m, rq)
    && LeavesFit(m, rq)
    && forall i | 0 <= i < |FillsFor(m, rq)| :: FillFits(m, rq, i)
  }

  lemma SweptIff(m: Market, rq: MatchRq)
    requires Sound(m) && FormedBook(m.Book(rq.side)) && rq.height > 0 && rq.Covered()
    ensures SweepBook(m, rq).Ok? <==> LeavesFit(m, rq)
    ensures SweepBook(m, rq).Ok? ==>
              && SweepBook(m, rq).value.fills == FillsFor(m, rq)
              && forall i | 0 <= i < |FillsFor(m, rq)| ::
                   FillIn(m.Book(rq.side), Leaves(m.Book(rq.side)), SweepBook(m, rq).value.grps[i], FillsFor(m, rq)[i])
  {
    var s := m.Book(rq.side);
    hide GoodBook, VaultOk, Gathered, Leaves, AllFormed, SweepFrom, FormedBook, Greedy, Linked, Distinct, InStep, FillIn;
    OneBook(m, rq.side);
    GoodIsFormed(m.book, rq.side, s);
    SweepStarts(s);
    OfferedSorted(m, rq);
    SweptGreedily(m, rq);
    SweepIff(s, Leaves(s), rq.side, rq.limit, rq.Leaves(), 0, rq.size, rq.Slots());
    GroupsAreLeaves(s, Leaves(s), rq.side, rq.limit, rq.Leaves(), 0, rq.size, rq.Slots());
  }

  // The group a fill comes from is that of its order's leaf.
  lemma GroupIs(s: State, g: nat, f: Fill)
    requires Valid(s) && FillIn(s, Leaves(s), g, f)
    ensures s.height > 0 && LeafIndex(s, f.key) == g
  {
    hide Valid, Leaves, StateEntries, LeafTo, LeafOf, SearchPath, StandsAt, Gathered;
    LeavesChain(s);
    ValidShaped(s);
    var ids := Leaves(s);
    var e :| e in s.nodes[ids[g]].es && e.key == f.key;
    EntryAtHome(s, ids[g], e);
    PathSound(s, SearchPath(s, f.key), f.key);
    LeafIndexIs(s, f.key);
    FirstIndex(ids, ids[g], g);
  }

  lemma ReadyToSettle(m: Market, rq: MatchRq)
    requires Sound(m) && ShapedBooks(m) && Solvent(m) && MintsFit(m, rq) && rq.taker != m.book
    requires |FillsFor(m, rq)| <= |rq.makers|
    ensures Ready(m, rq, FillsFor(m, rq), 0)
  {
    hide Sound, ShapedBooks, Solvent, MintsFit, Offered, OrdersOf, AllFormed, Greedy, Open, FillsOf, Resting, DistinctKeys, Sorted,
      StateEntries;
    OfferedSorted(m, rq);
    FillsRest(m.book, rq.side, rq.limit, Offered(m, rq), OrdersOf(m, rq.side), rq.size, rq.Slots());
  }

  lemma MatchParts(m: Market, rq: MatchRq)
    requires ShapedBooks(m) && FormedBook(m.Book(rq.side))
    ensures Match(m, rq).Ok? <==>
            && 0 < |rq.groups| <= MAX_SWEPT && rq.height > 0 && rq.Covered() && rq.taker != m.book && MintsFit(m, rq)
            && SweepBook(m, rq).Ok? && Settle(m, rq, SweepBook(m, rq).value, 0).Ok?
  {
    hide ShapedBooks, FormedBook, SweepBook, Settle;
  }

  lemma TakenFits(m: Market, rq: MatchRq, i: nat, g: nat)
    requires Sound(m) && i < |FillsFor(m, rq)| <= |rq.makers| && g < |rq.groups|
    requires FillIn(m.Book(rq.side), Leaves(m.Book(rq.side)), g, FillsFor(m, rq)[i])
    ensures Taken(m, rq, FillsFor(m, rq), 0, i, rq.groups[g]) <==> FillFits(m, rq, i)
  {
    hide GoodBook, VaultOk, FillsFor, FillIn, Payable, SearchPath, LeafIndex, Leaves;
    OneBook(m, rq.side);
    GroupIs(m.Book(rq.side), g, FillsFor(m, rq)[i]);
  }

  lemma SettledIff(m: Market, rq: MatchRq)
    requires Sound(m) && ShapedBooks(m) && Solvent(m) && MintsFit(m, rq) && rq.taker != m.book
    requires FormedBook(m.Book(rq.side)) && rq.height > 0 && rq.Covered() && SweepBook(m, rq).Ok?
    ensures Settle(m, rq, SweepBook(m, rq).value, 0).Ok? <==> forall i | 0 <= i < |FillsFor(m, rq)| :: FillFits(m, rq, i)
  {
    hide Sound, ShapedBooks, Solvent, MintsFit, FormedBook, SweepBook, Settle, FillsFor, Leaves, FillIn, FillFits, Taken, LeavesFit,
      Ready;
    SweptIff(m, rq);
    ReadyToSettle(m, rq);
    var sw := SweepBook(m, rq).value;
    SettleIff(m, rq, sw, 0);
    forall i | 0 <= i < |sw.fills| ensures Taken(m, rq, sw.fills, 0, i, rq.groups[sw.grps[i]]) <==> FillFits(m, rq, i) {
      TakenFits(m, rq, i, sw.grps[i]);
    }
  }

  // On a solvent market a match is accepted exactly when the request is well formed, each leaf the
  // sweep reaches is the chain's next, and each fill is paid for to an account of its order's own
  // maker over the order's search path. Neither the vault nor an overflow ever stands in the way.
  lemma MatchIff(m: Market, rq: MatchRq)
    requires Sound(m) && Solvent(m)
    ensures ShapedBooks(m) && FormedBook(m.Book(rq.side)) && (Match(m, rq).Ok? <==> MatchFits(m, rq))
  {
    hide Sound, ShapedBooks, Solvent, MintsFit, FormedBook, SweepBook, Settle, FillsFor, FillFits, LeavesFit, Match;
    SoundShaped(m);
    MatchParts(m, rq);
    if 0 < |rq.groups| <= MAX_SWEPT && rq.height > 0 && rq.Covered() && rq.taker != m.book && MintsFit(m, rq) {
      SweptIff(m, rq);
      if SweepBook(m, rq).Ok? {
        SettledIff(m, rq);
      }
    }
  }
}
