// Each instruction moves exactly the tokens the book's escrow changes by.
module Solvency {
  import opened Base
  import opened Bytes
  import opened NodeViews
  import opened Shapes
  import opened Engine
  import opened Represent
  import opened MapModel
  import opened Runs
  import opened HotTheorems
  import opened InsertPlanned
  import opened OrderKeys
  import opened Tokens
  import opened Orders
  import opened LeafChain
  import opened Markets
  import opened Books

  // What holds of every market between instructions.
  ghost predicate Sound(m: Market) {
    && GoodBook(m.book, Ask, m.asks) && GoodBook(m.book, Bid, m.bids)
    && VaultOk(m.tokens, m.baseVault, m.baseMint, m.book) && VaultOk(m.tokens, m.quoteVault, m.quoteMint, m.book)
  }

  predicate IsVault(m: Market, v: Pubkey) {
    v == m.baseVault || v == m.quoteVault
  }

  // Same market, up to its books and its tokens.
  predicate SameTerms(m: Market, m': Market) {
    m' == m.(asks := m'.asks, bids := m'.bids, tokens := m'.tokens)
  }

  ghost function Escrowed(m: Market, side: Side): nat
    requires Sound(m)
  {
    TotalEscrow(side, StateEntries(m.Book(side)))
  }

  ghost function EscrowFor(m: Market, side: Side, key: Key): nat
    requires Sound(m)
  {
    EscrowAt(side, Contents(m.Book(side)), key)
  }

  // ---- sums over events ----

  function Locks(evs: seq<Event>, side: Side): nat {
    if evs == [] then 0 else (if evs[0].Locked? && evs[0].side == side then evs[0].amount else 0) + Locks(evs[1..], side)
  }

  function Releases(evs: seq<Event>, side: Side): nat {
    if evs == [] then 0 else (if evs[0].Released? && evs[0].side == side then evs[0].amount else 0) + Releases(evs[1..], side)
  }

  function LocksFor(evs: seq<Event>, side: Side, key: Key): nat {
    if evs == [] then 0
    else (if evs[0].Locked? && evs[0].side == side && evs[0].key == key then evs[0].amount else 0) + LocksFor(evs[1..], side, key)
  }

  function ReleasesFor(evs: seq<Event>, side: Side, key: Key): nat {
    if evs == [] then 0
    else (if evs[0].Released? && evs[0].side == side && evs[0].key == key then evs[0].amount else 0) + ReleasesFor(evs[1..], side, key)
  }

  lemma {:induction false} SumsConcat(a: seq<Event>, b: seq<Event>)
    ensures forall side :: Locks(a + b, side) == Locks(a, side) + Locks(b, side)
    ensures forall side :: Releases(a + b, side) == Releases(a, side) + Releases(b, side)
    ensures forall side, key :: LocksFor(a + b, side, key) == LocksFor(a, side, key) + LocksFor(b, side, key)
    ensures forall side, key :: ReleasesFor(a + b, side, key) == ReleasesFor(a, side, key) + ReleasesFor(b, side, key)
  {
    if a == [] {
      assert a + b == b;
    } else {
      assert (a + b)[1..] == a[1..] + b;
      SumsConcat(a[1..], b);
    }
  }

  lemma OneEvent(ev: Event)
    ensures forall side :: Locks([ev], side) == if ev.Locked? && ev.side == side then ev.amount else 0
    ensures forall side :: Releases([ev], side) == if ev.Released? && ev.side == side then ev.amount else 0
    ensures forall side, key :: LocksFor([ev], side, key) == if ev.Locked? && ev.side == side && ev.key == key then ev.amount else 0
    ensures forall side, key :: ReleasesFor([ev], side, key) == if ev.Released? && ev.side == side && ev.key == key then ev.amount else 0
  {
    assert [ev][1..] == [];
  }

  // ---- the two ledgers agree ----

  // Order by order and side by side, escrow changes by what is locked and released.
  ghost predicate Accounted(m: Market, m': Market, evs: seq<Event>)
    requires Sound(m) && Sound(m')
  {
    && (forall side :: Escrowed(m', side) + Releases(evs, side) == Escrowed(m, side) + Locks(evs, side))
    && (forall side, key :: EscrowFor(m', side, key) + ReleasesFor(evs, side, key) == EscrowFor(m, side, key) + LocksFor(evs, side, key))
  }

  function VaultIn(m: Market, evs: seq<Event>, v: Pubkey): nat {
    (if v == m.baseVault then Locks(evs, Ask) else 0) + (if v == m.quoteVault then Locks(evs, Bid) else 0)
  }

  function VaultOut(m: Market, evs: seq<Event>, v: Pubkey): nat {
    (if v == m.baseVault then Releases(evs, Ask) else 0) + (if v == m.quoteVault then Releases(evs, Bid) else 0)
  }

  // Account `v` changes by what is locked in it and released from it, and by `gift`.
  predicate Moved(m: Market, l': Ledger, evs: seq<Event>, v: Pubkey, gift: nat) {
    Balance(l', v) + VaultOut(m, evs, v) == Balance(m.tokens, v) + VaultIn(m, evs, v) + gift
  }

  ghost predicate KeepsBooks(m: Market, m': Market, evs: seq<Event>)
    requires Sound(m)
  {
    Sound(m') && SameTerms(m, m') && Accounted(m, m', evs)
  }

  // ---- one order ----

  lemma EventLocks(m: Market, m': Market, ev: Event)
    requires Sound(m) && Sound(m') && ev.Locked?
    requires EscrowChange(ev.side, m.Book(ev.side), m'.Book(ev.side), ev.key, ev.amount, 0)
    requires forall side | side != ev.side :: m'.Book(side) == m.Book(side)
    ensures Accounted(m, m', [ev])
  {
    hide Contents, StateEntries, TotalEscrow, EscrowAt, GoodBook, VaultOk;
    OneEvent(ev);
    hide Locks, Releases, LocksFor, ReleasesFor;
  }

  lemma EventReleases(m: Market, m': Market, ev: Event)
    requires Sound(m) && Sound(m') && ev.Released?
    requires EscrowChange(ev.side, m.Book(ev.side), m'.Book(ev.side), ev.key, 0, ev.amount)
    requires forall side | side != ev.side :: m'.Book(side) == m.Book(side)
    ensures Accounted(m, m', [ev])
  {
    hide Contents, StateEntries, TotalEscrow, EscrowAt, GoodBook, VaultOk;
    OneEvent(ev);
    hide Locks, Releases, LocksFor, ReleasesFor;
  }

  lemma HoldersKept(l: Ledger, l': Ledger, v: Pubkey, mint: Pubkey, book: Pubkey)
    requires SameHolders(l, l') && VaultOk(l, v, mint, book)
    ensures VaultOk(l', v, mint, book)
  {
  }

  // Rest an order.
  lemma PlaceStep(m: Market, o: Terms, ix: Ix, m': Market)
    requires Sound(m) && ShapedBooks(m) && Admit(m, o).Ok?
    requires (ix.IxInsertFast? && ix.e == OrderEntry(o)) || (ix.IxInsert? && ix.e == OrderEntry(o))
    requires Apply(m.Book(o.side), ix).Ok?
    requires m' == m.(tokens := Admit(m, o).value).WithBook(o.side, Apply(m.Book(o.side), ix).value)
    ensures KeepsBooks(m, m', LocksOf(o))
    ensures LocksOf(o) == [Locked(o.side, OrderEntry(o).key, if o.side == Ask then o.size else o.price * o.size)]
    ensures forall v | IsVault(m, v) :: Moved(m, m'.tokens, LocksOf(o), v, 0)
    ensures OrderEntry(o).key !in Contents(m.Book(o.side))
    ensures Contents(m'.Book(o.side)) == Contents(m.Book(o.side))[OrderEntry(o).key := OrderEntry(o).val]
  {
    hide GoodBook, Apply, EscrowChange, Contents, AllShaped, Accounted, Transfer, Balance, OrderEntry, Moved;
    OrderIsGood(m.book, o);
    OrderRested(m.book, o.side, m.Book(o.side), OrderEntry(o), ix);
    var mv := Move(o.src, m.Vault(o.side), o.maker, Escrow(o.side, o.price, o.size));
    TransferMoves(m.tokens, mv);
    var l' := m'.tokens;
    HoldersKept(m.tokens, l', m.baseVault, m.baseMint, m.book);
    HoldersKept(m.tokens, l', m.quoteVault, m.quoteMint, m.book);
    EventLocks(m, m', LocksOf(o)[0]);
    LockMoves(m, l', LocksOf(o)[0], o.src);
  }

  // What a placement comes to: the order rests, with maker and size, under the key of its own fields,
  // which was free; an ask's size moves from the maker's account into the base vault, a bid's price
  // times size into the quote vault, and no other balance changes.
  ghost predicate Rested(m: Market, m': Market, o: Terms)
    requires Sound(m)
  {
    var e, amount := OrderEntry(o), if o.side == Ask then o.size else o.price * o.size;
    && KeepsBooks(m, m', LocksOf(o))
    && KeyReads(o, e.key) && ValueReads(o, e.val)
    && e.key !in OrdersOf(m, o.side) && OrdersOf(m', o.side) == OrdersOf(m, o.side)[e.key := e.val]
    && (forall a ::
          Balance(m'.tokens, a) == Balance(m.tokens, a)
            + (if a == (if o.side == Ask then m.baseVault else m.quoteVault) then amount else 0) - (if a == o.src then amount else 0))
    && OwnerOf(m.tokens, o.src) == Some(o.maker) && MintOf(m.tokens, o.src) == Some(if o.side == Ask then m.baseMint else m.quoteMint)
  }

  lemma OrderRests(m: Market, o: Terms, ix: Ix, m': Market)
    requires Sound(m) && ShapedBooks(m) && Admit(m, o).Ok?
    requires (ix.IxInsertFast? && ix.e == OrderEntry(o)) || (ix.IxInsert? && ix.e == OrderEntry(o))
    requires Apply(m.Book(o.side), ix).Ok?
    requires m' == m.(tokens := Admit(m, o).value).WithBook(o.side, Apply(m.Book(o.side), ix).value)
    ensures Rested(m, m', o)
  {
    hide GoodBook, Apply, Contents, AllShaped, Accounted, Transfer, Balance, OrderEntry, Moved, VaultOk, KeyReads, ValueReads;
    PlaceStep(m, o, ix, m');
    EntryReads(o);
    TransferMoves(m.tokens, Move(o.src, m.Vault(o.side), o.maker, if o.side == Ask then o.size else o.price * o.size));
  }

  lemma PlaceRests(m: Market, o: Terms, path: seq<nat>)
    requires ShapedBooks(m)
    ensures Sound(m) && Place(m, o, path).Ok? ==> Rested(m, Place(m, o, path).value, o)
  {
    hide Sound, Apply, ShapedBooks, Admit, Rested, OrderEntry;
    if Sound(m) && Place(m, o, path).Ok? {
      OrderRests(m, o, IxInsertFast(OrderEntry(o), path), Place(m, o, path).value);
    }
  }

  lemma PlaceColdRests(m: Market, o: Terms, path: seq<nat>, spares: seq<nat>)
    requires ShapedBooks(m)
    ensures Sound(m) && PlaceCold(m, o, path, spares).Ok? ==> Rested(m, PlaceCold(m, o, path, spares).value, o)
  {
    hide Sound, Apply, ShapedBooks, Admit, Rested, OrderEntry;
    if Sound(m) && PlaceCold(m, o, path, spares).Ok? {
      OrderRests(m, o, IxInsert(OrderEntry(o), path, spares), PlaceCold(m, o, path, spares).value);
    }
  }

  lemma OrderIsGood(book: Pubkey, o: Terms)
    requires o.maker != book && o.price * o.size <= U64_MAX
    ensures GoodOrder(book, o.side, OrderEntry(o))
    ensures EscrowOf(o.side, OrderEntry(o).key, OrderEntry(o).val) == Escrow(o.side, o.price, o.size)
  {
    hide KeyNumber, OrderValue, MakerOf, SizeOf;
    PriceOfKeyNumber(o.side, o.price, o.slot, o.maker, o.nonce);
    OrderValueFields(o.maker, o.size);
  }

  lemma LockMoves(m: Market, l': Ledger, ev: Event, src: Pubkey)
    requires ev.Locked? && !IsVault(m, src)
    requires forall a :: Balance(l', a) == Balance(m.tokens, a) + (if m.Vault(ev.side) == a then ev.amount else 0) - (if src == a then ev.amount else 0)
    ensures forall v | IsVault(m, v) :: Moved(m, l', [ev], v, 0)
  {
    hide Balance;
    OneEvent(ev);
    hide Locks, Releases;
  }

  lemma ReleaseMoves(m: Market, l': Ledger, ev: Event, dst: Pubkey)
    requires ev.Released?
    requires forall a | IsVault(m, a) ::
               Balance(l', a) == Balance(m.tokens, a) + (if dst == a then ev.amount else 0) - (if m.Vault(ev.side) == a then ev.amount else 0)
    ensures forall v | IsVault(m, v) :: Moved(m, l', [ev], v, if dst == v then ev.amount else 0)
  {
    hide Balance;
    OneEvent(ev);
    hide Locks, Releases;
  }

  // ---- cancelling ----

  lemma {:induction false} OrderFound(es: seq<Entry>, key: Key)
    requires OrderIn(es, key).Some?
    ensures exists e :: e in es && e.key == key && Formed(e.val) && OrderIn(es, key) == Some((SizeOf(e.val), MakerOf(e.val)))
  {
    if es[0].key == key {
      assert es[0] in es;
    } else {
      OrderFound(es[1..], key);
    }
  }

  // What cancel reads from an accepted path is the order itself, whatever other account the
  // client could have passed.
  lemma CancelReadsOrder(m: Market, rq: CancelRq)
    requires Sound(m) && ShapedBooks(m) && Cancel(m, rq).Ok?
    ensures |rq.path| > 0 && rq.key in Contents(m.Book(rq.side))
    ensures var v := Contents(m.Book(rq.side))[rq.key];
            Formed(v) && OrderIn(LeafRead(m.Book(rq.side), rq), rq.key) == Some((SizeOf(v), rq.maker)) && MakerOf(v) == rq.maker
  {
    hide Contents, GoodBook, AllShaped, Transfer, SearchPath, Apply, LeafRead, OrderIn, CheckMint, OwnerOf;
    var s := m.Book(rq.side);
    CancelDeletes(m, rq);
    OneBook(m, rq.side);
    LeafReadIs(s, rq);
    OrderFound(LeafRead(s, rq), rq.key);
  }

  lemma OneBook(m: Market, side: Side)
    requires Sound(m)
    ensures GoodBook(m.book, side, m.Book(side)) && Valid(m.Book(side))
  {
  }

  lemma CancelDeletes(m: Market, rq: CancelRq)
    requires Sound(m) && ShapedBooks(m) && Cancel(m, rq).Ok?
    ensures |rq.path| > 0 && Apply(m.Book(rq.side), IxDeleteFast(rq.key, rq.path)).Ok?
    ensures exists size :: OrderIn(LeafRead(m.Book(rq.side), rq), rq.key) == Some((size, rq.maker))
  {
    hide GoodBook, VaultOk, AllShaped, Transfer, Apply, LeafRead, OrderIn, CheckMint, OwnerOf;
  }

  lemma LeafReadIs(s: State, rq: CancelRq)
    requires Valid(s) && AllShaped(s.nodes) && |rq.path| > 0 && Apply(s, IxDeleteFast(rq.key, rq.path)).Ok?
    ensures forall e | e in LeafRead(s, rq) && e.key == rq.key :: rq.key in Contents(s) && Contents(s)[rq.key] == e.val
  {
    hide Valid, Contents, StateEntries, AllShaped, FastLeaf, SearchPath, LeafOf;
    FastLeafOfDelete(s, rq.key, rq.path);
    PathSound(s, rq.path, rq.key);
    StateSorted(s);
    forall e | e in LeafRead(s, rq) && e.key == rq.key ensures rq.key in Contents(s) && Contents(s)[rq.key] == e.val {
      LeafEntryStored(s, e);
    }
  }

  lemma FastLeafOfDelete(s: State, key: Key, path: seq<nat>)
    requires Valid(s) && AllShaped(s.nodes) && Apply(s, IxDeleteFast(key, path)).Ok?
    ensures s.height > 0 && FastLeaf(s, path, key).Ok?
  {
    hide Valid, AllShaped, FastLeaf;
    if s.height == 0 {
      NoPathInEmptyTree(s, path, key);
    }
  }

  lemma LeafEntryStored(s: State, e: Entry)
    requires Valid(s) && s.height > 0
    ensures LeafOf(s, e.key).TLeaf? && (e in LeafOf(s, e.key).es ==> e in StateEntries(s))
  {
    LookupInLeaf(TreeOf(s), e, s.height, 0, KEY_LIMIT, Occ(s.fanout, 0));
  }

  ghost function OrdersOf(m: Market, side: Side): map<Key, Val>
    requires Sound(m)
  {
    Contents(m.Book(side))
  }

  // The order leaves the book, and what it still held goes to an account of its maker: an ask's size
  // from the base vault, a bid's price times size from the quote vault. No other balance changes.
  ghost predicate Refunded(m: Market, m': Market, rq: CancelRq)
    requires Sound(m) && Sound(m')
  {
    && rq.key in OrdersOf(m, rq.side) && OrdersOf(m', rq.side) == OrdersOf(m, rq.side) - {rq.key}
    && OwnerOf(m.tokens, rq.dst) == Some(rq.maker)
    && (var v := OrdersOf(m, rq.side)[rq.key];
        && |v| == 40 && v[..32] == rq.maker
        && (var amount := if rq.side == Ask then Num(v[32..]) else PriceAt(Bid, rq.key) * Num(v[32..]);
            forall a ::
              Balance(m'.tokens, a) == Balance(m.tokens, a)
                + (if a == rq.dst then amount else 0) - (if a == (if rq.side == Ask then m.baseVault else m.quoteVault) then amount else 0)))
  }

  lemma CancelStep(m: Market, rq: CancelRq, m': Market)
    requires Sound(m) && ShapedBooks(m) && Cancel(m, rq) == Ok(m')
    ensures KeepsBooks(m, m', RefundsOf(m, rq)) && Refunded(m, m', rq)
    ensures RefundsOf(m, rq) == [Released(rq.side, rq.key, EscrowFor(m, rq.side, rq.key))]
    ensures forall v | IsVault(m, v) :: Moved(m, m'.tokens, RefundsOf(m, rq), v, 0)
  {
    hide GoodBook, Apply, EscrowChange, Contents, AllShaped, Accounted, Transfer, Balance, Moved, LeafRead, OrderIn,
      VaultOk, Cancel, CheckMint, OwnerOf;
    OneBook(m, rq.side);
    CancelReadsOrder(m, rq);
    var s := m.Book(rq.side);
    var v := Contents(s)[rq.key];
    var amount := Escrow(rq.side, PriceAt(rq.side, rq.key), SizeOf(v));
    CancelMakes(m, rq, m', SizeOf(v));
    var mv := Move(m.Vault(rq.side), rq.dst, m.book, amount);
    OrderRemoved(m.book, rq.side, s, rq.key, rq.path);
    TransferMoves(m.tokens, mv);
    HoldersKept(m.tokens, m'.tokens, m.baseVault, m.baseMint, m.book);
    HoldersKept(m.tokens, m'.tokens, m.quoteVault, m.quoteMint, m.book);
    var ev := Released(rq.side, rq.key, amount);
    EventReleases(m, m', ev);
    ReleaseMoves(m, m'.tokens, ev, rq.dst);
    NotTheVault(m, rq);
  }

  lemma CancelRefunds(m: Market, rq: CancelRq)
    requires ShapedBooks(m)
    ensures Sound(m) && Cancel(m, rq).Ok? ==>
            && KeepsBooks(m, Cancel(m, rq).value, [Released(rq.side, rq.key, EscrowFor(m, rq.side, rq.key))])
            && Refunded(m, Cancel(m, rq).value, rq)
  {
    hide Sound, Cancel, ShapedBooks, KeepsBooks, Refunded, EscrowFor, Moved, RefundsOf;
    if Sound(m) && Cancel(m, rq).Ok? {
      CancelStep(m, rq, Cancel(m, rq).value);
      CancelKept(m, rq);
    }
  }

  lemma CancelKept(m: Market, rq: CancelRq)
    requires ShapedBooks(m) && Sound(m) && Cancel(m, rq).Ok? && KeepsBooks(m, Cancel(m, rq).value, RefundsOf(m, rq))
    requires RefundsOf(m, rq) == [Released(rq.side, rq.key, EscrowFor(m, rq.side, rq.key))]
    ensures Sound(Cancel(m, rq).value)
  {
    hide Sound, Cancel, ShapedBooks, EscrowFor, Accounted, RefundsOf;
  }

  lemma CancelMakes(m: Market, rq: CancelRq, m': Market, size: U64)
    requires ShapedBooks(m) && Cancel(m, rq) == Ok(m') && |rq.path| > 0
    requires OrderIn(LeafRead(m.Book(rq.side), rq), rq.key) == Some((size, rq.maker))
    ensures var amount := Escrow(rq.side, PriceAt(rq.side, rq.key), size);
            && amount <= U64_MAX
            && Transfer(m.tokens, Move(m.Vault(rq.side), rq.dst, m.book, amount)).Ok?
            && Apply(m.Book(rq.side), IxDeleteFast(rq.key, rq.path)).Ok?
            && m' == m.(tokens := Transfer(m.tokens, Move(m.Vault(rq.side), rq.dst, m.book, amount)).value)
                      .WithBook(rq.side, Apply(m.Book(rq.side), IxDeleteFast(rq.key, rq.path)).value)
            && RefundsOf(m, rq) == [Released(rq.side, rq.key, amount)]
    ensures rq.maker != m.book && OwnerOf(m.tokens, rq.dst) == Some(rq.maker)
  {
    hide AllShaped, Transfer, Apply, LeafRead, OrderIn, CheckMint, OwnerOf;
  }

  lemma NotTheVault(m: Market, rq: CancelRq)
    requires Sound(m) && rq.maker != m.book && OwnerOf(m.tokens, rq.dst) == Some(rq.maker)
    ensures !IsVault(m, rq.dst)
  {
  }

  // Price times size of any order read from a leaf of the book is a u64: the overflow check of
  // cancel never fires on one.
  lemma CancelProductFits(m: Market, rq: CancelRq)
    requires Sound(m) && |rq.path| > 0 && m.Book(rq.side).At(rq.path[|rq.path| - 1]).Leaf?
    requires OrderIn(LeafRead(m.Book(rq.side), rq), rq.key).Some?
    ensures PriceAt(rq.side, rq.key) * OrderIn(LeafRead(m.Book(rq.side), rq), rq.key).value.0 <= U64_MAX
  {
    hide GoodBook, OrderIn, Contents;
    var s := m.Book(rq.side);
    OneBook(m, rq.side);
    OrderFound(LeafRead(s, rq), rq.key);
    LeafGood(m.book, rq.side, s, rq.path[|rq.path| - 1]);
  }

  lemma LeafGood(book: Pubkey, side: Side, s: State, x: nat)
    requires GoodBook(book, side, s) && s.At(x).Leaf?
    ensures AllGood(book, side, s.At(x).es)
  {
    LeavesChain(s);
    hide Valid, StateEntries, GoodOrder, Gathered, LeafTo, Distinct;
    assert x in s.nodes;
    forall e | e in s.At(x).es ensures GoodOrder(book, side, e) {
      InGathered(s.nodes, Leaves(s), x, e);
    }
  }
}
