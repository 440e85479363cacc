// The escrow order book: two trees, two vaults, and what each instruction does to them.
module Markets {
  import opened Base
  import opened Bytes
  import opened NodeViews
  import opened Engine
  import opened Runs
  import opened OrderKeys
  import opened Tokens
  import opened Orders
  import opened LeafChain
  import opened Sweep

  const MAXK: nat := 8
  const MAX_SWEPT: nat := 64

  // `book` is the program-derived address that owns both vaults and is the only writer of both
  // trees. It has no private key, so it never signs a transaction itself.
  datatype Market = Market(book: Pubkey, baseMint: Pubkey, quoteMint: Pubkey, baseVault: Pubkey, quoteVault: Pubkey,
                           minSize: U64, asks: State, bids: State, tokens: Ledger) {
    function Book(side: Side): State {
      if side == Ask then asks else bids
    }

    function WithBook(side: Side, s: State): Market {
      if side == Ask then this.(asks := s) else this.(bids := s)
    }

    // Where an order of this side is escrowed, and in what.
    function Vault(side: Side): Pubkey {
      if side == Ask then baseVault else quoteVault
    }

    function Mint(side: Side): Pubkey {
      if side == Ask then baseMint else quoteMint
    }

    // What a taker of this side pays in.
    function PayMint(side: Side): Pubkey {
      if side == Ask then quoteMint else baseMint
    }
  }

  predicate ShapedBooks(m: Market) {
    AllShaped(m.asks.nodes) && AllShaped(m.bids.nodes)
  }

  function MintOf(l: Ledger, a: Pubkey): Option<Pubkey> {
    if a in l then Some(l[a].mint) else None
  }

  function OwnerOf(l: Ledger, a: Pubkey): Option<Pubkey> {
    if a in l then Some(l[a].owner) else None
  }

  // The account must be a token account of this mint.
  function CheckMint(l: Ledger, a: Pubkey, mint: Pubkey): Option<Error> {
    if a !in l then Some(IllegalOwner) else if l[a].mint != mint then Some(InvalidArgument) else None
  }

  // ---- placing ----

  // `slot` is the clock's; `src` the token account the maker pays from.
  datatype Terms = Terms(side: Side, price: U64, size: U64, slot: U64, nonce: U64, maker: Pubkey, src: Pubkey)

  function OrderEntry(o: Terms): Entry {
    Entry(KeyNumber(o.side, o.price, o.slot, o.maker, o.nonce), OrderValue(o.maker, o.size))
  }

  // The order's key holds the fields it was placed with: in its 32 bytes, eight by eight, the price
  // (a bid's upside down), the slot, the first of the maker's and the nonce.
  predicate KeyReads(o: Terms, key: Key) {
    var d := Digits(key, 32);
    && |d| == 32
    && Num(d[..8]) == (if o.side == Ask then o.price else 0xFFFF_FFFF_FFFF_FFFF - o.price)
    && Num(d[8..16]) == o.slot && d[16..24] == o.maker[..8] && Num(d[24..]) == o.nonce
    && PriceAt(o.side, key) == o.price && SlotAt(key) == o.slot
  }

  // And its value maker and size, the size in eight big-endian bytes behind the maker.
  predicate ValueReads(o: Terms, v: Val) {
    |v| == 40 && v[..32] == o.maker && Num(v[32..]) == o.size
  }

  lemma EntryReads(o: Terms)
    ensures KeyReads(o, OrderEntry(o).key) && ValueReads(o, OrderEntry(o).val)
    ensures Digits(OrderEntry(o).key, 32) == OrderKey(o.side, o.price, o.slot, o.maker, o.nonce)
  {
    hide Num, Digits;
    KeysAreNumbers(OrderKey(o.side, o.price, o.slot, o.maker, o.nonce), 0);
    OrderKeyFields(o.side, o.price, o.slot, o.maker, o.nonce);
    DigitsFit(o.size);
    ValueParts(o.maker, Digits(o.size, 8));
  }

  lemma ValueParts(a: seq<Byte>, b: seq<Byte>)
    requires |a| == 32 && |b| == 8
    ensures (a + b)[..32] == a && (a + b)[32..] == b
  {
  }

  // Only one key does.
  lemma KeyReadsOnly(o: Terms, key: Key)
    requires KeyReads(o, key)
    ensures key == OrderEntry(o).key
  {
    hide Num, Digits, PriceOf, SlotOf, OrderKey;
    var d := Digits(key, 32);
    KeysAreNumbers(d, key);
    OrderKeyOfFields(o.side, d, o.maker);
  }

  // The checks of a placement, and the escrow it pays.
  function Admit(m: Market, o: Terms): Result<Ledger> {
    if o.maker == m.book then Err(MissingSignature)
    else if OwnerOf(m.tokens, m.Vault(o.side)) != Some(m.book) then Err(IllegalOwner)
    else if CheckMint(m.tokens, o.src, m.Mint(o.side)).Some? then Err(CheckMint(m.tokens, o.src, m.Mint(o.side)).value)
    else if o.size < m.minSize || o.price == 0 then Err(InvalidArgument)
    else if o.price * o.size > U64_MAX then Err(ArithmeticOverflow)
    else Transfer(m.tokens, Move(o.src, m.Vault(o.side), o.maker, if o.side == Ask then o.size else o.price * o.size))
  }

  function Place(m: Market, o: Terms, path: seq<nat>): Result<Market>
    requires ShapedBooks(m)
  {
    var l :- Admit(m, o);
    var s :- Apply(m.Book(o.side), IxInsertFast(OrderEntry(o), path));
    Ok(m.(tokens := l).WithBook(o.side, s))
  }

  // The book signs a cold Insert as one more account, behind the spares (cpi/src/lib.rs:147); the
  // engine counts it like the others. In a hot instruction the book is the account the engine
  // expects anyway.
  function InvokeCold(s: State, ix: Ix): Result<State>
    requires AllShaped(s.nodes)
  {
    if Accounts(ix) + 1 > MAX_ACCOUNTS then Err(InvalidArgument) else Apply(s, ix)
  }

  function PlaceCold(m: Market, o: Terms, path: seq<nat>, spares: seq<nat>): Result<Market>
    requires ShapedBooks(m)
  {
    var l :- Admit(m, o);
    var s :- InvokeCold(m.Book(o.side), IxInsert(OrderEntry(o), path, spares));
    Ok(m.(tokens := l).WithBook(o.side, s))
  }

  // ---- cancelling ----

  // `foreign` is what the last account reads as where it is no leaf of this tree.
  datatype CancelRq = CancelRq(side: Side, key: Key, maker: Pubkey, dst: Pubkey, path: seq<nat>, foreign: seq<Entry>)

  function LeafRead(s: State, rq: CancelRq): seq<Entry>
    requires |rq.path| > 0
  {
    match s.At(rq.path[|rq.path| - 1])
    case Leaf(es, _) => es
    case Inner(_, _) => rq.foreign
  }

  // The first order in `es` under `key`.
  function OrderIn(es: seq<Entry>, key: Key): Option<(U64, Pubkey)> {
    if es == [] then None
    else if es[0].key == key then
      if Formed(es[0].val) then Some((SizeOf(es[0].val), MakerOf(es[0].val))) else None
    else OrderIn(es[1..], key)
  }

  function Cancel(m: Market, rq: CancelRq): Result<Market>
    requires ShapedBooks(m)
  {
    if |rq.path| == 0 then Err(NotEnoughAccounts)
    else if rq.maker == m.book then Err(MissingSignature)
    else
      match OrderIn(LeafRead(m.Book(rq.side), rq), rq.key)
      case None => Err(InvalidArgument)
      case Some((size, maker)) =>
        if maker != rq.maker then Err(IllegalOwner)
        else if CheckMint(m.tokens, rq.dst, m.Mint(rq.side)).Some? then Err(CheckMint(m.tokens, rq.dst, m.Mint(rq.side)).value)
        else if OwnerOf(m.tokens, rq.dst) != Some(rq.maker) then Err(IllegalOwner)
        else if rq.side == Bid && PriceAt(Bid, rq.key) * size > U64_MAX then Err(ArithmeticOverflow)
        else
          var refund := Escrow(rq.side, PriceAt(rq.side, rq.key), size);
          var l :- Transfer(m.tokens, Move(m.Vault(rq.side), rq.dst, m.book, refund));
          var s :- Apply(m.Book(rq.side), IxDeleteFast(rq.key, rq.path));
          Ok(m.(tokens := l).WithBook(rq.side, s))
  }

  // ---- matching ----

  // `makers` are the accounts the fills pay, `groups` the leaf paths to sweep, best first.
  datatype MatchRq = MatchRq(side: Side, limit: U64, size: U64, maxFills: nat, taker: Pubkey, recv: Pubkey, pay: Pubkey,
                             makers: seq<Pubkey>, height: nat, groups: seq<seq<nat>>) {
    function Slots(): nat {
      Min(maxFills, MAXK)
    }

    // The accounts cover what the instruction says it comes with.
    predicate Covered() {
      |makers| == Slots() && forall g | g in groups :: |g| == height
    }

    function Leaves(): (ls: seq<nat>)
      requires height > 0 && Covered()
      ensures |ls| == |groups|
    {
      seq(|groups|, i requires 0 <= i < |groups| => groups[i][height - 1])
    }
  }

  function FillMoves(m: Market, rq: MatchRq, f: Fill, maker: Pubkey): seq<Move>
    requires f.price * f.fill <= U64_MAX
  {
    [Move(m.Vault(rq.side), rq.recv, m.book, Escrow(rq.side, f.price, f.fill)),
     Move(rq.pay, maker, rq.taker, Counter(rq.side, f.price, f.fill))]
  }

  predicate Inside(gs: seq<nat>, n: nat) {
    forall i | 0 <= i < |gs| :: gs[i] < n
  }

  // What the engine is asked to do about a fill.
  function FillIx(f: Fill, path: seq<nat>): Ix {
    if f.left == 0 then IxDeleteFast(f.key, path) else IxUpdateFast(Entry(f.key, OrderValue(f.maker, f.left)), path)
  }

  lemma FillShaped(s: State, f: Fill, path: seq<nat>)
    requires AllShaped(s.nodes) && Apply(s, FillIx(f, path)).Ok?
    ensures AllShaped(Apply(s, FillIx(f, path)).value.nodes)
  {
    hide FastLeaf, Holds, Removed, Updated;
  }

  // One fill: release the escrow, collect the payment, and shrink or remove the order.
  function SettleOne(m: Market, rq: MatchRq, f: Fill, maker: Pubkey, path: seq<nat>): (r: Result<Market>)
    requires ShapedBooks(m)
    ensures r.Ok? ==> ShapedBooks(r.value)
  {
    if OwnerOf(m.tokens, maker) != Some(f.maker) then Err(IllegalOwner)
    else if MintOf(m.tokens, maker) != Some(m.PayMint(rq.side)) then Err(InvalidArgument)
    else if f.price * f.fill > U64_MAX then Err(ArithmeticOverflow)
    else
      var l :- TransferAll(m.tokens, FillMoves(m, rq, f, maker));
      var s :- Apply(m.Book(rq.side), FillIx(f, path));
      FillShaped(m.Book(rq.side), f, path);
      Ok(m.(tokens := l).WithBook(rq.side, s))
  }

  function Settle(m: Market, rq: MatchRq, sw: Swept, j: nat): Result<Market>
    requires ShapedBooks(m) && j <= |sw.fills| == |sw.grps| <= |rq.makers| && Inside(sw.grps, |rq.groups|)
    decreases |sw.fills| - j
  {
    if j == |sw.fills| then Ok(m)
    else
      var m1 :- SettleOne(m, rq, sw.fills[j], rq.makers[j], rq.groups[sw.grps[j]]);
      Settle(m1, rq, sw, j + 1)
  }

  function SweepBook(m: Market, rq: MatchRq): (r: Result<Swept>)
    requires FormedBook(m.Book(rq.side)) && rq.height > 0 && rq.Covered()
    ensures r.Ok? ==> |r.value.fills| == |r.value.grps| <= rq.Slots()
    ensures r.Ok? ==> Inside(r.value.grps, |rq.groups|)
  {
    GroupsInside(m.Book(rq.side), rq.side, rq.limit, rq.Leaves(), 0, m.Book(rq.side).leftmost, rq.size, rq.Slots());
    SweepFrom(m.Book(rq.side), rq.side, rq.limit, rq.Leaves(), 0, m.Book(rq.side).leftmost, rq.size, rq.Slots())
  }

  lemma {:induction false} GroupsInside(s: State, side: Side, limit: U64, leaves: seq<nat>, g: nat, expected: nat, want: nat, slots: nat)
    requires g <= |leaves| && FormedBook(s)
    ensures var r := SweepFrom(s, side, limit, leaves, g, expected, want, slots);
            r.Ok? ==> Inside(r.value.grps, |leaves|)
    decreases |leaves| - g
  {
    hide Greedy, Stops, Filled, FormedBook, AllFormed;
    if g < |leaves| && want > 0 && slots > 0 && leaves[g] in s.nodes && leaves[g] == expected && expected !in leaves[..g] && s.nodes[expected].Leaf? {
      LeafFormed(s, expected);
      var es := s.nodes[expected].es;
      FilledAtMost(side, limit, es, want, slots);
      var fs := Greedy(side, limit, es, want, slots);
      GroupsInside(s, side, limit, leaves, g + 1, s.nodes[expected].next, want - Filled(fs), slots - |fs|);
    }
  }

  function Match(m: Market, rq: MatchRq): Result<(Market, seq<Fill>)>
    requires ShapedBooks(m) && FormedBook(m.Book(rq.side))
  {
    if |rq.groups| == 0 || rq.height == 0 then Err(BadIxData)
    else if !rq.Covered() then Err(NotEnoughAccounts)
    else if rq.taker == m.book then Err(MissingSignature)
    else if CheckMint(m.tokens, rq.recv, m.Mint(rq.side)).Some? then Err(CheckMint(m.tokens, rq.recv, m.Mint(rq.side)).value)
    else if CheckMint(m.tokens, rq.pay, m.PayMint(rq.side)).Some? then Err(CheckMint(m.tokens, rq.pay, m.PayMint(rq.side)).value)
    else if |rq.groups| > MAX_SWEPT then Err(BadIxData)
    else
      var sw :- SweepBook(m, rq);
      var m1 :- Settle(m, rq, sw, 0);
      Ok((m1, sw.fills))
  }

  // ---- the market's life ----

  predicate VaultOk(l: Ledger, vault: Pubkey, mint: Pubkey, book: Pubkey) {
    OwnerOf(l, vault) == Some(book) && MintOf(l, vault) == Some(mint)
  }

  // No order with a size: at most one node, and every value in it of size 0.
  function CleanBook(s: State, root: nat): Option<Error> {
    if s.height > 1 then Some(InvalidArgument)
    else if s.height == 0 then None
    else if root !in s.nodes then Some(WrongOwner)
    else if root != s.root then Some(InvalidArgument)
    else
      match s.nodes[root]
      case Inner(_, _) => None
      case Leaf(es, _) =>
        if forall e | e in es :: Formed(e.val) && SizeOf(e.val) == 0 then None else Some(InvalidArgument)
  }

  // `m` is the market as the client declares it; askRoot and bidRoot are the root accounts supplied.
  function InitMarket(m: Market, askRoot: nat, bidRoot: nat): Result<Market> {
    if m.minSize == 0 then Err(InvalidArgument)
    else if m.baseVault !in m.tokens then Err(IllegalOwner)
    else if !VaultOk(m.tokens, m.baseVault, m.baseMint, m.book) then Err(InvalidArgument)
    else if m.quoteVault !in m.tokens then Err(IllegalOwner)
    else if !VaultOk(m.tokens, m.quoteVault, m.quoteMint, m.book) then Err(InvalidArgument)
    else
      match CleanBook(m.asks, askRoot)
      case Some(e) => Err(e)
      case None =>
        match CleanBook(m.bids, bidRoot)
        case Some(e) => Err(e)
        case None => Ok(m)
  }

  // Escrow going into and out of the book, order by order.
  datatype Event = Locked(side: Side, key: Key, amount: nat) | Released(side: Side, key: Key, amount: nat)

  datatype MarketIx =
    | IxPlace(o: Terms, path: seq<nat>)
    | IxPlaceCold(o: Terms, path: seq<nat>, spares: seq<nat>)
    | IxCancel(cancel: CancelRq)
    | IxMatch(take: MatchRq)
    | External(after: Ledger)      // anything else that happens to token accounts

  // Without the book's signature nothing leaves a vault; anyone may pay in.
  predicate LeavesVaults(m: Market, l: Ledger) {
    && VaultOk(l, m.baseVault, m.baseMint, m.book) && VaultOk(l, m.quoteVault, m.quoteMint, m.book)
    && Balance(l, m.baseVault) >= Balance(m.tokens, m.baseVault)
    && Balance(l, m.quoteVault) >= Balance(m.tokens, m.quoteVault)
  }

  function ReleasesOf(side: Side, fs: seq<Fill>): seq<Event> {
    if fs == [] then [] else [Released(side, fs[0].key, Escrow(side, fs[0].price, fs[0].fill))] + ReleasesOf(side, fs[1..])
  }

  function LocksOf(o: Terms): seq<Event> {
    [Locked(o.side, OrderEntry(o).key, Escrow(o.side, o.price, o.size))]
  }

  function RefundsOf(m: Market, rq: CancelRq): seq<Event> {
    if |rq.path| == 0 then []
    else
      match OrderIn(LeafRead(m.Book(rq.side), rq), rq.key)
      case None => []
      case Some((size, _)) => [Released(rq.side, rq.key, Escrow(rq.side, PriceAt(rq.side, rq.key), size))]
  }

  function Step(m: Market, ix: MarketIx): Result<(Market, seq<Event>)>
    requires ShapedBooks(m) && FormedBook(m.asks) && FormedBook(m.bids)
  {
    match ix
    case IxPlace(o, path) =>
      var m1 :- Place(m, o, path);
      Ok((m1, LocksOf(o)))
    case IxPlaceCold(o, path, spares) =>
      var m1 :- PlaceCold(m, o, path, spares);
      Ok((m1, LocksOf(o)))
    case IxCancel(rq) =>
      var m1 :- Cancel(m, rq);
      Ok((m1, RefundsOf(m, rq)))
    case IxMatch(rq) =>
      var r :- Match(m, rq);
      Ok((r.0, ReleasesOf(rq.side, r.1)))
    case External(l) =>
      if LeavesVaults(m, l) then Ok((m.(tokens := l), [])) else Err(TransferRefused)
  }
}
