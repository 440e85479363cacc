// The order book as the program runs it: balances and trees change call by call.
// An error return leaves whatever was done before it; the runtime rolls all of it back.
module BookProgram {
  import opened Base
  import opened NodeViews
  import opened Engine
  import opened Represent
  import opened Runs
  import opened OrderKeys
  import opened Tokens
  import opened Orders
  import opened Sweep
  import opened Markets
  import opened Solvency
  import opened Settlement
  import MarketRuns

  const NO_KEY: Pubkey := seq(32, _ => 0)

  // What the sweep writes down about each fill, in six arrays side by side.
  class Slate {
    const keys: array<Key>
    const makers: array<Pubkey>
    const prices: array<U64>
    const fills: array<U64>
    const newSizes: array<U64>
    const grp: array<nat>

    ghost predicate Apart() {
      && keys.Length == makers.Length == prices.Length == fills.Length == newSizes.Length == grp.Length == MAXK
      && prices != fills && prices != newSizes && fills != newSizes
    }

    ghost function Parts(): set<object> {
      {keys as object, makers as object, prices as object, fills as object, newSizes as object, grp as object}
    }

    ghost function At(i: nat): Fill
      requires Apart() && i < MAXK
      reads Parts()
    {
      Fill(keys[i], makers[i], prices[i], fills[i], newSizes[i])
    }

    // The first `n` fills, and the leaf group of each.
    ghost function Taken(n: nat): (fs: seq<Fill>)
      requires Apart() && n <= MAXK
      reads Parts()
      ensures |fs| == n && forall i | 0 <= i < n :: fs[i] == At(i)
    {
      seq(n, i requires 0 <= i < n reads Parts() => At(i))
    }

    constructor ()
      ensures Apart() && forall o | o in Parts() :: fresh(o)
    {
      keys := new Key[MAXK](_ => 0);
      makers := new Pubkey[MAXK](_ => NO_KEY);
      prices := new U64[MAXK](_ => 0);
      fills := new U64[MAXK](_ => 0);
      newSizes := new U64[MAXK](_ => 0);
      grp := new nat[MAXK](_ => 0);
      new;
    }

    ghost function Noted(n: nat): Swept
      requires Apart() && n <= MAXK
      reads Parts()
    {
      Swept(Taken(n), grp[..n])
    }

    method Put(n: nat, key: Key, maker: Pubkey, price: U64, fill: U64, left: U64, g: nat)
      requires Apart() && n < MAXK
      modifies Parts()
      ensures Noted(n + 1) == Plus(old(Noted(n)), [Fill(key, maker, price, fill, left)], g)
    {
      keys[n] := key;
      makers[n] := maker;
      prices[n], fills[n], newSizes[n], grp[n] := price, fill, left, g;
      assert Taken(n) == old(Taken(n)) by {
        assert forall i | 0 <= i < n :: At(i) == old(At(i));
      }
    }
  }

  lemma NotedLength(slate: Slate, n: nat)
    requires slate.Apart() && n <= MAXK
    ensures |slate.Noted(n).fills| == |slate.Noted(n).grps| == n
  {
  }

  lemma NotedAt(slate: Slate, n: nat, j: nat)
    requires slate.Apart() && j < n <= MAXK && |slate.Noted(n).fills| == |slate.Noted(n).grps| == n
    ensures slate.Noted(n).fills[j] == slate.At(j) && slate.Noted(n).grps[j] == slate.grp[j]
  {
  }

  // What the program reports of a fill.
  datatype Receipt = Receipt(maker: Pubkey, price: U64, fill: U64)

  function Receipts(fs: seq<Fill>): (rs: seq<Receipt>)
    ensures |rs| == |fs| && forall i | 0 <= i < |fs| :: rs[i] == Receipt(fs[i].maker, fs[i].price, fs[i].fill)
  {
    seq(|fs|, i requires 0 <= i < |fs| => Receipt(fs[i].maker, fs[i].price, fs[i].fill))
  }

  // `fs` more fills, all from leaf group `g`.
  function Plus(sw: Swept, fs: seq<Fill>, g: nat): Swept {
    Swept(sw.fills + fs, sw.grps + Copies(g, |fs|))
  }

  lemma PlusMore(sw: Swept, fs: seq<Fill>, f: Fill, g: nat)
    ensures Plus(Plus(sw, fs, g), [f], g) == Plus(sw, fs + [f], g) && Plus(sw, [], g) == sw
  {
    assert sw.fills + fs + [f] == sw.fills + (fs + [f]);
    assert Copies(g, |fs|) + Copies(g, 1) == Copies(g, |fs + [f]|);
    assert sw.grps + Copies(g, |fs|) + Copies(g, 1) == sw.grps + (Copies(g, |fs|) + Copies(g, 1));
    assert sw.grps + Copies(g, 0) == sw.grps && sw.fills + [] == sw.fills;
  }

  // ---- the program ----

  class OrderBook {
    const book: Pubkey
    const baseMint: Pubkey
    const quoteMint: Pubkey
    const baseVault: Pubkey
    const quoteVault: Pubkey
    const minSize: U64
    var asks: State
    var bids: State
    var tokens: Ledger

    function Abs(): Market
      reads this
    {
      Market(book, baseMint, quoteMint, baseVault, quoteVault, minSize, asks, bids, tokens)
    }

    constructor (m: Market)
      ensures Abs() == m
    {
      book, baseMint, quoteMint, baseVault, quoteVault := m.book, m.baseMint, m.quoteMint, m.baseVault, m.quoteVault;
      minSize, asks, bids, tokens := m.minSize, m.asks, m.bids, m.tokens;
    }

    // A tree may join a market only while nothing rests in it.
    static method CheckClean(s: State, root: nat) returns (e: Option<Error>)
      ensures e == CleanBook(s, root)
    {
      if s.height > 1 {
        return Some(InvalidArgument);
      }
      if s.height == 1 {
        if root !in s.nodes {
          return Some(WrongOwner);
        }
        if root != s.root {
          return Some(InvalidArgument);
        }
        if s.nodes[root].Leaf? {
          var es := s.nodes[root].es;
          var i := 0;
          while i < |es|
            invariant 0 <= i <= |es| && forall k | 0 <= k < i :: Formed(es[k].val) && SizeOf(es[k].val) == 0
          {
            if !Formed(es[i].val) || SizeOf(es[i].val) != 0 {
              return Some(InvalidArgument);
            }
            i := i + 1;
          }
        }
      }
      return None;
    }

    static method Init(m: Market, askRoot: nat, bidRoot: nat) returns (r: Result<OrderBook>)
      ensures match InitMarket(m, askRoot, bidRoot)
              case Ok(m') => r.Ok? && fresh(r.value) && r.value.Abs() == m'
              case Err(x) => r == Err(x)
      ensures r.Ok? && Valid(m.asks) && Valid(m.bids) ==>
              Sound(r.value.Abs()) && (forall side :: Escrowed(r.value.Abs(), side) == 0)
    {
      InitOwesNothing(m, askRoot, bidRoot);
      hide CleanBook, VaultOk, Valid, Sound, Escrowed;
      if m.minSize == 0 {
        return Err(InvalidArgument);
      }
      if m.baseVault !in m.tokens {
        return Err(IllegalOwner);
      }
      if !VaultOk(m.tokens, m.baseVault, m.baseMint, m.book) {
        return Err(InvalidArgument);
      }
      if m.quoteVault !in m.tokens {
        return Err(IllegalOwner);
      }
      if !VaultOk(m.tokens, m.quoteVault, m.quoteMint, m.book) {
        return Err(InvalidArgument);
      }
      var e := CheckClean(m.asks, askRoot);
      if e.Some? {
        return Err(e.value);
      }
      e := CheckClean(m.bids, bidRoot);
      if e.Some? {
        return Err(e.value);
      }
      var b := new OrderBook(m);
      return Ok(b);
    }

    // A call of the token program.
    method TokenTransfer(src: Pubkey, dst: Pubkey, authority: Pubkey, amount: U64) returns (e: Option<Error>)
      modifies this`tokens
      ensures match Transfer(old(tokens), Move(src, dst, authority, amount))
              case Ok(l) => e == None && tokens == l
              case Err(x) => e == Some(x)
    {
      var r := Transfer(tokens, Move(src, dst, authority, amount));
      match r {
        case Ok(l) => tokens := l; e := None;
        case Err(x) => e := Some(x);
      }
    }

    // A call of the engine on one side of the book.
    method Invoke(side: Side, ix: Ix) returns (e: Option<Error>)
      requires ShapedBooks(Abs())
      modifies this`asks, this`bids
      ensures match Apply(old(Abs()).Book(side), ix)
              case Ok(s) => e == None && Abs() == old(Abs()).WithBook(side, s)
              case Err(x) => e == Some(x)
    {
      hide AllShaped, Apply;
      var r := Apply(if side == Ask then asks else bids, ix);
      match r {
        case Ok(s) =>
          if side == Ask { asks := s; } else { bids := s; }
          e := None;
        case Err(x) => e := Some(x);
      }
    }

    // The checks of a placement, and the escrow transfer.
    method TakeEscrow(o: Terms) returns (e: Option<Error>)
      modifies this`tokens
      ensures match Admit(old(Abs()), o)
              case Ok(l) => e == None && Abs() == old(Abs()).(tokens := l)
              case Err(x) => e == Some(x)
    {
      if o.maker == book {
        return Some(MissingSignature);
      }
      var vault := if o.side == Ask then baseVault else quoteVault;
      var mint := if o.side == Ask then baseMint else quoteMint;
      if OwnerOf(tokens, vault) != Some(book) {
        return Some(IllegalOwner);
      }
      var wrong := CheckMint(tokens, o.src, mint);
      if wrong.Some? {
        return wrong;
      }
      if o.size < minSize || o.price == 0 {
        return Some(InvalidArgument);
      }
      var notional := o.price * o.size;
      if notional > U64_MAX {
        return Some(ArithmeticOverflow);
      }
      var escrow: U64 := if o.side == Ask then o.size else notional;
      e := TokenTransfer(o.src, vault, o.maker, escrow);
    }

    method Place(o: Terms, path: seq<nat>) returns (r: Result<Key>)
      requires ShapedBooks(Abs())
      modifies this
      ensures match Markets.Place(old(Abs()), o, path)
              case Ok(m) => r == Ok(OrderEntry(o).key) && Abs() == m
              case Err(x) => r == Err(x)
      ensures r.Ok? ==> KeyReads(o, r.value)
      ensures r.Ok? && Sound(old(Abs())) ==> Rested(old(Abs()), Abs(), o)
    {
      hide AllShaped, Apply, Admit, Sound, Rested, KeyReads, ValueReads;
      EntryReads(o);
      PlaceRests(Abs(), o, path);
      var e := TakeEscrow(o);
      if e.Some? {
        return Err(e.value);
      }
      var key := KeyNumber(o.side, o.price, o.slot, o.maker, o.nonce);
      e := Invoke(o.side, IxInsertFast(Entry(key, OrderValue(o.maker, o.size)), path));
      if e.Some? {
        return Err(e.value);
      }
      return Ok(key);
    }

    method PlaceCold(o: Terms, path: seq<nat>, spares: seq<nat>) returns (r: Result<Key>)
      requires ShapedBooks(Abs())
      modifies this
      ensures match Markets.PlaceCold(old(Abs()), o, path, spares)
              case Ok(m) => r == Ok(OrderEntry(o).key) && Abs() == m
              case Err(x) => r == Err(x)
      ensures r.Ok? ==> KeyReads(o, r.value)
      ensures r.Ok? && Sound(old(Abs())) ==> Rested(old(Abs()), Abs(), o)
    {
      hide AllShaped, Apply, Admit, Sound, Rested, KeyReads, ValueReads;
      EntryReads(o);
      PlaceColdRests(Abs(), o, path, spares);
      var e := TakeEscrow(o);
      if e.Some? {
        return Err(e.value);
      }
      var key := KeyNumber(o.side, o.price, o.slot, o.maker, o.nonce);
      if 5 + |path| + |spares| > MAX_ACCOUNTS {
        return Err(InvalidArgument);
      }
      e := Invoke(o.side, IxInsert(Entry(key, OrderValue(o.maker, o.size)), path, spares));
      if e.Some? {
        return Err(e.value);
      }
      return Ok(key);
    }

    // Size and maker of `key` in a leaf.
    static method OrderInLeaf(es: seq<Entry>, key: Key) returns (r: Option<(U64, Pubkey)>)
      ensures r == OrderIn(es, key)
    {
      var i := 0;
      while i < |es|
        invariant 0 <= i <= |es| && OrderIn(es, key) == OrderIn(es[i..], key)
      {
        if es[i].key == key {
          if !Formed(es[i].val) {
            return None;
          }
          return Some((SizeOf(es[i].val), MakerOf(es[i].val)));
        }
        i := i + 1;
      }
      return None;
    }

    method Cancel(rq: CancelRq) returns (r: Result<()>)
      requires ShapedBooks(Abs())
      modifies this
      ensures match Markets.Cancel(old(Abs()), rq)
              case Ok(m) => r == Ok(()) && Abs() == m
              case Err(x) => r == Err(x)
      ensures r.Ok? && Sound(old(Abs())) ==>
              && KeepsBooks(old(Abs()), Abs(), [Released(rq.side, rq.key, EscrowFor(old(Abs()), rq.side, rq.key))])
              && Refunded(old(Abs()), Abs(), rq)
    {
      hide AllShaped, Apply, OrderIn, Transfer, Sound, KeepsBooks, Refunded, EscrowFor;
      CancelRefunds(Abs(), rq);
      if |rq.path| == 0 {
        return Err(NotEnoughAccounts);
      }
      if rq.maker == book {
        return Err(MissingSignature);
      }
      var s := if rq.side == Ask then asks else bids;
      var vault := if rq.side == Ask then baseVault else quoteVault;
      var mint := if rq.side == Ask then baseMint else quoteMint;
      var order := OrderInLeaf(LeafRead(s, rq), rq.key);
      if order == None {
        return Err(InvalidArgument);
      }
      var (size, maker) := order.value;
      if maker != rq.maker {
        return Err(IllegalOwner);
      }
      var wrong := CheckMint(tokens, rq.dst, mint);
      if wrong.Some? {
        return Err(wrong.value);
      }
      if OwnerOf(tokens, rq.dst) != Some(rq.maker) {
        return Err(IllegalOwner);
      }
      var refund: nat := size;
      if rq.side == Bid {
        refund := PriceAt(rq.side, rq.key) * size;
        if refund > U64_MAX {
          return Err(ArithmeticOverflow);
        }
      }
      var e := TokenTransfer(vault, rq.dst, book, refund);
      if e.Some? {
        return Err(e.value);
      }
      e := Invoke(rq.side, IxDeleteFast(rq.key, rq.path));
      if e.Some? {
        return Err(e.value);
      }
      return Ok(());
    }

    // The sweep of one leaf; `stop` at the first order that does not cross.
    static method SweepLeaf(side: Side, limit: U64, es: seq<Entry>, g: nat, maxFills: nat, slate: Slate, nf0: nat, remaining0: U64)
      returns (nf: nat, remaining: U64, stop: bool)
      requires slate.Apart() && nf0 <= maxFills <= MAXK && AllFormed(es)
      modifies slate.Parts()
      ensures var fs := Greedy(side, limit, es, remaining0, maxFills - nf0);
              && nf == nf0 + |fs| <= maxFills && remaining == remaining0 - Filled(fs)
              && slate.Noted(nf) == Plus(old(slate.Noted(nf0)), fs, g)
      ensures stop == Stops(side, limit, es, remaining0, maxFills - nf0)
    {
      hide Greedy, Stops, Crosses, AllFormed, Formed, FillOf, Filled, Plus, InLeaf, Slate.Noted;
      nf, remaining, stop := nf0, remaining0, false;
      var i := 0;
      ghost var fs: seq<Fill> := [];
      var whole := Looking(side, limit, es, remaining0, maxFills - nf0);
      LeafStarts(whole);
      PlusMore(slate.Noted(nf0), [], Fill(0, NO_KEY, 0, 0, 0), g);
      while i < |es|
        invariant 0 <= i <= |es| && nf == nf0 + |fs| <= maxFills && !stop
        invariant InLeaf(whole, fs, Looking(side, limit, es[i..], remaining, maxFills - nf))
        invariant slate.Noted(nf) == Plus(old(slate.Noted(nf0)), fs, g)
      {
        if remaining == 0 || nf >= maxFills {
          break;
        }
        ghost var here := Looking(side, limit, es[i..], remaining, maxFills - nf);
        assert es[i..][1..] == es[i + 1..];
        RestFormed(whole, fs, here);
        var price := PriceAt(side, es[i].key);
        var cross := if side == Ask then price <= limit else price >= limit;
        CrossesIs(side, limit, es[i].key);
        if !cross {
          stop := true;
          break;
        }
        var resting := SizeOf(es[i].val);
        if resting == 0 {
          LeafSkips(whole, fs, here);
        } else {
          var fill := if remaining < resting then remaining else resting;
          ghost var f := Fill(es[i].key, MakerOf(es[i].val), price, fill, resting - fill);
          LeafTakes(whole, fs, here, f);
          slate.Put(nf, es[i].key, MakerOf(es[i].val), price, fill, resting - fill, g);
          PlusMore(old(slate.Noted(nf0)), fs, f, g);
          fs := fs + [f];
          remaining := remaining - fill;
          nf := nf + 1;
        }
        i := i + 1;
      }
      LeafEnds(whole, fs, Looking(side, limit, es[i..], remaining, maxFills - nf), stop);
    }

    // The sweep of the leaves a taker supplies: each must be the one the chain names next.
    static method SweepChain(s: State, side: Side, limit: U64, leaves: seq<nat>, want: U64, maxFills: nat, slate: Slate) returns (r: Result<nat>)
      requires slate.Apart() && maxFills <= MAXK && |leaves| <= MAX_SWEPT && FormedBook(s)
      modifies slate.Parts()
      ensures match SweepFrom(s, side, limit, leaves, 0, s.leftmost, want, maxFills)
              case Ok(sw) => r.Ok? && r.value <= maxFills && slate.Noted(r.value) == sw
              case Err(x) => r == Err(x)
    {
      hide FormedBook, SweepFrom, Slate.Noted, Joined, Plus, Greedy, Stops, Filled;
      var seen := new nat[MAX_SWEPT](_ => 0);
      var g: nat, nf: nat, remaining: U64, expected := 0, 0, want, s.leftmost;
      ghost var whole := SweepFrom(s, side, limit, leaves, 0, s.leftmost, want, maxFills);
      NothingNoted(slate);
      JoinedNothing(whole, Swept([], []));
      while g < |leaves|
        invariant 0 <= g <= |leaves| && nf <= maxFills && fresh(seen) && seen.Length == MAX_SWEPT
        invariant seen[..g] == leaves[..g]
        invariant whole == Joined(slate.Noted(nf), SweepFrom(s, side, limit, leaves, g, expected, remaining, maxFills - nf))
      {
        if remaining == 0 || nf >= maxFills {
          break;
        }
        SweepRefused(s, side, limit, leaves, g, expected, remaining, maxFills - nf, slate.Noted(nf));
        if leaves[g] !in s.nodes {
          return Err(IllegalOwner);
        }
        if leaves[g] != expected || expected in seen[..g] {
          return Err(InvalidArgument);
        }
        if s.nodes[expected].Inner? {
          return Err(InvalidArgument);
        }
        seen[g] := expected;
        assert seen[..g + 1] == leaves[..g + 1];
        SweepStep(s, side, limit, leaves, g, remaining, maxFills - nf, slate.Noted(nf));
        var stop: bool;
        nf, remaining, stop := SweepLeaf(side, limit, s.nodes[expected].es, g, maxFills, slate, nf, remaining);
        if stop {
          return Ok(nf);
        }
        expected := s.nodes[expected].next;
        g := g + 1;
      }
      SweepOver(s, side, limit, leaves, g, expected, remaining, maxFills - nf, slate.Noted(nf));
      return Ok(nf);
    }

    // Settle one fill: release the escrow, collect the payment, shrink or remove the order.
    method SettleFill(rq: MatchRq, slate: Slate, j: nat) returns (e: Option<Error>)
      requires ShapedBooks(Abs()) && slate.Apart() && j < MAXK && j < |rq.makers| && slate.grp[j] < |rq.groups|
      modifies this
      ensures match SettleOne(old(Abs()), rq, slate.At(j), rq.makers[j], rq.groups[slate.grp[j]])
              case Ok(m) => e == None && Abs() == m
              case Err(x) => e == Some(x)
      ensures e == None && Sound(old(Abs())) && rq.taker != book && Resting(OrdersOf(old(Abs()), rq.side), rq.side, slate.At(j)) ==>
              FillSettled(old(Abs()), Abs(), rq, slate.At(j), rq.makers[j])
    {
      hide AllShaped, Apply, Transfer, Slate.Noted, Sound, Resting, OrdersOf, FillSettled;
      SettleOneSettles(Abs(), rq, slate.At(j), rq.makers[j], rq.groups[slate.grp[j]]);
      var makerRecv, maker, price, fill := rq.makers[j], slate.makers[j], slate.prices[j], slate.fills[j];
      var vault := if rq.side == Ask then baseVault else quoteVault;
      var payMint := if rq.side == Ask then quoteMint else baseMint;
      if OwnerOf(tokens, makerRecv) != Some(maker) {
        return Some(IllegalOwner);
      }
      if MintOf(tokens, makerRecv) != Some(payMint) {
        return Some(InvalidArgument);
      }
      var quote := price * fill;
      if quote > U64_MAX {
        return Some(ArithmeticOverflow);
      }
      ghost var m := Abs();
      ghost var mvs := FillMoves(m, rq, slate.At(j), makerRecv);
      TransferPair(tokens, mvs[0], mvs[1]);
      var release: U64, collect: U64 := if rq.side == Ask then fill else quote, if rq.side == Ask then quote else fill;
      e := TokenTransfer(vault, rq.recv, book, release);
      if e.Some? {
        return;
      }
      e := TokenTransfer(rq.pay, makerRecv, rq.taker, collect);
      if e.Some? {
        return;
      }
      var path := rq.groups[slate.grp[j]];
      if slate.newSizes[j] == 0 {
        e := Invoke(rq.side, IxDeleteFast(slate.keys[j], path));
      } else {
        e := Invoke(rq.side, IxUpdateFast(Entry(slate.keys[j], OrderValue(maker, slate.newSizes[j])), path));
      }
    }

    method SettleAll(rq: MatchRq, slate: Slate, nf: nat, ghost sw: Swept) returns (e: Option<Error>)
      requires ShapedBooks(Abs()) && slate.Apart() && nf <= MAXK && nf <= |rq.makers|
      requires slate.Noted(nf) == sw && |sw.fills| == |sw.grps| == nf && Inside(sw.grps, |rq.groups|)
      modifies this
      ensures match Settle(old(Abs()), rq, sw, 0)
              case Ok(m) => e == None && Abs() == m
              case Err(x) => e == Some(x)
    {
      hide AllShaped, SettleOne, Slate.Noted;
      assert this as object !in slate.Parts();
      ghost var m0 := Abs();
      var j := 0;
      while j < nf
        invariant 0 <= j <= nf && slate.Noted(nf) == sw && ShapedBooks(Abs())
        invariant Settle(m0, rq, sw, 0) == Settle(Abs(), rq, sw, j)
      {
        NotedAt(slate, nf, j);
        e := SettleFill(rq, slate, j);
        if e.Some? {
          return;
        }
        j := j + 1;
      }
      return None;
    }

    static method Report(slate: Slate, nf: nat) returns (out: seq<Receipt>)
      requires slate.Apart() && nf <= MAXK
      ensures out == Receipts(slate.Noted(nf).fills)
    {
      hide Slate.Noted;
      out := [];
      NotedLength(slate, nf);
      ghost var sw := slate.Noted(nf);
      for j := 0 to nf
        invariant slate.Noted(nf) == sw && |sw.fills| == |sw.grps| == nf
        invariant out == Receipts(sw.fills)[..j]
      {
        NotedAt(slate, nf, j);
        out := out + [Receipt(slate.makers[j], slate.prices[j], slate.fills[j])];
      }
    }

    // Returns maker, price and size of every fill.
    method Match(rq: MatchRq) returns (r: Result<seq<Receipt>>)
      requires ShapedBooks(Abs()) && FormedBook(Abs().Book(rq.side))
      modifies this
      ensures match Markets.Match(old(Abs()), rq)
              case Ok((m, fs)) => r == Ok(Receipts(fs)) && Abs() == m
              case Err(x) => r == Err(x)
      ensures r.Ok? && Sound(old(Abs())) ==> exists fs :: r.value == Receipts(fs) && MatchSettled(old(Abs()), Abs(), rq, fs)
    {
      hide AllShaped, FormedBook, Settle, SweepFrom, Slate.Noted, CheckMint, Receipts, Sound, MatchSettled;
      MatchSettles(Abs(), rq);
      if |rq.groups| == 0 || rq.height == 0 {
        return Err(BadIxData);
      }
      if !rq.Covered() {
        return Err(NotEnoughAccounts);
      }
      if rq.taker == book {
        return Err(MissingSignature);
      }
      var recvMint := if rq.side == Ask then baseMint else quoteMint;
      var payMint := if rq.side == Ask then quoteMint else baseMint;
      var wrong := CheckMint(tokens, rq.recv, recvMint);
      if wrong.Some? {
        return Err(wrong.value);
      }
      wrong := CheckMint(tokens, rq.pay, payMint);
      if wrong.Some? {
        return Err(wrong.value);
      }
      if |rq.groups| > MAX_SWEPT {
        return Err(BadIxData);
      }
      ghost var swept := SweepBook(Abs(), rq);
      var slate := new Slate();
      var nf :- SweepChain(if rq.side == Ask then asks else bids, rq.side, rq.limit, rq.Leaves(), rq.size, rq.Slots(), slate);
      NotedLength(slate, nf);
      var e := SettleAll(rq, slate, nf, swept.value);
      if e.Some? {
        return Err(e.value);
      }
      var out := Report(slate, nf);
      return Ok(out);
    }
  }

  lemma InitOwesNothing(m: Market, askRoot: nat, bidRoot: nat)
    ensures Valid(m.asks) && Valid(m.bids) && InitMarket(m, askRoot, bidRoot).Ok? ==>
            Sound(m) && (forall side :: Escrowed(m, side) == 0)
  {
    hide Valid, InitMarket, Sound, Escrowed;
    if Valid(m.asks) && Valid(m.bids) && InitMarket(m, askRoot, bidRoot).Ok? {
      MarketRuns.InitSound(m, askRoot, bidRoot);
    }
  }

  lemma NothingNoted(slate: Slate)
    requires slate.Apart()
    ensures slate.Noted(0) == Swept([], [])
  {
  }

  // ---- leaf after leaf ----

  function Joined(sw: Swept, r: Result<Swept>): Result<Swept> {
    if r.Ok? then Ok(Swept(sw.fills + r.value.fills, sw.grps + r.value.grps)) else r
  }

  lemma JoinedNothing(r: Result<Swept>, sw: Swept)
    ensures Joined(Swept([], []), r) == r && Joined(sw, Ok(Swept([], []))) == Ok(sw)
  {
    if r.Ok? {
      assert [] + r.value.fills == r.value.fills && [] + r.value.grps == r.value.grps;
    }
    assert sw.fills + [] == sw.fills && sw.grps + [] == sw.grps;
  }

  lemma JoinedPlus(sw: Swept, fs: seq<Fill>, g: nat, r: Result<Swept>)
    ensures Joined(Plus(sw, fs, g), r) == Joined(sw, Joined(Plus(Swept([], []), fs, g), r))
    ensures Joined(sw, Ok(Swept(fs, Copies(g, |fs|)))) == Ok(Plus(sw, fs, g))
  {
    assert [] + fs == fs && [] + Copies(g, |fs|) == Copies(g, |fs|);
    if r.Ok? {
      assert sw.fills + fs + r.value.fills == sw.fills + (fs + r.value.fills);
      assert sw.grps + Copies(g, |fs|) + r.value.grps == sw.grps + (Copies(g, |fs|) + r.value.grps);
    }
  }

  lemma JoinedFirst(fs: seq<Fill>, g: nat, r: Result<Swept>)
    ensures Joined(Plus(Swept([], []), fs, g), r) == if r.Ok? then Ok(Swept(fs + r.value.fills, Copies(g, |fs|) + r.value.grps)) else r
  {
    assert [] + fs == fs && [] + Copies(g, |fs|) == Copies(g, |fs|);
  }

  // One leaf further.
  lemma SweepStep(s: State, side: Side, limit: U64, leaves: seq<nat>, g: nat, want: nat, slots: nat, sw: Swept)
    requires FormedBook(s) && g < |leaves| && want > 0 && slots > 0
    requires leaves[g] in s.nodes && leaves[g] !in leaves[..g] && s.nodes[leaves[g]].Leaf?
    ensures AllFormed(s.nodes[leaves[g]].es)
    ensures var fs := Greedy(side, limit, s.nodes[leaves[g]].es, want, slots);
            && Filled(fs) <= want
            && Joined(sw, SweepFrom(s, side, limit, leaves, g, leaves[g], want, slots)) ==
               (if Stops(side, limit, s.nodes[leaves[g]].es, want, slots) then Ok(Plus(sw, fs, g))
                else Joined(Plus(sw, fs, g), SweepFrom(s, side, limit, leaves, g + 1, s.nodes[leaves[g]].next, want - Filled(fs), slots - |fs|)))
  {
    hide Greedy, Stops, AllFormed, FormedBook, Filled, Joined, Plus;
    LeafFormed(s, leaves[g]);
    var es := s.nodes[leaves[g]].es;
    FilledAtMost(side, limit, es, want, slots);
    var fs := Greedy(side, limit, es, want, slots);
    var rest := SweepFrom(s, side, limit, leaves, g + 1, s.nodes[leaves[g]].next, want - Filled(fs), slots - |fs|);
    JoinedPlus(sw, fs, g, rest);
    JoinedFirst(fs, g, rest);
  }

  lemma SweepOver(s: State, side: Side, limit: U64, leaves: seq<nat>, g: nat, expected: nat, want: nat, slots: nat, sw: Swept)
    requires FormedBook(s) && g <= |leaves| && (g == |leaves| || want == 0 || slots == 0)
    ensures Joined(sw, SweepFrom(s, side, limit, leaves, g, expected, want, slots)) == Ok(sw)
  {
    JoinedNothing(Ok(sw), sw);
  }

  lemma SweepRefused(s: State, side: Side, limit: U64, leaves: seq<nat>, g: nat, expected: nat, want: nat, slots: nat, sw: Swept)
    requires FormedBook(s) && g < |leaves| && want > 0 && slots > 0
    ensures var r := Joined(sw, SweepFrom(s, side, limit, leaves, g, expected, want, slots));
            && (leaves[g] !in s.nodes ==> r == Err(IllegalOwner))
            && (leaves[g] in s.nodes && (leaves[g] != expected || expected in leaves[..g] || s.nodes[expected].Inner?) ==> r == Err(InvalidArgument))
  {
  }

  // ---- inside one leaf ----

  datatype Looking = Looking(side: Side, limit: U64, es: seq<Entry>, want: nat, slots: nat)

  // After the fills `fs`, what is left to look at is `rest`.
  ghost predicate InLeaf(whole: Looking, fs: seq<Fill>, rest: Looking) {
    && AllFormed(whole.es) && AllFormed(rest.es)
    && rest.want == whole.want - Filled(fs) && rest.slots == whole.slots - |fs|
    && Greedy(whole.side, whole.limit, whole.es, whole.want, whole.slots)
       == fs + Greedy(rest.side, rest.limit, rest.es, rest.want, rest.slots)
    && Stops(whole.side, whole.limit, whole.es, whole.want, whole.slots)
       == Stops(rest.side, rest.limit, rest.es, rest.want, rest.slots)
  }

  lemma LeafStarts(l: Looking)
    requires AllFormed(l.es)
    ensures l.es[0..] == l.es && InLeaf(l, [], l)
  {
    hide Greedy, Stops, AllFormed;
    var fs := Greedy(l.side, l.limit, l.es, l.want, l.slots);
    assert [] + fs == fs;
  }

  lemma RestFormed(whole: Looking, fs: seq<Fill>, l: Looking)
    requires InLeaf(whole, fs, l) && l.es != []
    ensures Formed(l.es[0].val) && AllFormed(l.es[1..])
  {
  }

  lemma CrossesIs(side: Side, limit: U64, key: Key)
    ensures Crosses(side, limit, key) == if side == Ask then PriceAt(side, key) <= limit else PriceAt(side, key) >= limit
  {
  }

  lemma LeafSkips(whole: Looking, fs: seq<Fill>, l: Looking)
    requires InLeaf(whole, fs, l) && l.es != [] && l.want > 0 && l.slots > 0
    requires Crosses(l.side, l.limit, l.es[0].key) && Formed(l.es[0].val) && SizeOf(l.es[0].val) == 0
    ensures InLeaf(whole, fs, l.(es := l.es[1..]))
  {
    hide Greedy, Stops, AllFormed, Crosses, Filled, SizeOf;
    FormedRest(l.es);
    GreedySkips(l.side, l.limit, l.es, l.want, l.slots);
  }

  lemma LeafTakes(whole: Looking, fs: seq<Fill>, l: Looking, f: Fill)
    requires InLeaf(whole, fs, l) && l.es != [] && l.want > 0 && l.slots > 0
    requires Crosses(l.side, l.limit, l.es[0].key) && Formed(l.es[0].val) && SizeOf(l.es[0].val) > 0
    requires f.fill == if l.want < SizeOf(l.es[0].val) then l.want else SizeOf(l.es[0].val)
    requires f == Fill(l.es[0].key, MakerOf(l.es[0].val), PriceAt(l.side, l.es[0].key), f.fill, SizeOf(l.es[0].val) - f.fill)
    ensures InLeaf(whole, fs + [f], l.(es := l.es[1..], want := l.want - f.fill, slots := l.slots - 1))
  {
    assert f == FillOf(l.side, l.es[0], l.want);
    hide Greedy, Stops, AllFormed, Crosses, Filled, SizeOf, FillOf, PriceAt, MakerOf;
    FormedRest(l.es);
    GreedyTakes(l.side, l.limit, l.es, l.want, l.slots);
    FilledConcat(fs, [f]);
    FilledCons(f, []);
    FilledNone(l.side, l.limit, l.want, l.slots);
    assert [f] + [] == [f];
    Reassoc(fs, [f], Greedy(l.side, l.limit, l.es[1..], l.want - f.fill, l.slots - 1));
  }

  lemma LeafEnds(whole: Looking, fs: seq<Fill>, l: Looking, stop: bool)
    requires InLeaf(whole, fs, l)
    requires if stop then l.es != [] && l.want > 0 && l.slots > 0 && !Crosses(l.side, l.limit, l.es[0].key)
             else l.es == [] || l.want == 0 || l.slots == 0
    ensures AllFormed(whole.es) && Greedy(whole.side, whole.limit, whole.es, whole.want, whole.slots) == fs
    ensures Stops(whole.side, whole.limit, whole.es, whole.want, whole.slots) == stop
    ensures l.want == whole.want - Filled(fs)
  {
    assert fs + [] == fs;
  }
}
