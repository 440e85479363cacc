// Resting orders as tree entries, and what they hold in escrow.
module Orders {
  import opened Base
  import opened Bytes
  import opened Edits
  import opened OrderKeys

  const VALUE_SIZE: nat := 40

  // An order's value: maker (32) | size (8, big-endian).
  predicate Formed(v: Val) {
    |v| == VALUE_SIZE
  }

  function OrderValue(maker: Pubkey, size: U64): (v: Val)
    ensures Formed(v)
  {
    maker + Digits(size, 8)
  }

  function MakerOf(v: Val): Pubkey
    requires Formed(v)
  {
    v[..32]
  }

  function SizeOf(v: Val): U64
    requires Formed(v)
  {
    NumFits(v[32..]);
    Num(v[32..])
  }

  lemma OrderValueFields(maker: Pubkey, size: U64)
    ensures MakerOf(OrderValue(maker, size)) == maker && SizeOf(OrderValue(maker, size)) == size
  {
    var v := OrderValue(maker, size);
    assert v[..32] == maker && v[32..] == Digits(size, 8);
    DigitsFit(size);
  }

  lemma OrderValueOfFields(v: Val)
    requires Formed(v)
    ensures OrderValue(MakerOf(v), SizeOf(v)) == v
  {
    NumFits(v[32..]);
    assert v == v[..32] + v[32..];
  }

  // What an order of this price and size holds: base for an ask, quote for a bid.
  function Escrow(side: Side, price: nat, size: nat): nat {
    if side == Ask then size else price * size
  }

  // What a taker pays for the same.
  function Counter(side: Side, price: nat, size: nat): nat {
    if side == Ask then price * size else size
  }

  lemma EscrowSplits(side: Side, price: nat, a: nat, b: nat)
    ensures Escrow(side, price, a + b) == Escrow(side, price, a) + Escrow(side, price, b)
    ensures Escrow(side, price, 0) == 0
  {
  }

  function EscrowOf(side: Side, key: Key, v: Val): nat {
    if Formed(v) then Escrow(side, PriceAt(side, key), SizeOf(v)) else 0
  }

  // An order that fits: price times size is a u64, and a live one has a maker other than the
  // book itself.
  predicate GoodOrder(book: Pubkey, side: Side, e: Entry) {
    && Formed(e.val)
    && PriceAt(side, e.key) * SizeOf(e.val) <= U64_MAX
    && (SizeOf(e.val) > 0 ==> MakerOf(e.val) != book)
  }

  ghost predicate AllGood(book: Pubkey, side: Side, es: seq<Entry>) {
    forall e | e in es :: GoodOrder(book, side, e)
  }

  function TotalEscrow(side: Side, es: seq<Entry>): nat {
    if es == [] then 0 else EscrowOf(side, es[0].key, es[0].val) + TotalEscrow(side, es[1..])
  }

  lemma {:induction false} TotalConcat(side: Side, a: seq<Entry>, b: seq<Entry>)
    ensures TotalEscrow(side, a + b) == TotalEscrow(side, a) + TotalEscrow(side, b)
  {
    hide EscrowOf;
    if a == [] {
      assert a + b == b;
    } else {
      assert (a + b)[1..] == a[1..] + b;
      TotalConcat(side, a[1..], b);
    }
  }

  // An edit of the book changes the total by what it puts in and takes out.
  lemma TotalEdited(side: Side, a: seq<Entry>, b: seq<Entry>, cut: seq<Entry>, put: seq<Entry>)
    requires Edited(a, b, cut, put)
    ensures TotalEscrow(side, b) + TotalEscrow(side, cut) == TotalEscrow(side, a) + TotalEscrow(side, put)
  {
    hide TotalEscrow;
    var n: nat :| EditAt(a, b, cut, put, n);
    var x, y := a[..n], a[n + |cut|..];
    assert a == x + cut + y;
    TotalConcat(side, x + cut, y);
    TotalConcat(side, x, cut);
    TotalConcat(side, x + put, y);
    TotalConcat(side, x, put);
  }

  lemma TotalOne(side: Side, e: Entry)
    ensures TotalEscrow(side, [e]) == EscrowOf(side, e.key, e.val) && TotalEscrow(side, []) == 0
  {
    assert [e][1..] == [];
  }

  lemma GoodEdited(book: Pubkey, side: Side, a: seq<Entry>, b: seq<Entry>, cut: seq<Entry>, put: seq<Entry>)
    requires Edited(a, b, cut, put) && AllGood(book, side, a) && AllGood(book, side, put)
    ensures AllGood(book, side, b)
  {
    hide GoodOrder;
    var n: nat :| EditAt(a, b, cut, put, n);
    forall e | e in b ensures GoodOrder(book, side, e) {
      assert e in a[..n] || e in put || e in a[n + |cut|..];
    }
  }

  lemma {:induction false} TotalOfNothing(side: Side, es: seq<Entry>)
    requires forall e | e in es :: Formed(e.val) && SizeOf(e.val) == 0
    ensures TotalEscrow(side, es) == 0
  {
    if es != [] {
      assert es[0] in es;
      TotalOfNothing(side, es[1..]);
    }
  }

  // What is escrowed under one key of a book.
  function EscrowAt(side: Side, m: map<Key, Val>, key: Key): nat {
    if key in m then EscrowOf(side, key, m[key]) else 0
  }

  // What the asks of these entries hold: their sizes.
  function SizeTotal(es: seq<Entry>): nat {
    if es == [] then 0 else (if |es[0].val| == 40 then Num(es[0].val[32..]) else 0) + SizeTotal(es[1..])
  }

  // What the bids of these entries hold: price times size of each.
  function ValueTotal(es: seq<Entry>): nat {
    if es == [] then 0
    else (if |es[0].val| == 40 then PriceAt(Bid, es[0].key) * Num(es[0].val[32..]) else 0) + ValueTotal(es[1..])
  }

  lemma {:induction false} TotalIs(es: seq<Entry>)
    ensures TotalEscrow(Ask, es) == SizeTotal(es) && TotalEscrow(Bid, es) == ValueTotal(es)
  {
    hide Num, PriceAt;
    if es != [] {
      TotalIs(es[1..]);
    }
  }
}
