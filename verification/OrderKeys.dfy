// The 32-byte order key: price (8, big-endian) | slot (8) | maker prefix (8) | nonce (8).
module OrderKeys {
  import opened Base
  import opened Bytes

  datatype Side = Ask | Bid

  type Pubkey = b: seq<Byte> | |b| == 32 witness seq(32, _ => 0)

  const U64_MAX: U64 := U64_LIMIT - 1

  // Bids are stored upside down, so that on either side the best price has the smallest rank.
  function Rank(side: Side, price: U64): U64 {
    if side == Ask then price else U64_MAX - price
  }

  function OrderKey(side: Side, price: U64, slot: U64, maker: Pubkey, nonce: U64): (k: seq<Byte>)
    ensures |k| == KEY_SIZE
  {
    Digits(Rank(side, price), 8) + Digits(slot, 8) + maker[..8] + Digits(nonce, 8)
  }

  lemma NumFits(b: seq<Byte>)
    requires |b| == 8
    ensures Num(b) < U64_LIMIT && Digits(Num(b), 8) == b
  {
    Powers();
    NumBound(b);
    DigitsOfNum(b);
  }

  lemma DigitsFit(n: U64)
    ensures Num(Digits(n, 8)) == n
  {
    hide Num, Digits, Pow256;
    Powers();
    NumOfDigits(n, 8);
    SmallModulus(n, Pow256(8));
  }

  function PriceOf(side: Side, key: seq<Byte>): U64
    requires |key| == KEY_SIZE
  {
    NumFits(key[..8]);
    Rank(side, Num(key[..8]))
  }

  function SlotOf(key: seq<Byte>): U64
    requires |key| == KEY_SIZE
  {
    NumFits(key[8..16]);
    Num(key[8..16])
  }

  lemma Fields(a: seq<Byte>, b: seq<Byte>, c: seq<Byte>, d: seq<Byte>)
    requires |a| == |b| == |c| == |d| == 8
    ensures var k := a + b + c + d; k[..8] == a && k[8..16] == b && k[16..24] == c && k[24..] == d
  {
  }

  // The fields of a key can be read back.
  lemma OrderKeyFields(side: Side, price: U64, slot: U64, maker: Pubkey, nonce: U64)
    ensures var k := OrderKey(side, price, slot, maker, nonce);
            && PriceOf(side, k) == price && SlotOf(k) == slot
            && k[16..24] == maker[..8] && Num(k[24..]) == nonce
  {
    Fields(Digits(Rank(side, price), 8), Digits(slot, 8), maker[..8], Digits(nonce, 8));
    DigitsFit(Rank(side, price));
    DigitsFit(slot);
    DigitsFit(nonce);
  }

  // And every 32-byte string is the order key of the fields read from it.
  lemma OrderKeyOfFields(side: Side, k: seq<Byte>, maker: Pubkey)
    requires |k| == KEY_SIZE && maker[..8] == k[16..24]
    ensures Num(k[24..]) < U64_LIMIT
    ensures OrderKey(side, PriceOf(side, k), SlotOf(k), maker, Num(k[24..])) == k
  {
    NumFits(k[..8]);
    NumFits(k[8..16]);
    NumFits(k[24..]);
    assert k == k[..8] + k[8..16] + k[16..24] + k[24..];
  }

  // ---- price-time priority ----

  // The order of price, then slot, then maker prefix, then nonce.
  predicate Precedes(p: nat, s: nat, m: nat, n: nat, p': nat, s': nat, m': nat, n': nat) {
    p < p' || (p == p' && (s < s' || (s == s' && (m < m' || (m == m' && n < n')))))
  }

  function Packed(p: nat, s: nat, m: nat, n: nat): nat {
    ((p * U64_LIMIT + s) * U64_LIMIT + m) * U64_LIMIT + n
  }

  lemma PackedOrder(p: nat, s: nat, m: nat, n: nat, p': nat, s': nat, m': nat, n': nat)
    requires s < U64_LIMIT && m < U64_LIMIT && n < U64_LIMIT && s' < U64_LIMIT && m' < U64_LIMIT && n' < U64_LIMIT
    ensures Packed(p, s, m, n) < Packed(p', s', m', n') <==> Precedes(p, s, m, n, p', s', m', n')
  {
    var a, a' := p * U64_LIMIT + s, p' * U64_LIMIT + s';
    var b, b' := a * U64_LIMIT + m, a' * U64_LIMIT + m';
    LexPair(p, s, p', s', U64_LIMIT);
    LexPair(a, m, a', m', U64_LIMIT);
    LexPair(b, n, b', n', U64_LIMIT);
  }

  lemma PackedFields(a: seq<Byte>, b: seq<Byte>, c: seq<Byte>, d: seq<Byte>)
    requires |a| == |b| == |c| == |d| == 8
    ensures Num(a + b + c + d) == Packed(Num(a), Num(b), Num(c), Num(d))
  {
    Powers();
    NumConcat(a, b);
    NumConcat(a + b, c);
    NumConcat(a + b + c, d);
  }

  lemma OrderKeyNumber(side: Side, price: U64, slot: U64, maker: Pubkey, nonce: U64)
    ensures Num(OrderKey(side, price, slot, maker, nonce)) == Packed(Rank(side, price), slot, Num(maker[..8]), nonce)
  {
    hide Num, Digits, Packed;
    PackedFields(Digits(Rank(side, price), 8), Digits(slot, 8), maker[..8], Digits(nonce, 8));
    DigitsFit(Rank(side, price));
    DigitsFit(slot);
    DigitsFit(nonce);
  }

  // Byte order of two keys of one side is price-time priority: the better price first (lower
  // for asks, higher for bids), then the earlier slot, then maker prefix and nonce.
  lemma PriceTimePriority(side: Side, p: U64, s: U64, m: Pubkey, n: U64, p': U64, s': U64, m': Pubkey, n': U64)
    ensures var k, k' := OrderKey(side, p, s, m, n), OrderKey(side, p', s', m', n');
            Before(k, k') <==>
              (if side == Ask then p < p' else p' < p)
              || (p == p' && Precedes(0, s, Num(m[..8]), n, 0, s', Num(m'[..8]), n'))
  {
    hide Num, Packed, Before, OrderKey;
    var k, k' := OrderKey(side, p, s, m, n), OrderKey(side, p', s', m', n');
    BeforeIsNumeric(k, k');
    OrderKeyNumber(side, p, s, m, n);
    OrderKeyNumber(side, p', s', m', n');
    NumFits(m[..8]);
    NumFits(m'[..8]);
    PackedOrder(Rank(side, p), s, Num(m[..8]), n, Rank(side, p'), s', Num(m'[..8]), n');
  }

  // ---- keys as the engine model's numbers ----

  function PriceAt(side: Side, key: Key): U64 {
    PriceOf(side, Digits(key, KEY_SIZE))
  }

  function KeyNumber(side: Side, price: U64, slot: U64, maker: Pubkey, nonce: U64): Key {
    KeysAreNumbers(OrderKey(side, price, slot, maker, nonce), 0);
    Num(OrderKey(side, price, slot, maker, nonce))
  }

  lemma PriceOfKeyNumber(side: Side, price: U64, slot: U64, maker: Pubkey, nonce: U64)
    ensures PriceAt(side, KeyNumber(side, price, slot, maker, nonce)) == price
  {
    hide Num, Digits, OrderKey, PriceOf;
    KeysAreNumbers(OrderKey(side, price, slot, maker, nonce), 0);
    OrderKeyFields(side, price, slot, maker, nonce);
  }

  function SlotAt(key: Key): U64 {
    SlotOf(Digits(key, KEY_SIZE))
  }

  lemma SlotOfKeyNumber(side: Side, price: U64, slot: U64, maker: Pubkey, nonce: U64)
    ensures SlotAt(KeyNumber(side, price, slot, maker, nonce)) == slot
  {
    hide Num, Digits, OrderKey, SlotOf;
    KeysAreNumbers(OrderKey(side, price, slot, maker, nonce), 0);
    OrderKeyFields(side, price, slot, maker, nonce);
  }

  // A better price, or the same price and an earlier slot.
  predicate Ahead(side: Side, k: Key, k': Key) {
    var p, p' := PriceAt(side, k), PriceAt(side, k');
    (if side == Ask then p < p' else p' < p) || (p == p' && SlotAt(k) < SlotAt(k'))
  }

  // What comes ahead stands before in the book.
  lemma AheadIsBefore(side: Side, k: Key, k': Key)
    requires Ahead(side, k, k')
    ensures k < k'
  {
    hide Num, Digits, Packed;
    KeyPacked(side, k);
    KeyPacked(side, k');
    var a, b := Digits(k, KEY_SIZE), Digits(k', KEY_SIZE);
    PackedOrder(Rank(side, PriceAt(side, k)), SlotAt(k), Num(a[16..24]), Num(a[24..]),
                Rank(side, PriceAt(side, k')), SlotAt(k'), Num(b[16..24]), Num(b[24..]));
  }

  lemma KeyPacked(side: Side, k: Key)
    ensures var d := Digits(k, KEY_SIZE);
            && |d| == KEY_SIZE && Num(d[16..24]) < U64_LIMIT && Num(d[24..]) < U64_LIMIT
            && k == Packed(Rank(side, PriceAt(side, k)), SlotAt(k), Num(d[16..24]), Num(d[24..]))
  {
    hide Num, Digits, Packed;
    var d := Digits(k, KEY_SIZE);
    KeysAreNumbers(d, k);
    NumFits(d[..8]);
    NumFits(d[8..16]);
    NumFits(d[16..24]);
    NumFits(d[24..]);
    assert d == d[..8] + d[8..16] + d[16..24] + d[24..];
    PackedFields(d[..8], d[8..16], d[16..24], d[24..]);
  }

  // Along a sorted book prices only get worse.
  lemma PricesWorsen(side: Side, k: Key, k': Key)
    requires k < k'
    ensures if side == Ask then PriceAt(side, k) <= PriceAt(side, k') else PriceAt(side, k) >= PriceAt(side, k')
  {
    hide Num, Digits, Before;
    var a, b := Digits(k, KEY_SIZE), Digits(k', KEY_SIZE);
    KeysAreNumbers(a, k);
    KeysAreNumbers(b, k');
    assert a == a[..8] + a[8..] && b == b[..8] + b[8..];
    NumConcat(a[..8], a[8..]);
    NumConcat(b[..8], b[8..]);
    NumBound(a[8..]);
    NumBound(b[8..]);
    LexPair(Num(a[..8]), Num(a[8..]), Num(b[..8]), Num(b[8..]), Pow256(24));
  }

  // ---- the buffers ----

  method CopyInto(buf: array<Byte>, off: nat, src: seq<Byte>)
    requires off + |src| <= buf.Length
    modifies buf
    ensures buf[..] == old(buf[..off]) + src + old(buf[off + |src|..])
  {
    forall i | 0 <= i < |src| {
      buf[off + i] := src[i];
    }
  }

  method BuildOrderKey(side: Side, price: U64, slot: U64, maker: Pubkey, nonce: U64) returns (k: array<Byte>)
    ensures fresh(k) && k[..] == OrderKey(side, price, slot, maker, nonce)
  {
    var p := if side == Ask then price else U64_MAX - price;
    k := new Byte[KEY_SIZE](_ => 0);
    CopyInto(k, 0, Digits(p, 8));
    CopyInto(k, 8, Digits(slot, 8));
    CopyInto(k, 16, maker[..8]);
    CopyInto(k, 24, Digits(nonce, 8));
  }

  function Wrapped(v: int): (w: U64)
    ensures InRange(v) ==> w == v
  {
    v % U64_LIMIT
  }

  predicate InRange(v: int) {
    0 <= v <= U64_MAX
  }

  // DataView.setBigUint64: the value is taken modulo 2^64.
  method WriteU64BE(buf: array<Byte>, off: nat, v: int)
    requires off + 8 <= buf.Length
    modifies buf
    ensures buf[..] == old(buf[..off]) + Digits(Wrapped(v), 8) + old(buf[off + 8..])
  {
    CopyInto(buf, off, Digits(Wrapped(v), 8));
  }

  method ReadU64BE(buf: array<Byte>, off: nat) returns (v: U64)
    requires off + 8 <= buf.Length
    ensures v == Num(buf[off..off + 8])
  {
    NumFits(buf[off..off + 8]);
    v := Num(buf[off..off + 8]);
  }

  // The TypeScript port: a price, slot or nonce that is no u64 is refused, not wrapped.
  method OrderKeyChecked(side: Side, price: int, slot: int, maker: Pubkey, nonce: int) returns (k: Option<array<Byte>>)
    ensures k.Some? <==> InRange(price) && InRange(slot) && InRange(nonce)
    ensures k.Some? ==> fresh(k.value) && k.value[..] == OrderKey(side, price, slot, maker, nonce)
  {
    if !InRange(price) || !InRange(slot) || !InRange(nonce) {
      return None;
    }
    hide Digits, Wrapped, OrderKey;
    var p := if side == Ask then price else U64_MAX - price;
    var buf := new Byte[KEY_SIZE](_ => 0);
    WriteU64BE(buf, 0, p);
    assert buf[..8] == Digits(p, 8);
    WriteU64BE(buf, 8, slot);
    assert buf[..16] == Digits(p, 8) + Digits(slot, 8);
    CopyInto(buf, 16, maker[..8]);
    assert buf[..24] == Digits(p, 8) + Digits(slot, 8) + maker[..8];
    WriteU64BE(buf, 24, nonce);
    KeyParts(side, price, slot, maker, nonce);
    k := Some(buf);
  }

  method PriceOfBuffer(side: Side, key: array<Byte>) returns (p: Option<U64>)
    ensures p == if key.Length == KEY_SIZE then Some(PriceOf(side, key[..])) else None
  {
    if key.Length != KEY_SIZE {
      return None;
    }
    var r := ReadU64BE(key, 0);
    assert key[..][..8] == key[0..8];
    p := Some(if side == Ask then r else U64_MAX - r);
  }

  method SlotOfBuffer(key: array<Byte>) returns (s: Option<U64>)
    ensures s == if key.Length == KEY_SIZE then Some(SlotOf(key[..])) else None
  {
    if key.Length != KEY_SIZE {
      return None;
    }
    var r := ReadU64BE(key, 8);
    assert key[..][8..16] == key[8..16];
    s := Some(r);
  }

  // The key an order landed under: the planned key with the slot of the transaction in it.
  method LandedKey(planned: seq<Byte>, slot: U64) returns (key: array<Byte>)
    requires |planned| == KEY_SIZE
    ensures fresh(key) && key[..] == planned[..8] + Digits(slot, 8) + planned[16..]
    ensures forall side, price: U64, est: U64, maker: Pubkey, nonce: U64 ::
              planned == OrderKey(side, price, est, maker, nonce) ==> key[..] == OrderKey(side, price, slot, maker, nonce)
  {
    hide Digits, Wrapped, OrderKey;
    key := new Byte[KEY_SIZE](i requires 0 <= i < KEY_SIZE => planned[i]);
    assert key[..] == planned;
    WriteU64BE(key, 8, slot);
    forall side, price: U64, est: U64, maker: Pubkey, nonce: U64
      | planned == OrderKey(side, price, est, maker, nonce)
      ensures key[..] == OrderKey(side, price, slot, maker, nonce)
    {
      KeyParts(side, price, est, maker, nonce);
      KeyParts(side, price, slot, maker, nonce);
      SlotReplaced(Digits(Rank(side, price), 8), Digits(est, 8), Digits(slot, 8), maker[..8], Digits(nonce, 8));
    }
  }

  lemma KeyParts(side: Side, price: U64, slot: U64, maker: Pubkey, nonce: U64)
    ensures OrderKey(side, price, slot, maker, nonce) == Digits(Rank(side, price), 8) + Digits(slot, 8) + maker[..8] + Digits(nonce, 8)
  {
  }

  lemma SlotReplaced(a: seq<Byte>, b: seq<Byte>, b': seq<Byte>, c: seq<Byte>, d: seq<Byte>)
    requires |a| == |b| == |b'| == 8
    ensures var k := a + b + c + d; k[..8] + b' + k[16..] == a + b' + c + d
  {
  }
}
