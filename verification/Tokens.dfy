// Token accounts and the transfers the order book asks the token program for.
module Tokens {
  import opened Base
  import opened OrderKeys

  datatype TokenAccount = TokenAccount(mint: Pubkey, owner: Pubkey, amount: U64)

  type Ledger = map<Pubkey, TokenAccount>

  datatype Move = Move(src: Pubkey, dst: Pubkey, authority: Pubkey, amount: U64)

  // Only the owner of the source moves tokens, and only within one mint.
  function Transfer(l: Ledger, mv: Move): Result<Ledger> {
    if mv.src !in l || mv.dst !in l then Err(TransferRefused)
    else if l[mv.src].owner != mv.authority || l[mv.src].mint != l[mv.dst].mint then Err(TransferRefused)
    else if l[mv.src].amount < mv.amount then Err(TransferRefused)
    else if mv.src == mv.dst then Ok(l)
    else if l[mv.dst].amount + mv.amount > U64_MAX then Err(TransferRefused)
    else Ok(l[mv.src := l[mv.src].(amount := l[mv.src].amount - mv.amount)]
             [mv.dst := l[mv.dst].(amount := l[mv.dst].amount + mv.amount)])
  }

  function TransferAll(l: Ledger, mvs: seq<Move>): Result<Ledger> {
    if mvs == [] then Ok(l)
    else
      var l1 :- Transfer(l, mvs[0]);
      TransferAll(l1, mvs[1..])
  }

  lemma TransferPair(l: Ledger, a: Move, b: Move)
    ensures TransferAll(l, [a, b]) == (var r := Transfer(l, a); if r.Err? then r else Transfer(r.value, b))
  {
    hide Transfer;
    assert [a, b][1..] == [b] && [b][1..] == [];
    if Transfer(l, a).Ok? {
      var l1 := Transfer(l, a).value;
      assert TransferAll(l, [a, b]) == TransferAll(l1, [b]);
      if Transfer(l1, b).Ok? {
        var l2 := Transfer(l1, b).value;
        assert TransferAll(l1, [b]) == TransferAll(l2, []);
      }
    }
  }

  function Balance(l: Ledger, a: Pubkey): nat {
    if a in l then l[a].amount else 0
  }

  // Same accounts, with the same mint and owner.
  ghost predicate SameHolders(l: Ledger, l': Ledger) {
    l.Keys == l'.Keys && forall a | a in l :: l'[a].mint == l[a].mint && l'[a].owner == l[a].owner
  }

  function Into(mvs: seq<Move>, a: Pubkey): nat {
    if mvs == [] then 0 else (if mvs[0].dst == a then mvs[0].amount else 0) + Into(mvs[1..], a)
  }

  function OutOf(mvs: seq<Move>, a: Pubkey): nat {
    if mvs == [] then 0 else (if mvs[0].src == a then mvs[0].amount else 0) + OutOf(mvs[1..], a)
  }

  lemma TransferMoves(l: Ledger, mv: Move)
    requires Transfer(l, mv).Ok?
    ensures SameHolders(l, Transfer(l, mv).value)
    ensures forall a :: Balance(Transfer(l, mv).value, a)
                     == Balance(l, a) + (if mv.dst == a then mv.amount else 0) - (if mv.src == a then mv.amount else 0)
    ensures mv.src in l && l[mv.src].owner == mv.authority && mv.dst in l && l[mv.dst].mint == l[mv.src].mint
  {
  }

  // Every account ends with what it had, plus what went in, minus what went out.
  lemma {:induction false} AllMoved(l: Ledger, mvs: seq<Move>)
    requires TransferAll(l, mvs).Ok?
    ensures SameHolders(l, TransferAll(l, mvs).value)
    ensures forall a :: Balance(TransferAll(l, mvs).value, a) == Balance(l, a) + Into(mvs, a) - OutOf(mvs, a)
  {
    hide Transfer, Balance;
    if mvs != [] {
      TransferMoves(l, mvs[0]);
      AllMoved(Transfer(l, mvs[0]).value, mvs[1..]);
    }
  }

  lemma {:induction false} TransferConcat(l: Ledger, a: seq<Move>, b: seq<Move>)
    requires TransferAll(l, a).Ok?
    ensures TransferAll(l, a + b) == TransferAll(TransferAll(l, a).value, b)
  {
    if a == [] {
      assert a + b == b;
    } else {
      assert (a + b)[1..] == a[1..] + b;
      TransferConcat(Transfer(l, a[0]).value, a[1..], b);
    }
  }

  lemma {:induction false} FlowConcat(a: seq<Move>, b: seq<Move>, x: Pubkey)
    ensures Into(a + b, x) == Into(a, x) + Into(b, x) && OutOf(a + b, x) == OutOf(a, x) + OutOf(b, x)
  {
    if a == [] {
      assert a + b == b;
    } else {
      assert (a + b)[1..] == a[1..] + b;
      FlowConcat(a[1..], b, x);
    }
  }
}
