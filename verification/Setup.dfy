// Which markets InitMarket accepts, and one that it does.
module Setup {
  import opened Base
  import opened Bytes
  import opened NodeViews
  import opened Engine
  import opened Represent
  import opened MapModel
  import opened Runs
  import opened OrderKeys
  import opened Tokens
  import opened Markets
  import Epochs

  // Nothing of a size rests in the tree: it is empty, or a single leaf, supplied as the root, whose
  // entries are order values of size 0.
  ghost predicate NothingRests(s: State, root: nat)
    requires Valid(s)
  {
    s.height == 0
    || (s.height == 1 && root == s.root && forall e | e in StateEntries(s) :: |e.val| == 40 && Num(e.val[32..]) == 0)
  }

  lemma CleanIff(s: State, root: nat)
    requires Valid(s)
    ensures CleanBook(s, root) == None <==> NothingRests(s, root)
  {
    hide Num;
    if s.height == 1 {
      OneLeafEntries(s);
      hide Valid, StateEntries;
    }
  }

  lemma OneLeafEntries(s: State)
    requires Valid(s) && s.height == 1
    ensures s.root in s.nodes && s.nodes[s.root].Leaf? && StateEntries(s) == s.nodes[s.root].es
  {
    assert Represents(s, TreeOf(s), 0);
  }

  // Account `v` is the book's, and of this mint.
  predicate BookOwns(l: Ledger, v: Pubkey, mint: Pubkey, book: Pubkey) {
    v in l && l[v].owner == book && l[v].mint == mint
  }

  // A market is accepted exactly when its smallest order has a size, both vaults are the book's
  // accounts of the market's mints, and nothing of a size rests in either tree.
  lemma InitIff(m: Market, askRoot: nat, bidRoot: nat)
    requires Valid(m.asks) && Valid(m.bids)
    ensures InitMarket(m, askRoot, bidRoot).Ok? <==>
            && m.minSize > 0
            && BookOwns(m.tokens, m.baseVault, m.baseMint, m.book) && BookOwns(m.tokens, m.quoteVault, m.quoteMint, m.book)
            && NothingRests(m.asks, askRoot) && NothingRests(m.bids, bidRoot)
    ensures InitMarket(m, askRoot, bidRoot).Ok? ==> InitMarket(m, askRoot, bidRoot).value == m
  {
    hide Valid, CleanBook, NothingRests;
    CleanIff(m.asks, askRoot);
    CleanIff(m.bids, bidRoot);
  }

  // ---- a market with a sentinel in each tree ----

  function Name(b: Byte): Pubkey {
    seq(32, _ => b)
  }

  function Zeros(n: nat): seq<Byte> {
    seq(n, _ => 0)
  }

  function Sentinel(): Entry {
    Entry(KEY_LIMIT - 1, Zeros(40))
  }

  function SentinelTree(): State {
    State(4, 1, 1, 1, 1, 1, 1, map[1 := Leaf([Sentinel()], 0)])
  }

  lemma SentinelRun()
    ensures Valid(InitTree(4)) && Run(InitTree(4), [IxInsert(Sentinel(), [], [1])]) == SentinelTree()
    ensures Valid(SentinelTree())
  {
    hide Valid, AllShaped;
    InitValid(4, 0);
    Epochs.RunOne(InitTree(4), IxInsert(Sentinel(), [], [1]));
    assert map[][1 := Leaf([], 0)][1 := Leaf([Sentinel()], 0)] == map[1 := Leaf([Sentinel()], 0)];
  }

  lemma {:induction false} ZerosAreNothing(n: nat)
    ensures Num(Zeros(n)) == 0
  {
    if n > 0 {
      ZerosAreNothing(n - 1);
      assert Zeros(n)[..n - 1] == Zeros(n - 1);
    }
  }

  function SampleMarket(): Market {
    Market(Name(1), Name(2), Name(3), Name(4), Name(5), 1, SentinelTree(), SentinelTree(),
           map[Name(4) := TokenAccount(Name(2), Name(1), 0), Name(5) := TokenAccount(Name(3), Name(1), 0)])
  }

  lemma NamesDiffer()
    ensures Name(4) != Name(5)
  {
    assert Name(4)[0] == 4 && Name(5)[0] == 5;
  }

  // The usual set-up is accepted: two trees that hold nothing but their sentinel, each as the run of
  // one Insert leaves it, two empty vaults, and the smallest size 1.
  lemma SampleAccepted()
    ensures Valid(InitTree(4))
    ensures var s := Run(InitTree(4), [IxInsert(Sentinel(), [], [1])]);
            s == SampleMarket().asks == SampleMarket().bids && |StateEntries(s)| == 1
    ensures InitMarket(SampleMarket(), 1, 1) == Ok(SampleMarket())
  {
    hide Valid, Run, InitTree, Num, InitMarket, StateEntries;
    SentinelRun();
    NamesDiffer();
    var m := SampleMarket();
    OneLeafEntries(m.asks);
    assert Zeros(40)[32..] == Zeros(8);
    ZerosAreNothing(8);
    InitIff(m, 1, 1);
  }
}
