// The engine as the program runs it: a header, an allocator mark and live node accounts,
// changed in place. Every step is proved to be the step of module Engine.
module Accounts {
  import opened Base
  import opened NodeViews
  import opened Shapes
  import opened Engine
  import opened Represent
  import opened NodeOps

  class Torna {
    const fanout: nat
    var root: nat
    var height: nat
    var leftmost: nat
    var rightmost: nat
    var epoch: nat
    var highWater: nat
    var nodes: map<nat, Node>

    ghost function Footprint(): set<object>
      reads this
    {
      set x, o | x in nodes && o in nodes[x].Repr() :: o
    }

    // Accounts are separate pieces of memory.
    ghost predicate Wf()
      reads this, nodes.Values
    {
      && (forall x | x in nodes :: nodes[x].Valid() && nodes[x].fanout == fanout && this !in nodes[x].Repr())
      && (forall x, y | x in nodes && y in nodes && x != y :: nodes[x].Repr() !! nodes[y].Repr())
    }

    ghost function Store(): Store
      reads this, nodes.Values, Footprint()
      requires Wf()
    {
      map x | x in nodes :: nodes[x].View()
    }

    ghost function Abs(): State
      reads this, nodes.Values, Footprint()
      requires Wf()
    {
      State(fanout, root, height, leftmost, rightmost, epoch, highWater, Store())
    }

    constructor (fanout: nat)
      ensures Wf() && Abs() == InitTree(fanout) && fresh(Footprint())
    {
      this.fanout := fanout;
      root, height, leftmost, rightmost, epoch, highWater := 0, 0, 0, 0, 0, 0;
      nodes := map[];
    }

    // What a method may have changed, and what it has added.
    twostate predicate Grown()
      reads this
    {
      forall o | o in Footprint() && o !in old(Footprint()) :: fresh(o)
    }

    // Every account but these.
    ghost function Others(xs: set<nat>): set<object>
      reads this
    {
      set y, o | y in nodes && y !in xs && o in nodes[y].Repr() :: o
    }

    lemma Separate(x: nat, xs: set<nat>)
      requires Wf() && x in nodes && x in xs
      ensures Others(xs) !! nodes[x].Repr() && nodes[x].Repr() <= Footprint() && nodes[x] in nodes[x].Repr() && this !in nodes[x].Repr()
      ensures nodes[x].Valid() && nodes[x].fanout == fanout
      ensures x in Abs().nodes && Abs().nodes[x] == nodes[x].View()
    {
    }

    lemma Disjoint(x: nat, y: nat)
      requires Wf() && x in nodes && y in nodes && x != y
      ensures nodes[x].Repr() !! nodes[y].Repr()
    {
    }

    ghost predicate AllValid(xs: set<nat>)
      reads this, nodes.Values
    {
      forall x | x in xs :: x in nodes && nodes[x].Valid()
    }

    // Only the accounts `xs` were written.
    twostate lemma OnlyThese(xs: set<nat>)
      requires old(Wf()) && nodes == old(nodes) && AllValid(xs)
      requires unchanged(Others(xs)) && unchanged(this)
      ensures Wf() && Footprint() == old(Footprint()) && Abs() == old(Abs()).(nodes := Store())
      ensures Store().Keys == nodes.Keys == old(Store()).Keys
      ensures forall y | y in nodes :: Store()[y] == if y in xs then nodes[y].View() else old(Store())[y]
    {
      forall y | y in nodes && y !in xs ensures nodes[y].Valid() && nodes[y].View() == old(nodes[y].View()) {
        assert nodes[y].Repr() <= Others(xs);
      }
    }

    twostate lemma OneWritten(x: nat)
      requires old(Wf()) && nodes == old(nodes) && x in nodes && nodes[x].Valid()
      requires unchanged(Others({x})) && unchanged(this)
      ensures Wf() && Abs() == old(Abs()).Set(x, nodes[x].View()) && Footprint() == old(Footprint())
    {
      hide Wf, Store, Footprint, Others, Node.Valid, Node.View;
      OnlyThese({x});
      ThreeSet(old(Store()), Store(), x, x, x);
    }

    twostate lemma TwoWritten(p: (nat, nat))
      requires old(Wf()) && nodes == old(nodes) && AllValid({p.0, p.1})
      requires unchanged(Others({p.0, p.1})) && unchanged(this)
      ensures Wf() && Footprint() == old(Footprint())
      ensures Abs() == old(Abs()).Set(p.0, nodes[p.0].View()).Set(p.1, nodes[p.1].View())
    {
      hide Wf, Store, Footprint, Others, Node.Valid, Node.View;
      OnlyThese({p.0, p.1});
      ThreeSet(old(Store()), Store(), p.0, p.1, p.1);
    }

    twostate lemma ThreeWritten(p: (nat, nat, nat))
      requires old(Wf()) && nodes == old(nodes) && AllValid({p.0, p.1, p.2})
      requires unchanged(Others({p.0, p.1, p.2})) && unchanged(this)
      ensures Wf() && Footprint() == old(Footprint())
      ensures Abs() == old(Abs()).Set(p.0, nodes[p.0].View()).Set(p.1, nodes[p.1].View()).Set(p.2, nodes[p.2].View())
    {
      hide Wf, Store, Footprint, Others, Node.Valid, Node.View;
      OnlyThese({p.0, p.1, p.2});
      ThreeSet(old(Store()), Store(), p.0, p.1, p.2);
    }

    // Nothing was written.
    twostate lemma Untouched()
      requires old(Wf()) && unchanged(this) && unchanged(old(Footprint()))
      ensures Wf() && Abs() == old(Abs()) && Footprint() == old(Footprint())
    {
      hide Abs, Store;
      assert unchanged(Others({}));
      OnlyThese({});
      SameStore();
    }

    twostate lemma SameStore()
      requires old(Wf()) && Wf() && Abs() == old(Abs()).(nodes := Store())
      requires Store().Keys == nodes.Keys == old(Store()).Keys
      requires forall y | y in nodes :: Store()[y] == old(Store())[y]
      ensures Abs() == old(Abs())
    {
    }

    lemma Live()
      requires Wf()
      ensures Abs().nodes.Keys == nodes.Keys
    {
    }

    lemma ThisApart()
      requires Wf()
      ensures this !in Footprint()
    {
    }

    // ---- the header ----

    // Nothing but header fields was written.
    twostate lemma HeaderOnly()
      requires old(Wf()) && nodes == old(nodes) && unchanged(old(Footprint()))
      ensures Wf() && Store() == old(Store()) && Footprint() == old(Footprint())
    {
      forall y | y in nodes ensures nodes[y].Valid() && nodes[y].View() == old(nodes[y].View()) {
        assert old(nodes[y].Repr()) <= old(Footprint());
      }
    }

    method SetRoot(root: nat, height: nat)
      requires Wf()
      modifies this
      ensures Wf() && Footprint() == old(Footprint()) && Abs() == old(Abs()).(root := root, height := height)
    {
      ThisApart();
      this.root, this.height := root, height;
      hide Wf, Store;
      HeaderOnly();
    }

    method SetEnds(leftmost: nat, rightmost: nat)
      requires Wf()
      modifies this
      ensures Wf() && Footprint() == old(Footprint()) && Abs() == old(Abs()).(leftmost := leftmost, rightmost := rightmost)
    {
      ThisApart();
      this.leftmost, this.rightmost := leftmost, rightmost;
      hide Wf, Store;
      HeaderOnly();
    }

    method Bump()
      requires Wf()
      modifies this
      ensures Wf() && Footprint() == old(Footprint()) && Abs() == old(Abs()).Bumped()
    {
      ThisApart();
      epoch := epoch + 1;
      hide Wf, Store;
      HeaderOnly();
    }

    // ---- account checks and account life ----

    method CheckAccount(acc: nat, want: nat) returns (e: Option<Error>)
      requires Wf()
      ensures Wf() && Footprint() == old(Footprint()) && Abs() == old(Abs()) && e == CheckNode(Abs(), acc, want)
    {
      Live();
      assert acc in nodes.Keys <==> acc in Abs().nodes.Keys;
      if acc !in nodes {
        return Some(NodeTooSmall);
      }
      Separate(acc, {acc});
      hide Wf, Abs;
      if nodes[acc].keyCount > fanout + 1 {
        return Some(BadNode);
      }
      if acc != want {
        return Some(BadPath);
      }
      return None;
    }

    method TakeSpare(acc: nat, leaf: bool) returns (e: Option<Error>)
      requires Wf()
      modifies this
      ensures Wf() && Grown()
      ensures match ConsumeSpare(old(Abs()), acc, leaf)
              case Ok(s) => e == None && Abs() == s
              case Err(x) => e == Some(x) && Abs() == old(Abs())
    {
      hide Wf, Store;
      Live();
      assert acc in nodes.Keys <==> acc in Abs().nodes.Keys;
      e := None;
      ThisApart();
      if acc in nodes {
        e := Some(InitTwice);
        NotGrown();
      } else if acc != highWater + 1 {
        e := Some(BadPath);
        NotGrown();
      } else {
        var n := new Node(fanout, leaf);
        nodes := nodes[acc := n];
        highWater := acc;
        Added(acc);
      }
    }

    twostate lemma NotGrown()
      requires nodes == old(nodes)
      ensures Grown()
    {
    }

    twostate lemma SameGrown()
      requires Footprint() == old(Footprint())
      ensures Grown()
    {
    }

    // Account `acc` is new.
    twostate lemma Added(acc: nat)
      requires old(Wf()) && acc !in old(nodes) && acc in nodes && fresh(nodes[acc].Repr()) && nodes[acc].Valid() && nodes[acc].fanout == fanout
      requires nodes == old(nodes)[acc := nodes[acc]]
      requires unchanged(old(Footprint()))
      ensures Wf() && Grown() && Store() == old(Store())[acc := nodes[acc].View()]
    {
      AddedViews(acc);
      AddedApart(acc);
      AddedGrown(acc);
      hide Footprint, Node.View, Node.Valid;
      assert Store() == old(Store())[acc := nodes[acc].View()] by {
        AddedStore(old(Store()), Store(), acc);
      }
    }

    twostate lemma AddedViews(acc: nat)
      requires old(Wf()) && acc !in old(nodes) && acc in nodes && nodes == old(nodes)[acc := nodes[acc]]
      requires unchanged(old(Footprint()))
      ensures forall y | y in old(nodes) :: nodes[y].Valid() && nodes[y].View() == old(nodes[y].View()) && nodes[y] == old(nodes[y])
    {
      forall y | y in old(nodes) ensures nodes[y].Valid() && nodes[y].View() == old(nodes[y].View()) && nodes[y] == old(nodes[y]) {
        assert old(nodes[y].Repr()) <= old(Footprint());
      }
    }

    twostate lemma AddedApart(acc: nat)
      requires old(Wf()) && acc !in old(nodes) && acc in nodes && fresh(nodes[acc].Repr()) && nodes == old(nodes)[acc := nodes[acc]]
      ensures forall x | x in nodes :: this !in nodes[x].Repr()
      ensures forall x, y | x in nodes && y in nodes && x != y :: nodes[x].Repr() !! nodes[y].Repr()
    {
      forall x | x in old(nodes) ensures nodes[x].Repr() !! nodes[acc].Repr() {
        assert nodes[x] == old(nodes[x]);
      }
    }

    twostate lemma AddedGrown(acc: nat)
      requires acc in nodes && fresh(nodes[acc].Repr()) && nodes == old(nodes)[acc := nodes[acc]]
      ensures Grown()
    {
      forall o | o in Footprint() ensures o in old(Footprint()) || o in nodes[acc].Repr() {
        var x :| x in nodes && o in nodes[x].Repr();
        if x != acc {
          assert nodes[x] == old(nodes[x]);
        }
      }
    }

    method CloseAccount(x: nat)
      requires Wf() && x in nodes
      modifies this
      ensures Wf() && Grown() && Abs() == old(Abs()).Close(x)
    {
      ThisApart();
      nodes := nodes - {x};
      OneClosed(x);
    }

    twostate lemma OneClosed(x: nat)
      requires old(Wf()) && nodes == old(nodes) - {x} && unchanged(old(Footprint()))
      ensures Wf() && Grown() && Store() == old(Store()) - {x}
    {
      forall y | y in nodes ensures nodes[y].Valid() && nodes[y].View() == old(nodes[y].View()) && nodes[y] == old(nodes[y]) {
        assert old(nodes[y].Repr()) <= old(Footprint());
      }
      assert Footprint() <= old(Footprint());
      hide Footprint, Node.View, Node.Valid;
      RemovedStore(old(Store()), Store(), x);
    }

    method LeafInsert(x: nat, e: Entry) returns (dup: bool)
      requires Wf() && x in nodes && Abs().nodes[x].Leaf?
      requires |Abs().nodes[x].es| <= fanout && Ascending(KeysOf(Abs().nodes[x].es))
      modifies Footprint()
      ensures Wf() && Footprint() == old(Footprint())
      ensures dup == Holds(old(Abs()).nodes[x].es, e.key)
      ensures Abs() == if dup then old(Abs())
                       else old(Abs()).Set(x, Leaf(Inserted(old(Abs()).nodes[x].es, e), old(Abs()).nodes[x].next))
    {
      hide Inserted, Holds, Wf, Abs;
      Separate(x, {x});
      var n := nodes[x];
      EntriesZip(n);
      dup := n.LeafInsert(e);
      OneWritten(x);
    }

    method LeafDelete(x: nat, key: Key) returns (out: Option<Val>)
      requires Wf() && x in nodes && Abs().nodes[x].Leaf? && Ascending(KeysOf(Abs().nodes[x].es))
      modifies Footprint()
      ensures Wf() && Footprint() == old(Footprint())
      ensures out == ValueIn(old(Abs()).nodes[x].es, key)
      ensures Abs() == if out.Some? then old(Abs()).Set(x, Leaf(Removed(old(Abs()).nodes[x].es, key), old(Abs()).nodes[x].next))
                       else old(Abs())
    {
      hide Removed, ValueIn, Wf, Abs;
      Separate(x, {x});
      var n := nodes[x];
      EntriesZip(n);
      out := n.LeafDelete(key);
      OneWritten(x);
    }

    method LeafUpdate(x: nat, e: Entry) returns (found: bool)
      requires Wf() && x in nodes && Abs().nodes[x].Leaf? && Ascending(KeysOf(Abs().nodes[x].es))
      modifies Footprint()
      ensures Wf() && Footprint() == old(Footprint())
      ensures found == Holds(old(Abs()).nodes[x].es, e.key)
      ensures Abs() == if found then old(Abs()).Set(x, Leaf(Updated(old(Abs()).nodes[x].es, e), old(Abs()).nodes[x].next))
                       else old(Abs())
    {
      hide Updated, Holds, Wf, Abs;
      Separate(x, {x});
      var n := nodes[x];
      EntriesZip(n);
      found := n.LeafUpdate(e);
      OneWritten(x);
    }

    // Half of leaf `x` moves to the fresh leaf `n`, which enters the chain behind it.
    method LeafSplit(x: nat, n: nat) returns (sep: Key)
      requires Wf() && x in nodes && n in nodes && x != n && Abs().nodes[x].Leaf? && |Abs().nodes[x].es| >= 1
      modifies Footprint()
      ensures Wf() && Footprint() == old(Footprint())
      ensures var v := old(Abs()).nodes[x];
              var half := |v.es| / 2;
              sep == v.es[half].key && Abs() == old(Abs()).Set(x, Leaf(v.es[..half], n)).Set(n, Leaf(v.es[half..], v.next))
    {
      hide Wf, Abs, Footprint, Node.Keys, Node.Kids, Node.Entries, Node.View, Node.Valid;
      Separate(x, {x, n});
      Separate(n, {x, n});
      Disjoint(x, n);
      var l := nodes[x];
      var r := nodes[n];
      Fields(l);
      assert l != r;
      sep := l.LeafSplit(r);
      Fields(l);
      r.Relink(l.next);
      l.Relink(n);
      TwoWritten((x, n));
    }

    // Put `sep` and the child to its right where they belong in node `x`.
    method InsertSeparator(x: nat, sep: Key, right: nat)
      requires Wf() && x in nodes && Abs().nodes[x].Inner? && |Abs().nodes[x].keys| <= fanout && Ascending(Abs().nodes[x].keys)
      requires Shaped(Abs().nodes[x])
      modifies Footprint()
      ensures Wf() && Footprint() == old(Footprint())
      ensures var v := old(Abs()).nodes[x];
              var pos := LowerBound(v.keys, sep);
              Abs() == old(Abs()).Set(x, Inner(InsertAt(v.keys, pos, sep), KidInsertAt(v.kids, pos, right)))
    {
      hide Wf, Abs, InsertAt, KidInsertAt;
      Separate(x, {x});
      var n := nodes[x];
      var pos := n.FindLowerBound(sep);
      n.InternalInsertAt(pos, sep, right);
      OneWritten(x);
    }

    method InternalSplit(x: nat, n: nat) returns (sep: Key)
      requires Wf() && x in nodes && n in nodes && x != n && Abs().nodes[x].Inner? && |Abs().nodes[x].keys| >= 1
      requires Shaped(Abs().nodes[x])
      modifies Footprint()
      ensures Wf() && Footprint() == old(Footprint())
      ensures var v := old(Abs()).nodes[x];
              var mid := |v.keys| / 2;
              && sep == v.keys[mid]
              && Abs() == old(Abs()).Set(x, Inner(v.keys[..mid], v.kids[..mid + 1])).Set(n, Inner(v.keys[mid + 1..], v.kids[mid + 1..]))
    {
      hide Wf, Abs, Footprint, Node.Keys, Node.Kids, Node.Entries, Node.View, Node.Valid;
      Separate(x, {x, n});
      Separate(n, {x, n});
      Disjoint(x, n);
      sep := nodes[x].InternalSplit(nodes[n]);
      TwoWritten((x, n));
    }

    // Fill the fresh node `n` with one separator between two children.
    method FillRoot(n: nat, sep: Key, left: nat, right: nat)
      requires Wf() && n in nodes && Abs().nodes[n].Inner? && fanout >= 1
      modifies Footprint()
      ensures Wf() && Footprint() == old(Footprint()) && Abs() == old(Abs()).Set(n, Inner([sep], [left, right]))
    {
      hide Wf, Abs;
      Separate(n, {n});
      var r := nodes[n];
      r.keys[0] := sep;
      r.kids[0], r.kids[1] := left, right;
      r.keyCount := 1;
      assert r.Keys() == [sep] && r.Kids() == [left, right];
      OneWritten(n);
    }

    method RemoveFirstChild(x: nat)
      requires Wf() && x in nodes && Abs().nodes[x].Inner? && |Abs().nodes[x].keys| >= 1 && Shaped(Abs().nodes[x])
      modifies Footprint()
      ensures Wf() && Footprint() == old(Footprint())
      ensures Abs() == old(Abs()).Set(x, Inner(old(Abs()).nodes[x].keys[1..], old(Abs()).nodes[x].kids[1..]))
    {
      hide Wf, Abs;
      Separate(x, {x});
      nodes[x].InternalRemoveFirst();
      OneWritten(x);
    }

    method RemoveChild(x: nat, pos: nat)
      requires Wf() && x in nodes && Abs().nodes[x].Inner? && pos < |Abs().nodes[x].keys| && Shaped(Abs().nodes[x])
      modifies Footprint()
      ensures Wf() && Footprint() == old(Footprint())
      ensures Abs() == old(Abs()).Set(x, Inner(RemoveAt(old(Abs()).nodes[x].keys, pos), RemoveAt(old(Abs()).nodes[x].kids, pos + 1)))
    {
      hide Wf, Abs, RemoveAt;
      Separate(x, {x});
      nodes[x].InternalRemoveAt(pos);
      OneWritten(x);
    }

    // ---- borrow and merge ----

    // `l` and `r` are neighbours of one kind under `par`, with separator `sep` between them.
    ghost predicate Neighbours(l: nat, r: nat, par: nat, sep: nat)
      requires Wf()
      reads this, nodes.Values, Footprint()
    {
      && l in nodes && r in nodes && par in nodes && l != r && l != par && r != par
      && var s := Abs();
      && s.nodes[par].Inner? && sep < |s.nodes[par].keys| && s.nodes[l].Leaf? == s.nodes[r].Leaf?
      && Shaped(s.nodes[par]) && Shaped(s.nodes[l]) && Shaped(s.nodes[r])
    }

    lemma ThreeApart(l: nat, r: nat, par: nat, sep: nat)
      requires Wf() && Neighbours(l, r, par, sep)
      ensures l in nodes && r in nodes && par in nodes && l in Abs().nodes && r in Abs().nodes && par in Abs().nodes
      ensures nodes[l].Valid() && nodes[r].Valid() && nodes[par].Valid()
      ensures nodes[l].fanout == nodes[r].fanout == nodes[par].fanout == fanout
      ensures nodes[l].Repr() !! nodes[r].Repr() && nodes[l].Repr() !! nodes[par].Repr() && nodes[r].Repr() !! nodes[par].Repr()
      ensures Others({l, r, par}) !! nodes[l].Repr() && Others({l, r, par}) !! nodes[r].Repr() && Others({l, r, par}) !! nodes[par].Repr()
      ensures nodes[l].Repr() <= Footprint() && nodes[r].Repr() <= Footprint() && nodes[par].Repr() <= Footprint()
      ensures this !in nodes[l].Repr() && this !in nodes[r].Repr() && this !in nodes[par].Repr()
      ensures Abs().At(l) == nodes[l].View() && Abs().At(r) == nodes[r].View() && Abs().At(par) == nodes[par].View()
      ensures Abs().At(par).Inner? && sep < |Abs().At(par).keys| && Abs().At(l).Leaf? == Abs().At(r).Leaf?
    {
      Separate(l, {l, r, par});
      Separate(r, {l, r, par});
      Separate(par, {l, r, par});
      Disjoint(l, r);
      Disjoint(l, par);
      Disjoint(r, par);
    }

    method BorrowRight(l: nat, r: nat, par: nat, sep: nat)
      requires Wf() && Neighbours(l, r, par, sep)
      requires Count(Abs().At(l)) <= fanout && Count(Abs().At(r)) >= 2
      modifies Footprint()
      ensures Wf() && Footprint() == old(Footprint()) && BorrowFromRight(old(Abs()), l, r, par, sep) == Ok(Abs())
    {
      hide Wf, Abs, Neighbours, Footprint, Node.Keys, Node.Kids, Node.Entries, Node.View, Node.Valid, BorrowFromRight;
      ThreeApart(l, r, par, sep);
      Fields(nodes[l]);
      Fields(nodes[r]);
      BorrowRightIs(Abs(), l, r, par, sep);
      if nodes[l].isLeaf {
        nodes[l].LeafBorrowFromRight(nodes[r], nodes[par], sep);
      } else {
        nodes[l].InternalBorrowFromRight(nodes[r], nodes[par], sep);
      }
      ThreeWritten((l, r, par));
    }

    method BorrowLeft(l: nat, r: nat, par: nat, sep: nat)
      requires Wf() && Neighbours(l, r, par, sep)
      requires Count(Abs().At(r)) <= fanout && Count(Abs().At(l)) >= 1
      modifies Footprint()
      ensures Wf() && Footprint() == old(Footprint()) && BorrowFromLeft(old(Abs()), l, r, par, sep) == Ok(Abs())
    {
      hide Wf, Abs, Neighbours, Footprint, Node.Keys, Node.Kids, Node.Entries, Node.View, Node.Valid, BorrowFromLeft;
      ThreeApart(l, r, par, sep);
      Fields(nodes[l]);
      Fields(nodes[r]);
      BorrowLeftIs(Abs(), l, r, par, sep);
      assert {r, l, par} == {l, r, par};
      if nodes[r].isLeaf {
        nodes[r].LeafBorrowFromLeft(nodes[l], nodes[par], sep);
      } else {
        nodes[r].InternalBorrowFromLeft(nodes[l], nodes[par], sep);
      }
      ThreeWritten((r, l, par));
    }

    // The merge itself; unlinking and closing `r` comes after.
    method Absorb(l: nat, r: nat, par: nat, sep: nat)
      requires Wf() && Neighbours(l, r, par, sep)
      requires Count(Abs().At(l)) + Count(Abs().At(r)) < fanout
      modifies Footprint()
      ensures Wf() && Footprint() == old(Footprint())
      ensures var a, b, p := old(Abs()).At(l), old(Abs()).At(r), old(Abs()).At(par);
              p.Inner? && sep < |p.keys| && a.Leaf? == b.Leaf? &&
              Abs() == old(Abs()).Set(l, if a.Leaf? && b.Leaf? then Leaf(a.es + b.es, b.next)
                                         else if a.Inner? && b.Inner? then Inner(a.keys + [p.keys[sep]] + b.keys, a.kids + b.kids) else a)
    {
      hide Wf, Abs, Neighbours, Footprint, Node.Keys, Node.Kids, Node.Entries, Node.View, Node.Valid;
      ThreeApart(l, r, par, sep);
      Fields(nodes[l]);
      Separate(l, {l});
      if nodes[l].isLeaf {
        nodes[l].LeafMerge(nodes[r]);
      } else {
        nodes[l].InternalMergeRight(nodes[r], nodes[par], sep);
      }
      OneWritten(l);
    }
  }

  lemma BorrowRightIs(s: State, l: nat, r: nat, par: nat, sep: nat)
    requires s.At(par).Inner? && sep < |s.At(par).keys| && s.At(l).Leaf? == s.At(r).Leaf? && Count(s.At(r)) >= 2 && Shaped(s.At(r))
    ensures var a, b, p := s.At(l), s.At(r), s.At(par);
            BorrowFromRight(s, l, r, par, sep) ==
            if a.Leaf? && b.Leaf? then
              Ok(s.Set(l, Leaf(a.es + [b.es[0]], a.next)).Set(r, Leaf(b.es[1..], b.next)).Set(par, Inner(p.keys[sep := b.es[1].key], p.kids)))
            else if a.Inner? && b.Inner? then
              Ok(s.Set(l, Inner(a.keys + [p.keys[sep]], a.kids + [b.kids[0]])).Set(r, Inner(b.keys[1..], b.kids[1..]))
                  .Set(par, Inner(p.keys[sep := b.keys[0]], p.kids)))
            else Err(BadNode)
  {
  }

  lemma BorrowLeftIs(s: State, l: nat, r: nat, par: nat, sep: nat)
    requires s.At(par).Inner? && sep < |s.At(par).keys| && s.At(l).Leaf? == s.At(r).Leaf? && Count(s.At(l)) >= 1 && Shaped(s.At(l))
    ensures var a, b, p, m := s.At(l), s.At(r), s.At(par), Count(s.At(l)) - 1;
            BorrowFromLeft(s, l, r, par, sep) ==
            if a.Leaf? && b.Leaf? then
              Ok(s.Set(r, Leaf([a.es[m]] + b.es, b.next)).Set(l, Leaf(a.es[..m], a.next)).Set(par, Inner(p.keys[sep := a.es[m].key], p.kids)))
            else if a.Inner? && b.Inner? then
              Ok(s.Set(r, Inner([p.keys[sep]] + b.keys, [a.kids[m + 1]] + b.kids)).Set(l, Inner(a.keys[..m], a.kids[..m + 1]))
                  .Set(par, Inner(p.keys[sep := a.keys[m]], p.kids)))
            else Err(BadNode)
  {
  }

  lemma ThreeSet(st: Store, st': Store, x: nat, y: nat, z: nat)
    requires st'.Keys == st.Keys && x in st && y in st && z in st
    requires forall k | k in st && k != x && k != y && k != z :: st'[k] == st[k]
    ensures st' == st[x := st'[x]][y := st'[y]][z := st'[z]]
  {
  }

  lemma AddedStore(st: Store, st': Store, x: nat)
    requires x in st' && st'.Keys == st.Keys + {x}
    requires forall k | k in st && k != x :: st'[k] == st[k]
    ensures st' == st[x := st'[x]]
  {
  }

  lemma RemovedStore(st: Store, st': Store, x: nat)
    requires st'.Keys == st.Keys - {x}
    requires forall k | k in st' :: st'[k] == st[k]
    ensures st' == st - {x}
  {
  }
}
