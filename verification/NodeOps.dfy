// One node account and the in-place operations of src/node.h on it, each proved to do to the
// node's contents what module NodeViews says.
module NodeOps {
  import opened Base
  import opened NodeViews
  import opened Engine
  import opened Memory

  function Zip(ks: seq<Key>, vs: seq<Val>): (es: seq<Entry>)
    requires |ks| == |vs|
    ensures |es| == |ks|
  {
    seq(|ks|, i requires 0 <= i < |ks| => Entry(ks[i], vs[i]))
  }

  // An internal node uses `kids`, a leaf uses `vals`; one slot more than a node may hold at
  // rest is there for the moment between an insert and the split that follows it.
  class Node {
    const fanout: nat
    const keys: array<Key>
    const vals: array<Val>
    const kids: array<nat>
    var keyCount: nat
    var isLeaf: bool
    var next: nat

    ghost function Repr(): set<object> {
      {this, keys, vals, kids}
    }

    ghost predicate Valid()
      reads this
    {
      && keys.Length == fanout + 1 && vals.Length == fanout + 1 && kids.Length == fanout + 2
      && keyCount <= fanout + 1
      && keys as object != vals as object && keys as object != kids as object && vals as object != kids as object
    }

    ghost function Keys(): (ks: seq<Key>)
      reads this, keys
      requires Valid()
      ensures |ks| == keyCount
    {
      keys[..keyCount]
    }

    ghost function Vals(): (vs: seq<Val>)
      reads this, vals
      requires Valid()
      ensures |vs| == keyCount
    {
      vals[..keyCount]
    }

    ghost function Kids(): (cs: seq<nat>)
      reads this, kids
      requires Valid()
      ensures |cs| == keyCount + 1
    {
      kids[..keyCount + 1]
    }

    ghost function Entries(): (es: seq<Entry>)
      reads this, keys, vals
      requires Valid()
      ensures |es| == keyCount
    {
      Zip(Keys(), Vals())
    }

    ghost function View(): NodeView
      reads this, keys, vals, kids
      requires Valid()
    {
      if isLeaf then Leaf(Entries(), next) else Inner(Keys(), Kids())
    }

    constructor (fanout: nat, isLeaf: bool)
      ensures Valid() && fresh(Repr()) && this.fanout == fanout
      ensures View() == if isLeaf then Leaf([], 0) else ZEROED
    {
      this.fanout := fanout;
      this.isLeaf := isLeaf;
      keyCount := 0;
      next := 0;
      keys := new Key[fanout + 1](_ => 0);
      vals := new Val[fanout + 1](_ => []);
      kids := new nat[fanout + 2](_ => 0);
    }

    // Binary search for the first key that is not below `key`.
    method FindLowerBound(key: Key) returns (lo: nat)
      requires Valid() && Ascending(Keys())
      ensures lo == LowerBound(Keys(), key)
      ensures lo <= keyCount
    {
      lo := 0;
      var hi := keyCount;
      while lo < hi
        invariant lo <= hi <= keyCount
        invariant forall i | 0 <= i < lo :: keys[i] < key
        invariant forall i | hi <= i < keyCount :: key <= keys[i]
      {
        var mid := (lo + hi) / 2;
        if keys[mid] < key {
          assert forall i | 0 <= i <= mid :: Keys()[i] <= Keys()[mid];
          lo := mid + 1;
        } else {
          assert forall i | mid <= i < keyCount :: Keys()[mid] <= Keys()[i];
          hi := mid;
        }
      }
      LowerBoundUnique(Keys(), key, lo);
    }

    // ---- leaf operations ----

    // Where `key` stands in this leaf, and whether it is there.
    method Locate(key: Key) returns (pos: nat, found: bool)
      requires Valid() && Ascending(Keys())
      ensures pos == Pos(Entries(), key) && pos <= keyCount && found == Holds(Entries(), key)
      ensures found ==> pos < keyCount
    {
      pos := FindLowerBound(key);
      found := pos < keyCount && keys[pos] == key;
      ZipKeys(Keys(), Vals());
    }

    method LeafInsert(e: Entry) returns (dup: bool)
      requires Valid() && isLeaf && keyCount <= fanout && Ascending(Keys())
      modifies this`keyCount, keys, vals
      ensures Valid()
      ensures dup == Holds(old(Entries()), e.key)
      ensures View() == if dup then old(View()) else Leaf(Inserted(old(Entries()), e), next)
    {
      ghost var ks, vs := Keys(), Vals();
      var pos;
      pos, dup := Locate(e.key);
      if !dup {
        hide Zip, Put, Holds, Pos, Ascending;
        PutSlot(keys, keyCount, pos, e.key);
        PutSlot(vals, keyCount, pos, e.val);
        keyCount := keyCount + 1;
        ZipPut(ks, vs, pos, e);
      }
    }

    method LeafDelete(key: Key) returns (out: Option<Val>)
      requires Valid() && isLeaf && Ascending(Keys())
      modifies this`keyCount, keys, vals
      ensures Valid()
      ensures out == ValueIn(old(Entries()), key)
      ensures View() == if out.Some? then Leaf(Removed(old(Entries()), key), next) else old(View())
    {
      ghost var ks, vs := Keys(), Vals();
      var pos, found := Locate(key);
      if !found {
        return None;
      }
      out := Some(vals[pos]);
      ZipAt(ks, vs, pos);
      hide Zip, Holds, Pos, Ascending, RemoveAt;
      DropSlot(keys, keyCount, pos);
      DropSlot(vals, keyCount, pos);
      keyCount := keyCount - 1;
      ZipCut(ks, vs, pos);
    }

    method LeafUpdate(e: Entry) returns (found: bool)
      requires Valid() && isLeaf && Ascending(Keys())
      modifies vals
      ensures Valid()
      ensures found == Holds(old(Entries()), e.key)
      ensures View() == if found then Leaf(Updated(old(Entries()), e), next) else old(View())
    {
      ghost var ks, vs := Keys(), Vals();
      var pos;
      pos, found := Locate(e.key);
      if found {
        FoundKey(ks, vs, pos, e.key);
        hide Zip, Holds, Pos, Ascending;
        SetSlot(vals, keyCount, pos, e.val);
        ZipSet(ks, vs, pos, e);
      }
    }

    // The right half of an over-full leaf moves into the fresh leaf `nd`.
    method LeafSplit(nd: Node) returns (sep: Key)
      requires Valid() && nd.Valid() && View().Leaf? && nd.fanout == fanout && Repr() !! nd.Repr()
      requires |View().es| >= 1
      modifies Repr(), nd.Repr()
      ensures Valid() && nd.Valid()
      ensures var v := old(View());
              var half := |v.es| / 2;
              && View() == Leaf(v.es[..half], v.next) && nd.View().Leaf? && nd.View().es == v.es[half..]
              && sep == v.es[half].key
    {
      ghost var ks, vs := Keys(), Vals();
      var total := keyCount;
      var half := total / 2;
      var moved := total - half;
      CopyPart(nd.keys, keys, total, half);
      CopyPart(nd.vals, vals, total, half);
      nd.keyCount := moved;
      keyCount := half;
      nd.isLeaf := true;
      sep := nd.keys[0];
      assert nd.Keys()[0] == ks[half..][0];
      Halved(keys, total, half);
      Halved(vals, total, half);
      ZipHalves(ks, vs, half);
      hide Zip;
    }

    method Relink(next: nat)
      requires Valid() && View().Leaf?
      modifies this`next
      ensures Valid() && View() == Leaf(old(View()).es, next)
    {
      this.next := next;
    }

    // ---- internal operations ----

    method InternalInsertAt(pos: nat, sep: Key, right: nat)
      requires Valid() && !isLeaf && keyCount <= fanout && pos <= keyCount
      modifies this`keyCount, keys, kids
      ensures Valid()
      ensures View() == Inner(InsertAt(old(Keys()), pos, sep), KidInsertAt(old(Kids()), pos, right))
    {
      PutSlot(keys, keyCount, pos, sep);
      PutByLoop(kids, keyCount + 1, pos + 1, right);
      keyCount := keyCount + 1;
    }

    // The middle key is promoted; the right half moves into the fresh node `nd`.
    method InternalSplit(nd: Node) returns (sep: Key)
      requires Valid() && nd.Valid() && View().Inner? && nd.fanout == fanout && Repr() !! nd.Repr()
      requires |View().keys| >= 1
      modifies Repr(), nd.Repr()
      ensures Valid() && nd.Valid()
      ensures var v := old(View());
              var mid := |v.keys| / 2;
              && Shaped(v)
              && View() == Inner(v.keys[..mid], v.kids[..mid + 1])
              && nd.View() == Inner(v.keys[mid + 1..], v.kids[mid + 1..])
              && sep == v.keys[mid]
    {
      var total := keyCount;
      var mid := total / 2;
      sep := keys[mid];
      CopyPart(nd.keys, keys, total, mid + 1);
      CopyPart(nd.kids, kids, total + 1, mid + 1);
      nd.keyCount := total - mid - 1;
      keyCount := mid;
      nd.isLeaf := false;
      Halved(keys, total, mid);
      Halved(kids, total + 1, mid + 1);
      assert Keys() == old(Keys())[..mid] && Kids() == old(Kids())[..mid + 1];
      assert nd.Keys() == old(Keys())[mid + 1..] && nd.Kids() == old(Kids())[mid + 1..];
    }

    method InternalRemoveAt(pos: nat)
      requires Valid() && !isLeaf && pos < keyCount
      modifies this`keyCount, keys, kids
      ensures Valid()
      ensures View() == Inner(RemoveAt(old(Keys()), pos), RemoveAt(old(Kids()), pos + 1))
    {
      hide RemoveAt;
      DropSlot(keys, keyCount, pos);
      DropByLoop(kids, keyCount + 1, pos + 1);
      keyCount := keyCount - 1;
    }

    // Drop kids[0] and the separator behind it.
    method InternalRemoveFirst()
      requires Valid() && !isLeaf && keyCount >= 1
      modifies this`keyCount, keys, kids
      ensures Valid()
      ensures View() == Inner(old(Keys())[1..], old(Kids())[1..]) && keyCount == old(keyCount) - 1
    {
      ghost var ks, cs := Keys(), Kids();
      hide RemoveAt;
      DropSlot(keys, keyCount, 0);
      DropByLoop(kids, keyCount + 1, 0);
      keyCount := keyCount - 1;
      RemoveFirst(ks);
      RemoveFirst(cs);
    }

    // ---- borrow and merge, around separator `sep` of the parent ----

    ghost predicate Apart(sib: Node, par: Node) {
      Repr() !! sib.Repr() && Repr() !! par.Repr() && sib.Repr() !! par.Repr()
    }

    // One more entry behind the last.
    method PushEntry(k: Key, v: Val)
      requires Valid() && keyCount <= fanout
      modifies this`keyCount, keys, vals
      ensures Valid() && Entries() == old(Entries()) + [Entry(k, v)] && keyCount == old(keyCount) + 1
    {
      ghost var ks, vs := Keys(), Vals();
      AppendOne(keys, keyCount, k);
      AppendOne(vals, keyCount, v);
      keyCount := keyCount + 1;
      ZipAppend(ks, vs, [k], [v]);
      ZipAt([k], [v], 0);
      assert Zip([k], [v]) == [Entry(k, v)];
    }

    // The first entry goes.
    method DropFirst()
      requires Valid() && keyCount >= 1
      modifies this`keyCount, keys, vals
      ensures Valid() && Entries() == old(Entries())[1..] && Keys() == old(Keys())[1..] && keyCount == old(keyCount) - 1
    {
      ghost var ks, vs := Keys(), Vals();
      hide Zip, RemoveAt;
      DropSlot(keys, keyCount, 0);
      DropSlot(vals, keyCount, 0);
      keyCount := keyCount - 1;
      RemoveFirst(ks);
      ZipCut(ks, vs, 0);
      RemoveFirst(Zip(ks, vs));
    }

    // This leaf takes the first entry of its right neighbour.
    method LeafBorrowFromRight(right: Node, par: Node, sep: nat)
      requires Valid() && right.Valid() && par.Valid() && Apart(right, par)
      requires View().Leaf? && right.View().Leaf? && par.View().Inner?
      requires Count(View()) <= fanout && Count(right.View()) >= 2 && sep < Count(par.View())
      modifies Repr(), right.Repr(), par.Repr()
      ensures Valid() && right.Valid() && par.Valid()
      ensures var a, b, p := old(View()), old(right.View()), old(par.View());
              && View() == Leaf(a.es + [b.es[0]], a.next) && right.View() == Leaf(b.es[1..], b.next)
              && par.View() == Inner(p.keys[sep := b.es[1].key], p.kids)
    {
      ZipAt(right.Keys(), right.Vals(), 0);
      ZipAt(right.Keys(), right.Vals(), 1);
      hide Zip;
      PushEntry(right.keys[0], right.vals[0]);
      right.DropFirst();
      SetSlot(par.keys, par.keyCount, sep, right.keys[0]);
    }

    // This leaf takes the last entry of its left neighbour.
    method LeafBorrowFromLeft(left: Node, par: Node, sep: nat)
      requires Valid() && left.Valid() && par.Valid() && Apart(left, par)
      requires View().Leaf? && left.View().Leaf? && par.View().Inner?
      requires Count(View()) <= fanout && Count(left.View()) >= 1 && sep < Count(par.View())
      modifies Repr(), left.Repr(), par.Repr()
      ensures Valid() && left.Valid() && par.Valid()
      ensures var a, b, p := old(left.View()), old(View()), old(par.View());
              var m := |a.es| - 1;
              && View() == Leaf([a.es[m]] + b.es, b.next) && left.View() == Leaf(a.es[..m], a.next)
              && par.View() == Inner(p.keys[sep := a.es[m].key], p.kids)
    {
      ghost var ks, vs := Keys(), Vals();
      var m := left.keyCount - 1;
      ZipAt(left.Keys(), left.Vals(), m);
      ZipHalves(left.Keys(), left.Vals(), m);
      Halved(left.keys, m + 1, m);
      Halved(left.vals, m + 1, m);
      ghost var e := left.Entries()[m];
      hide Zip, Put;
      PutSlot(keys, keyCount, 0, left.keys[m]);
      PutSlot(vals, keyCount, 0, left.vals[m]);
      keyCount := keyCount + 1;
      left.keyCount := left.keyCount - 1;
      ZipPut(ks, vs, 0, e);
      PutFirst(Zip(ks, vs), e);
      PutFirst(ks, e.key);
      assert Keys()[0] == keys[0];
      SetSlot(par.keys, par.keyCount, sep, keys[0]);
    }

    // Everything of the right neighbour goes behind this leaf's entries.
    method LeafMerge(right: Node)
      requires Valid() && right.Valid() && Repr() !! right.Repr() && View().Leaf? && right.View().Leaf?
      requires Count(View()) + Count(right.View()) <= fanout + 1
      modifies Repr()
      ensures Valid()
      ensures View() == Leaf(old(View()).es + old(right.View()).es, old(right.View()).next)
    {
      ZipAppend(Keys(), Vals(), right.Keys(), right.Vals());
      hide Zip;
      Append(keys, keyCount, right.keys, right.keyCount);
      Append(vals, keyCount, right.vals, right.keyCount);
      keyCount := keyCount + right.keyCount;
      next := right.next;
    }

    // One more separator and child behind the last.
    method PushChild(k: Key, kid: nat)
      requires Valid() && !isLeaf && keyCount <= fanout
      modifies this`keyCount, keys, kids
      ensures Valid() && keyCount == old(keyCount) + 1
      ensures Keys() == old(Keys()) + [k] && Kids() == old(Kids()) + [kid]
    {
      AppendOne(keys, keyCount, k);
      AppendOne(kids, keyCount + 1, kid);
      keyCount := keyCount + 1;
    }

    // The first separator goes up to the parent, and the first child with it is gone.
    method YieldFirst(par: Node, sep: nat)
      requires Valid() && par.Valid() && Repr() !! par.Repr() && !isLeaf && !par.isLeaf && keyCount >= 1 && sep < par.keyCount
      modifies this`keyCount, keys, kids, par.keys
      ensures Valid() && par.Valid() && View() == Inner(old(Keys())[1..], old(Kids())[1..])
      ensures par.View() == Inner(old(par.Keys())[sep := old(Keys())[0]], old(par.Kids()))
    {
      SetSlot(par.keys, par.keyCount, sep, keys[0]);
      InternalRemoveFirst();
    }

    // One more separator and child before the first.
    method PutChildFirst(k: Key, kid: nat)
      requires Valid() && !isLeaf && keyCount <= fanout
      modifies this`keyCount, keys, kids
      ensures Valid() && keyCount == old(keyCount) + 1
      ensures Keys() == [k] + old(Keys()) && Kids() == [kid] + old(Kids())
    {
      PutFirst(Keys(), k);
      PutFirst(Kids(), kid);
      hide Put;
      PutSlot(keys, keyCount, 0, k);
      PutByLoop(kids, keyCount + 1, 0, kid);
      keyCount := keyCount + 1;
    }

    // The right neighbour's first child moves over, through the parent's separator.
    method InternalBorrowFromRight(sib: Node, par: Node, sep: nat)
      requires Valid() && sib.Valid() && par.Valid() && Apart(sib, par)
      requires View().Inner? && sib.View().Inner? && par.View().Inner?
      requires Count(View()) <= fanout && Count(sib.View()) >= 1 && sep < Count(par.View())
      modifies Repr(), sib.Repr(), par.Repr()
      ensures Valid() && sib.Valid() && par.Valid()
      ensures var a, b, p := old(View()), old(sib.View()), old(par.View());
              && Shaped(b)
              && View() == Inner(a.keys + [p.keys[sep]], a.kids + [b.kids[0]])
              && sib.View() == Inner(b.keys[1..], b.kids[1..]) && par.View() == Inner(p.keys[sep := b.keys[0]], p.kids)
    {
      PushChild(par.keys[sep], sib.kids[0]);
      sib.YieldFirst(par, sep);
    }

    // The left neighbour's last child moves over, through the parent's separator.
    method InternalBorrowFromLeft(sib: Node, par: Node, sep: nat)
      requires Valid() && sib.Valid() && par.Valid() && Apart(sib, par)
      requires View().Inner? && sib.View().Inner? && par.View().Inner?
      requires Count(View()) <= fanout && Count(sib.View()) >= 1 && sep < Count(par.View())
      modifies Repr(), sib.Repr(), par.Repr()
      ensures Valid() && sib.Valid() && par.Valid()
      ensures var a, b, p := old(sib.View()), old(View()), old(par.View());
              var m := |a.keys| - 1;
              && Shaped(a)
              && View() == Inner([p.keys[sep]] + b.keys, [a.kids[m + 1]] + b.kids)
              && sib.View() == Inner(a.keys[..m], a.kids[..m + 1]) && par.View() == Inner(p.keys[sep := a.keys[m]], p.kids)
    {
      var m := sib.keyCount - 1;
      Halved(sib.keys, m + 1, m);
      Halved(sib.kids, m + 2, m + 1);
      PutChildFirst(par.keys[sep], sib.kids[m + 1]);
      SetSlot(par.keys, par.keyCount, sep, sib.keys[m]);
      sib.keyCount := sib.keyCount - 1;
    }

    // The parent's separator and everything of the right neighbour go behind this node's own.
    method InternalMergeRight(right: Node, par: Node, sep: nat)
      requires Valid() && right.Valid() && par.Valid() && Apart(right, par)
      requires View().Inner? && right.View().Inner? && par.View().Inner?
      requires Count(View()) + 1 + Count(right.View()) <= fanout + 1 && sep < Count(par.View())
      modifies Repr()
      ensures Valid()
      ensures var a, b, p := old(View()), old(right.View()), old(par.View());
              View() == Inner(a.keys + [p.keys[sep]] + b.keys, a.kids + b.kids)
    {
      AppendOne(keys, keyCount, par.keys[sep]);
      Append(keys, keyCount + 1, right.keys, right.keyCount);
      Append(kids, keyCount + 1, right.kids, right.keyCount + 1);
      keyCount := keyCount + 1 + right.keyCount;
    }
  }

  // What can be read off the fields.
  lemma Fields(n: Node)
    requires n.Valid()
    ensures n.isLeaf == n.View().Leaf? && n.keyCount == Count(n.View()) && Shaped(n.View())
    ensures n.View().Leaf? ==> n.View().next == n.next && n.View().es == n.Entries()
    ensures n.View().Inner? ==> n.View().keys == n.Keys() && n.View().kids == n.Kids()
  {
  }

  lemma EntriesZip(n: Node)
    requires n.Valid()
    ensures KeysOf(n.Entries()) == n.Keys()
  {
    ZipKeys(n.Keys(), n.Vals());
  }

  lemma PutFirst<T>(s: seq<T>, x: T)
    ensures Put(s, 0, x) == [x] + s && s[..0] + [x] + s[0..] == [x] + s
  {
  }

  lemma RemoveFirst<T>(s: seq<T>)
    requires |s| > 0
    ensures RemoveAt(s, 0) == s[1..]
  {
  }

  lemma Halved<T>(a: array<T>, n: nat, half: nat)
    requires half <= n <= a.Length
    ensures a[..n][..half] == a[..half]
  {
  }

  lemma ZipKeys(ks: seq<Key>, vs: seq<Val>)
    requires |ks| == |vs|
    ensures KeysOf(Zip(ks, vs)) == ks
    ensures forall i | 0 <= i < |ks| :: Zip(ks, vs)[i].key == ks[i]
  {
  }

  lemma ZipAt(ks: seq<Key>, vs: seq<Val>, i: nat)
    requires |ks| == |vs| && i < |ks|
    ensures Zip(ks, vs)[i] == Entry(ks[i], vs[i])
  {
  }

  lemma FoundKey(ks: seq<Key>, vs: seq<Val>, pos: nat, key: Key)
    requires |ks| == |vs| && Holds(Zip(ks, vs), key) && pos == Pos(Zip(ks, vs), key)
    ensures pos < |ks| && ks[pos] == key
  {
  }

  lemma ZipPut(ks: seq<Key>, vs: seq<Val>, p: nat, e: Entry)
    requires |ks| == |vs| && p <= |ks|
    ensures |Put(ks, p, e.key)| == |Put(vs, p, e.val)|
    ensures Zip(Put(ks, p, e.key), Put(vs, p, e.val)) == Zip(ks, vs)[..p] + [e] + Zip(ks, vs)[p..]
  {
    PutIs(Zip(ks, vs), p, e, Zip(Put(ks, p, e.key), Put(vs, p, e.val)));
  }

  lemma ZipCut(ks: seq<Key>, vs: seq<Val>, p: nat)
    requires |ks| == |vs| && p < |ks|
    ensures |RemoveAt(ks, p)| == |RemoveAt(vs, p)|
    ensures Zip(RemoveAt(ks, p), RemoveAt(vs, p)) == Zip(ks, vs)[..p] + Zip(ks, vs)[p + 1..] == RemoveAt(Zip(ks, vs), p)
  {
    DropIs(Zip(ks, vs), p, Zip(RemoveAt(ks, p), RemoveAt(vs, p)));
  }

  lemma ZipSet(ks: seq<Key>, vs: seq<Val>, p: nat, e: Entry)
    requires |ks| == |vs| && p < |ks| && ks[p] == e.key
    ensures Zip(ks, vs[p := e.val]) == Zip(ks, vs)[p := e]
  {
  }

  lemma ZipHalves(ks: seq<Key>, vs: seq<Val>, half: nat)
    requires |ks| == |vs| && half <= |ks|
    ensures Zip(ks[..half], vs[..half]) == Zip(ks, vs)[..half]
    ensures Zip(ks[half..], vs[half..]) == Zip(ks, vs)[half..]
    ensures half < |ks| ==> Zip(ks, vs)[half].key == ks[half]
  {
  }

  lemma ZipAppend(k1: seq<Key>, v1: seq<Val>, k2: seq<Key>, v2: seq<Val>)
    requires |k1| == |v1| && |k2| == |v2|
    ensures Zip(k1 + k2, v1 + v2) == Zip(k1, v1) + Zip(k2, v2)
  {
    JoinIs(Zip(k1, v1), Zip(k2, v2), Zip(k1 + k2, v1 + v2));
  }

  lemma LowerBoundUnique(ks: seq<Key>, key: Key, p: nat)
    requires p <= |ks|
    requires forall i | 0 <= i < p :: ks[i] < key
    requires forall i | p <= i < |ks| :: key <= ks[i]
    ensures LowerBound(ks, key) == p
  {
    var q := LowerBound(ks, key);
    if q < |ks| {
      assert key <= ks[q];
    }
    if p < |ks| {
      assert key <= ks[p];
    }
  }
}
