// The ordered map a well-formed state stands for.
module MapModel {
  import opened Base
  import opened NodeViews
  import opened Shapes
  import opened Engine
  import opened Represent
  import opened Search
  import opened Edits

  // ---- the entries of a well-formed tree are sorted and in range ----

  lemma EntriesInConcat(a: seq<Entry>, b: seq<Entry>, lo: int, mid: int, hi: int)
    requires EntriesIn(a, lo, mid) && EntriesIn(b, mid, hi) && lo <= mid <= hi
    ensures EntriesIn(a + b, lo, hi)
  {
  }

  lemma {:induction false} EntriesSorted(t: Tree, h: nat, lo: int, hi: int, c: Occ)
    requires WFNode(t, h, lo, hi, c)
    ensures EntriesIn(Entries(t), lo, hi)
    decreases t, 1
  {
    if t.TNode? {
      EntriesOfSorted(t.keys, t.kids, h - 1, lo, hi, c);
    }
  }

  lemma {:induction false} EntriesOfSorted(keys: seq<Key>, kids: seq<Tree>, h: nat, lo: int, hi: int, c: Occ)
    requires WFKids(keys, kids, h, lo, hi, c)
    ensures EntriesIn(EntriesOf(kids), lo, hi)
    decreases kids, 0
  {
    hide EntriesIn;
    if |keys| == 0 {
      assert kids == [kids[0]];
      FlattenOne(kids[0]);
      EntriesSorted(kids[0], h, lo, hi, c);
    } else {
      EntriesSorted(kids[0], h, lo, keys[0], c);
      EntriesOfSorted(keys[1..], kids[1..], h, keys[0], hi, c);
      EntriesInConcat(Entries(kids[0]), EntriesOf(kids[1..]), lo, keys[0], hi);
    }
  }

  // ---- lookup ----

  ghost predicate HasKey(es: seq<Entry>, key: Key) {
    exists i :: 0 <= i < |es| && es[i].key == key
  }

  lemma HoldsIff(es: seq<Entry>, key: Key, lo: int, hi: int)
    requires EntriesIn(es, lo, hi)
    ensures Holds(es, key) <==> HasKey(es, key)
  {
  }

  lemma HasKeyMiddle(a: seq<Entry>, b: seq<Entry>, c: seq<Entry>, e: Entry)
    requires !HasKey(a, e.key) && !HasKey(c, e.key)
    ensures HasKey(a + b + c, e.key) <==> HasKey(b, e.key)
    ensures e in a + b + c <==> e in b
  {
    var s := a + b + c;
    forall i | 0 <= i < |b| ensures s[|a| + i] == b[i] { }
    if HasKey(s, e.key) {
      var i :| 0 <= i < |s| && s[i].key == e.key;
      assert |a| <= i < |a| + |b|;
      assert b[i - |a|].key == e.key;
    }
  }

  lemma OutOfRange(es: seq<Entry>, key: Key, lo: int, hi: int)
    requires EntriesIn(es, lo, hi) && !(lo <= key < hi)
    ensures !HasKey(es, key)
  {
  }

  lemma OtherKids(keys: seq<Key>, kids: seq<Tree>, j: nat, key: Key, h: nat, lo: int, hi: int, c: Occ)
    requires WFKids(keys, kids, h, lo, hi, c) && |kids| == |keys| + 1
    requires j <= |keys| && LoAt(keys, lo, j) <= key < HiAt(keys, hi, j)
    ensures !HasKey(EntriesOf(kids[..j]), key) && !HasKey(EntriesOf(kids[j + 1..]), key)
  {
    hide WFKids, EntriesOf, HasKey, EntriesIn;
    if j > 0 {
      WFKidsCut(keys, kids, j - 1, h, lo, hi, c);
      EntriesOfSorted(keys[..j - 1], kids[..j], h, lo, keys[j - 1], c);
      OutOfRange(EntriesOf(kids[..j]), key, lo, keys[j - 1]);
    } else {
      NoEntries(kids[..0], key);
    }
    if j < |keys| {
      WFKidsCut(keys, kids, j, h, lo, hi, c);
      EntriesOfSorted(keys[j + 1..], kids[j + 1..], h, keys[j], hi, c);
      OutOfRange(EntriesOf(kids[j + 1..]), key, keys[j], hi);
    } else {
      NoEntries(kids[j + 1..], key);
    }
  }

  lemma NoEntries(ts: seq<Tree>, key: Key)
    requires |ts| == 0
    ensures !HasKey(EntriesOf(ts), key)
  {
  }

  // Only the child that covers a key can hold it.
  lemma LookupInKid(keys: seq<Key>, kids: seq<Tree>, j: nat, e: Entry, h: nat, lo: int, hi: int, c: Occ)
    requires WFKids(keys, kids, h, lo, hi, c) && |kids| == |keys| + 1
    requires j <= |keys| && LoAt(keys, lo, j) <= e.key < HiAt(keys, hi, j)
    ensures HasKey(EntriesOf(kids), e.key) <==> HasKey(Entries(kids[j]), e.key)
    ensures e in EntriesOf(kids) <==> e in Entries(kids[j])
  {
    hide EntriesOf, Entries, WFKids, HasKey;
    OtherKids(keys, kids, j, e.key, h, lo, hi, c);
    FlattenCut(kids, j, j + 1);
    assert kids[j..j + 1] == [kids[j]];
    FlattenOne(kids[j]);
    HasKeyMiddle(EntriesOf(kids[..j]), Entries(kids[j]), EntriesOf(kids[j + 1..]), e);
  }

  // Everything stored under `key` is stored in the leaf the search ends in.
  lemma {:induction false} LookupInLeaf(t: Tree, e: Entry, h: nat, lo: int, hi: int, c: Occ)
    requires WFNode(t, h, lo, hi, c) && lo <= e.key < hi
    ensures LeafFor(t, e.key).TLeaf?
    ensures HasKey(Entries(t), e.key) <==> HasKey(LeafFor(t, e.key).es, e.key)
    ensures e in Entries(t) <==> e in LeafFor(t, e.key).es
    decreases t
  {
    hide EntriesOf, HasKey, WFKids;
    if t.TNode? {
      RouteRange(t.keys, t.kids, e.key, h - 1, lo, hi, c);
      var j := Route(t.keys, e.key);
      WFKid(t.keys, t.kids, j, h - 1, lo, hi, c);
      LookupInLeaf(t.kids[j], e, h - 1, LoAt(t.keys, lo, j), HiAt(t.keys, hi, j), c);
      LookupInKid(t.keys, t.kids, j, e, h - 1, lo, hi, c);
    }
  }

  // ---- the tree of a state is unique ----

  lemma {:induction false} RepUnique(st: Store, t: Tree, t': Tree)
    requires Rep(st, t) && Rep(st, t') && t.idx == t'.idx
    ensures t == t'
    decreases t
  {
    if t.TNode? {
      forall i | 0 <= i < |t.kids| ensures t.kids[i] == t'.kids[i] {
        assert Tops(t.kids)[i] == Tops(t'.kids)[i];
        RepUnique(st, t.kids[i], t'.kids[i]);
      }
    }
  }

  ghost function TreeOf(s: State): Tree
    requires Valid(s) && s.height > 0
  {
    var t :| Represents(s, t, 0);
    t
  }

  lemma WeakenLeafMin(s: State, t: Tree, lm: nat)
    requires Represents(s, t, lm)
    ensures Represents(s, t, 0)
  {
    WeakenNode(t, s.height, 0, KEY_LIMIT, s.fanout, lm);
  }

  lemma {:induction false} WeakenNode(t: Tree, h: nat, lo: int, hi: int, f: nat, lm: nat)
    requires WFNode(t, h, lo, hi, Occ(f, lm))
    ensures WFNode(t, h, lo, hi, Occ(f, 0))
    decreases t, 1
  {
    if t.TNode? {
      WeakenKids(t.keys, t.kids, h - 1, lo, hi, f, lm);
    }
  }

  lemma {:induction false} WeakenKids(keys: seq<Key>, kids: seq<Tree>, h: nat, lo: int, hi: int, f: nat, lm: nat)
    requires WFKids(keys, kids, h, lo, hi, Occ(f, lm))
    ensures WFKids(keys, kids, h, lo, hi, Occ(f, 0))
    decreases kids, 0
  {
    if |keys| == 0 {
      WeakenNode(kids[0], h, lo, hi, f, lm);
    } else {
      WeakenNode(kids[0], h, lo, keys[0], f, lm);
      WeakenKids(keys[1..], kids[1..], h, keys[0], hi, f, lm);
    }
  }

  // All entries of a state in key order.
  ghost function StateEntries(s: State): seq<Entry>
    requires Valid(s)
  {
    if s.height == 0 then [] else Entries(TreeOf(s))
  }

  lemma TreeOfIs(s: State, t: Tree, lm: nat)
    requires Represents(s, t, lm)
    ensures Valid(s) && TreeOf(s) == t && StateEntries(s) == Entries(t)
  {
    WeakenLeafMin(s, t, lm);
    RepUnique(s.nodes, t, TreeOf(s));
  }

  // ---- the map ----

  ghost function MapOf(es: seq<Entry>): map<Key, Val> {
    if |es| == 0 then map[] else MapOf(es[1..])[es[0].key := es[0].val]
  }

  // Map `m` holds exactly the bindings listed in `es`.
  ghost predicate Lists(es: seq<Entry>, m: map<Key, Val>) {
    forall e: Entry :: e in es <==> (e.key in m && m[e.key] == e.val)
  }

  lemma {:induction false} MapOfLists(es: seq<Entry>, lo: int, hi: int)
    requires EntriesIn(es, lo, hi)
    ensures Lists(es, MapOf(es))
  {
    if |es| > 0 {
      var rest := es[1..];
      MapOfLists(rest, lo, hi);
      var m := MapOf(rest);
      forall e: Entry ensures e in es <==> (e.key in MapOf(es) && MapOf(es)[e.key] == e.val) {
        assert e in es <==> e == es[0] || e in rest;
        assert e in rest ==> e.key != es[0].key;
      }
    }
  }

  lemma ListsUnique(es: seq<Entry>, m: map<Key, Val>, m': map<Key, Val>)
    requires Lists(es, m) && Lists(es, m')
    ensures m == m'
  {
    forall k: Key ensures k in m <==> k in m' {
      if k in m { assert Entry(k, m[k]) in es; }
      if k in m' { assert Entry(k, m'[k]) in es; }
    }
    forall k: Key | k in m ensures m[k] == m'[k] {
      assert Entry(k, m[k]) in es;
    }
  }

  lemma HasKeyLists(es: seq<Entry>, m: map<Key, Val>, k: Key)
    requires Lists(es, m)
    ensures HasKey(es, k) <==> k in m
  {
    if HasKey(es, k) {
      var i :| 0 <= i < |es| && es[i].key == k;
      assert es[i] in es;
    }
    if k in m {
      assert Entry(k, m[k]) in es;
    }
  }

  // ---- edits of the sorted entries as changes of the map ----

  lemma AddedMembers(a: seq<Entry>, b: seq<Entry>, e: Entry)
    requires Edited(a, b, [], [e]) && EntriesIn(b, 0, KEY_LIMIT)
    ensures forall x: Entry :: x in b <==> x in a || x == e
    ensures !HasKey(a, e.key)
  {
    var n: nat :| EditAt(a, b, [], [e], n);
    assert a == a[..n] + a[n..];
    assert b[n] == e;
    forall i | 0 <= i < |a| ensures a[i].key != e.key {
      assert a[i] == b[if i < n then i else i + 1];
    }
  }

  lemma InsertedMap(a: seq<Entry>, b: seq<Entry>, e: Entry)
    requires Edited(a, b, [], [e]) && EntriesIn(a, 0, KEY_LIMIT) && EntriesIn(b, 0, KEY_LIMIT)
    ensures e.key !in MapOf(a) && MapOf(b) == MapOf(a)[e.key := e.val]
  {
    hide Edited, EntriesIn, MapOf;
    MapOfLists(a, 0, KEY_LIMIT);
    MapOfLists(b, 0, KEY_LIMIT);
    AddedMembers(a, b, e);
    HasKeyLists(a, MapOf(a), e.key);
    hide HasKey;
    ListsUnique(b, MapOf(b), MapOf(a)[e.key := e.val]);
  }

  lemma EditedReverse(a: seq<Entry>, b: seq<Entry>, cut: seq<Entry>, put: seq<Entry>)
    requires Edited(a, b, cut, put)
    ensures Edited(b, a, put, cut)
  {
    var n: nat :| EditAt(a, b, cut, put, n);
    assert b[..n] == a[..n] && b[n..n + |put|] == put && b[n + |put|..] == a[n + |cut|..];
    assert a == a[..n] + a[n..n + |cut|] + a[n + |cut|..];
    assert EditAt(b, a, put, cut, n);
  }

  lemma RemovedMap(a: seq<Entry>, b: seq<Entry>, e: Entry)
    requires Edited(a, b, [e], []) && EntriesIn(a, 0, KEY_LIMIT) && EntriesIn(b, 0, KEY_LIMIT)
    ensures e.key in MapOf(a) && MapOf(a)[e.key] == e.val && MapOf(b) == MapOf(a) - {e.key}
  {
    EditedReverse(a, b, [e], []);
    InsertedMap(b, a, e);
  }

  lemma UpdatedMap(a: seq<Entry>, b: seq<Entry>, e0: Entry, e: Entry)
    requires Edited(a, b, [e0], [e]) && e0.key == e.key && EntriesIn(a, 0, KEY_LIMIT) && EntriesIn(b, 0, KEY_LIMIT)
    ensures e.key in MapOf(a) && MapOf(a)[e.key] == e0.val && MapOf(b) == MapOf(a)[e.key := e.val]
  {
    var n: nat :| EditAt(a, b, [e0], [e], n);
    var c := a[..n] + a[n + 1..];
    assert a[..n] + [e0] + a[n + 1..] == a && a[..n] + [e] + a[n + 1..] == b;
    assert c[..n] == a[..n] && c[n..] == a[n + 1..];
    assert EditAt(c, a, [], [e0], n) && EditAt(c, b, [], [e], n);
    assert EntriesIn(c, 0, KEY_LIMIT) by {
      assert forall i | 0 <= i < |c| :: c[i] == a[if i < n then i else i + 1];
    }
    hide EntriesIn, MapOf, EditAt;
    InsertedMap(c, a, e0);
    InsertedMap(c, b, e);
  }

  // ---- the map of a state ----

  ghost function Contents(s: State): map<Key, Val>
    requires Valid(s)
  {
    MapOf(StateEntries(s))
  }

  lemma StateSorted(s: State)
    requires Valid(s)
    ensures EntriesIn(StateEntries(s), 0, KEY_LIMIT)
    ensures Lists(StateEntries(s), Contents(s))
  {
    if s.height > 0 {
      EntriesSorted(TreeOf(s), s.height, 0, KEY_LIMIT, Occ(s.fanout, 0));
    }
    MapOfLists(StateEntries(s), 0, KEY_LIMIT);
  }
}
