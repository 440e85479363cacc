// The contents of one node account, and what each operation of src/node.h does to them.
module NodeViews {
  import opened Base

  datatype NodeView =
    | Leaf(es: seq<Entry>, next: nat)
    | Inner(keys: seq<Key>, kids: seq<nat>)

  // A closed account is filled with zeros, and so is the part of a fresh one behind its header.
  const ZEROED: NodeView := Inner([], [0])

  function Count(v: NodeView): nat {
    if v.Leaf? then |v.es| else |v.keys|
  }

  // First index whose key is not below `key`.
  function LowerBound(keys: seq<Key>, key: Key): (p: nat)
    ensures p <= |keys|
    ensures forall i | 0 <= i < p :: keys[i] < key
    ensures p < |keys| ==> key <= keys[p]
  {
    if |keys| == 0 || key <= keys[0] then 0 else 1 + LowerBound(keys[1..], key)
  }

  // The child the descent takes: a key equal to a separator goes right.
  function Route(keys: seq<Key>, key: Key): (j: nat)
    ensures j <= |keys|
  {
    var p := LowerBound(keys, key);
    if p < |keys| && keys[p] == key then p + 1 else p
  }

  function KeysOf(es: seq<Entry>): (ks: seq<Key>)
    ensures |ks| == |es|
    ensures forall i | 0 <= i < |es| :: ks[i] == es[i].key
  {
    seq(|es|, i requires 0 <= i < |es| => es[i].key)
  }

  function Pos(es: seq<Entry>, key: Key): (p: nat)
    ensures p <= |es|
    ensures forall i | 0 <= i < p :: es[i].key < key
    ensures p < |es| ==> key <= es[p].key
  {
    LowerBound(KeysOf(es), key)
  }

  predicate Holds(es: seq<Entry>, key: Key) {
    var p := Pos(es, key);
    p < |es| && es[p].key == key
  }

  // ---- leaves ----

  function Inserted(es: seq<Entry>, e: Entry): seq<Entry> {
    var p := Pos(es, e.key);
    es[..p] + [e] + es[p..]
  }

  function Removed(es: seq<Entry>, key: Key): seq<Entry>
    requires Holds(es, key)
  {
    var p := Pos(es, key);
    es[..p] + es[p + 1..]
  }

  function Updated(es: seq<Entry>, e: Entry): seq<Entry>
    requires Holds(es, e.key)
  {
    es[Pos(es, e.key) := e]
  }

  // ---- internal nodes ----

  function InsertAt(keys: seq<Key>, pos: nat, sep: Key): seq<Key>
    requires pos <= |keys|
  {
    keys[..pos] + [sep] + keys[pos..]
  }

  function KidInsertAt(kids: seq<nat>, pos: nat, kid: nat): seq<nat>
    requires pos < |kids|
  {
    kids[..pos + 1] + [kid] + kids[pos + 1..]
  }

  function RemoveAt<T>(s: seq<T>, pos: nat): seq<T>
    requires pos < |s|
  {
    s[..pos] + s[pos + 1..]
  }

  function IndexOf(kids: seq<nat>, idx: nat): (i: nat)
    ensures i <= |kids|
    ensures forall j | 0 <= j < i :: kids[j] != idx
    ensures i < |kids| ==> kids[i] == idx
  {
    if |kids| == 0 || kids[0] == idx then 0 else 1 + IndexOf(kids[1..], idx)
  }

  lemma {:induction false} FirstIndex(kids: seq<nat>, x: nat, i: nat)
    requires i <= |kids| && (i < |kids| ==> kids[i] == x) && forall j | 0 <= j < i :: kids[j] != x
    ensures IndexOf(kids, x) == i
  {
    if i > 0 {
      FirstIndex(kids[1..], x, i - 1);
    }
  }

  // ---- what a node at rest looks like ----

  predicate Ascending(keys: seq<Key>) {
    forall i, j | 0 <= i < j < |keys| :: keys[i] <= keys[j]
  }

  // Child pointers match separators; true of every node the program ever writes.
  predicate Shaped(v: NodeView) {
    v.Inner? ==> |v.kids| == |v.keys| + 1
  }
}
