// Block moves between and inside arrays, as src/node.h does them.
module Memory {
  import opened NodeViews

  // torna_memmove: the direction of the copy depends on which way the blocks overlap.
  method Memmove<T>(a: array<T>, dst: nat, src: nat, n: nat)
    requires dst + n <= a.Length && src + n <= a.Length
    modifies a
    ensures forall k | dst <= k < dst + n :: a[k] == old(a[src + k - dst])
    ensures forall k | 0 <= k < a.Length && !(dst <= k < dst + n) :: a[k] == old(a[k])
  {
    if dst < src {
      var i := 0;
      while i < n
        invariant 0 <= i <= n
        invariant forall k | dst <= k < dst + i :: a[k] == old(a[src + k - dst])
        invariant forall k | 0 <= k < a.Length && !(dst <= k < dst + i) :: a[k] == old(a[k])
      {
        a[dst + i] := a[src + i];
        i := i + 1;
      }
    } else if dst > src {
      var i := n;
      while i > 0
        invariant 0 <= i <= n
        invariant forall k | dst + i <= k < dst + n :: a[k] == old(a[src + k - dst])
        invariant forall k | 0 <= k < a.Length && !(dst + i <= k < dst + n) :: a[k] == old(a[k])
      {
        a[dst + i - 1] := a[src + i - 1];
        i := i - 1;
      }
    }
  }

  // memcpy between two nodes' arrays.
  method Memcpy<T>(d: array<T>, dst: nat, s: array<T>, src: nat, n: nat)
    requires d != s
    requires dst + n <= d.Length && src + n <= s.Length
    modifies d
    ensures forall k | dst <= k < dst + n :: d[k] == s[src + k - dst]
    ensures forall k | 0 <= k < d.Length && !(dst <= k < dst + n) :: d[k] == old(d[k])
  {
    var i := 0;
    while i < n
      invariant 0 <= i <= n
      invariant forall k | dst <= k < dst + i :: d[k] == s[src + k - dst]
      invariant forall k | 0 <= k < d.Length && !(dst <= k < dst + i) :: d[k] == old(d[k])
    {
      d[dst + i] := s[src + i];
      i := i + 1;
    }
  }

  // Make room at `pos` among the first `n` slots and put `x` there.
  method PutSlot<T>(a: array<T>, n: nat, pos: nat, x: T)
    requires pos <= n < a.Length
    modifies a
    ensures a[..n + 1] == Put(old(a[..n]), pos, x)
  {
    ghost var was := a[..n];
    if n > pos {
      Memmove(a, pos + 1, pos, n - pos);
    }
    a[pos] := x;
    PutIs(was, pos, x, a[..n + 1]);
  }

  // The same, with the loop node.h uses for child pointers.
  method PutByLoop<T>(a: array<T>, n: nat, pos: nat, x: T)
    requires pos <= n < a.Length
    modifies a
    ensures a[..n + 1] == Put(old(a[..n]), pos, x)
  {
    ghost var was := a[..n];
    var i := n;
    while i > pos
      invariant pos <= i <= n
      invariant forall k | 0 <= k < i :: a[k] == was[k]
      invariant forall k | i < k <= n :: a[k] == was[k - 1]
    {
      a[i] := a[i - 1];
      i := i - 1;
    }
    a[pos] := x;
    PutIs(was, pos, x, a[..n + 1]);
  }

  // Close the gap at `pos` among the first `n` slots.
  method DropSlot<T>(a: array<T>, n: nat, pos: nat)
    requires pos < n <= a.Length
    modifies a
    ensures a[..n - 1] == RemoveAt(old(a[..n]), pos)
  {
    ghost var was := a[..n];
    if n - pos - 1 > 0 {
      Memmove(a, pos, pos + 1, n - pos - 1);
    }
    DropIs(was, pos, a[..n - 1]);
  }

  method DropByLoop<T>(a: array<T>, n: nat, pos: nat)
    requires pos < n <= a.Length
    modifies a
    ensures a[..n - 1] == RemoveAt(old(a[..n]), pos)
  {
    ghost var was := a[..n];
    var i := pos;
    while i < n - 1
      invariant pos <= i < n
      invariant forall k | 0 <= k < pos :: a[k] == was[k]
      invariant forall k | pos <= k < i :: a[k] == was[k + 1]
      invariant forall k | i <= k < n :: a[k] == was[k]
    {
      a[i] := a[i + 1];
      i := i + 1;
    }
    DropIs(was, pos, a[..n - 1]);
  }

  // Copy the slots [from, to) of one node to the front of another.
  method CopyPart<T>(d: array<T>, s: array<T>, n: nat, from: nat)
    requires d != s && from <= n <= s.Length && n - from <= d.Length
    modifies d
    ensures d[..n - from] == s[..n][from..]
  {
    Memcpy(d, 0, s, from, n - from);
    PartIs(s[..n], from, d[..n - from]);
  }

  // Copy the first `m` slots of `s` behind the first `n` of `d`.
  method Append<T>(d: array<T>, n: nat, s: array<T>, m: nat)
    requires d != s && m <= s.Length && n + m <= d.Length
    modifies d
    ensures d[..n + m] == old(d[..n]) + s[..m]
  {
    ghost var was := d[..n];
    var i := 0;
    while i < m
      invariant 0 <= i <= m
      invariant forall k | 0 <= k < n :: d[k] == was[k]
      invariant forall k | n <= k < n + i :: d[k] == s[k - n]
    {
      d[n + i] := s[i];
      i := i + 1;
    }
    JoinIs(was, s[..m], d[..n + m]);
  }

  method AppendOne<T>(a: array<T>, n: nat, x: T)
    requires n < a.Length
    modifies a
    ensures a[..n + 1] == old(a[..n]) + [x]
  {
    ghost var was := a[..n];
    a[n] := x;
    JoinIs(was, [x], a[..n + 1]);
  }

  method SetSlot<T>(a: array<T>, n: nat, pos: nat, x: T)
    requires pos < n <= a.Length
    modifies a
    ensures a[..n] == old(a[..n])[pos := x]
  {
    ghost var was := a[..n];
    a[pos] := x;
    SetIs(was, pos, x, a[..n]);
  }

  // ---- sequences with one slot more, one slot less ----

  function Put<T>(s: seq<T>, pos: nat, x: T): seq<T>
    requires pos <= |s|
  {
    s[..pos] + [x] + s[pos..]
  }

  lemma PutIs<T>(s: seq<T>, p: nat, x: T, r: seq<T>)
    requires p <= |s| && |r| == |s| + 1 && r[p] == x
    requires forall i | 0 <= i < p :: r[i] == s[i]
    requires forall i | p < i < |r| :: r[i] == s[i - 1]
    ensures r == Put(s, p, x)
  {
  }

  lemma DropIs<T>(s: seq<T>, p: nat, r: seq<T>)
    requires p < |s| && |r| == |s| - 1
    requires forall i | 0 <= i < p :: r[i] == s[i]
    requires forall i | p <= i < |r| :: r[i] == s[i + 1]
    ensures r == RemoveAt(s, p)
  {
  }

  lemma PartIs<T>(s: seq<T>, from: nat, r: seq<T>)
    requires from <= |s| && |r| == |s| - from
    requires forall k | 0 <= k < |r| :: r[k] == s[from + k]
    ensures r == s[from..]
  {
  }

  lemma JoinIs<T>(a: seq<T>, b: seq<T>, r: seq<T>)
    requires |r| == |a| + |b|
    requires forall i | 0 <= i < |a| :: r[i] == a[i]
    requires forall i | |a| <= i < |r| :: r[i] == b[i - |a|]
    ensures r == a + b
  {
  }

  lemma SetIs<T>(s: seq<T>, p: nat, x: T, r: seq<T>)
    requires p < |s| == |r| && r[p] == x
    requires forall i | 0 <= i < |s| && i != p :: r[i] == s[i]
    ensures r == s[p := x]
  {
  }
}
