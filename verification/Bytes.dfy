// Fixed-width byte strings as big-endian numbers, and the comparisons of the engine and its clients.
module Bytes {
  import opened Base

  const KEY_SIZE: nat := 32

  function Pow256(n: nat): (p: nat)
    ensures p >= 1
  {
    if n == 0 then 1 else 256 * Pow256(n - 1)
  }

  function Num(b: seq<Byte>): nat {
    if b == [] then 0 else 256 * Num(b[..|b| - 1]) + b[|b| - 1]
  }

  // The `len` low-order bytes of `n`, most significant first.
  function Digits(n: nat, len: nat): (b: seq<Byte>)
    ensures |b| == len
  {
    if len == 0 then [] else Digits(n / 256, len - 1) + [n % 256]
  }

  lemma {:induction false} NumBound(b: seq<Byte>)
    ensures Num(b) < Pow256(|b|)
  {
    if b != [] {
      NumBound(b[..|b| - 1]);
    }
  }

  lemma {:induction false} NumOfDigits(n: nat, len: nat)
    ensures Num(Digits(n, len)) == n % Pow256(len)
  {
    if len > 0 {
      var d := Digits(n, len);
      NumOfDigits(n / 256, len - 1);
      assert d[..len - 1] == Digits(n / 256, len - 1);
      LastDigit(n, Pow256(len - 1));
    }
  }

  // Which of two numbers is smaller is decided by the upper part, then by the lower part.
  lemma LexPair(x: nat, y: nat, x': nat, y': nat, b: nat)
    requires y < b && y' < b
    ensures x * b + y < x' * b + y' <==> x < x' || (x == x' && y < y')
    ensures x * b + y == x' * b + y' <==> x == x' && y == y'
  {
    MulStep(x, x', b);
    MulStep(x', x, b);
  }

  lemma MulStep(x: nat, y: nat, b: nat)
    ensures x < y ==> x * b + b <= y * b
  {
    if x < y {
      assert (x + 1) * b <= y * b;
    }
  }

  lemma LastDigit(n: nat, p: nat)
    requires p >= 1
    ensures n % (256 * p) == 256 * (n / 256 % p) + n % 256
  {
    var q, r := n / 256, n % 256;
    var a, b := q / p, q % p;
    assert n == 256 * (a * p + b) + r;
    assert n == a * (256 * p) + (256 * b + r);
    QuotientIs(n, 256 * p, a, 256 * b + r);
  }

  lemma QuotientIs(n: nat, d: nat, q: nat, r: nat)
    requires n == q * d + r && r < d
    ensures n / d == q && n % d == r
  {
    var q', r' := n / d, n % d;
    assert q' * d + r' == q * d + r;
    LexPair(q, r, q', r', d);
  }

  lemma {:induction false} DigitsOfNum(b: seq<Byte>)
    ensures Digits(Num(b), |b|) == b
  {
    if b != [] {
      DigitsOfNum(b[..|b| - 1]);
    }
  }

  lemma {:induction false} NumConcat(a: seq<Byte>, b: seq<Byte>)
    ensures Num(a + b) == Num(a) * Pow256(|b|) + Num(b)
  {
    if b == [] {
      assert a + b == a;
    } else {
      var b', n := b[..|b| - 1], |b| - 1;
      assert (a + b)[..|a + b| - 1] == a + b';
      NumConcat(a, b');
      Regroup(Num(a), Pow256(n), Num(b'), b[n]);
    }
  }

  lemma Regroup(a: nat, p: nat, x: nat, d: nat)
    ensures 256 * (a * p + x) + d == a * (256 * p) + (256 * x + d)
  {
  }

  // ---- comparison ----

  // Dictionary order.
  predicate Before(a: seq<Byte>, b: seq<Byte>) {
    if a == [] || b == [] then |a| < |b|
    else a[0] < b[0] || (a[0] == b[0] && Before(a[1..], b[1..]))
  }

  // On strings of one length it is the order of the numbers.
  lemma {:induction false} BeforeIsNumeric(a: seq<Byte>, b: seq<Byte>)
    requires |a| == |b|
    ensures Before(a, b) <==> Num(a) < Num(b)
    ensures a == b <==> Num(a) == Num(b)
  {
    if a != [] {
      BeforeIsNumeric(a[1..], b[1..]);
      NumBound(a[1..]);
      NumBound(b[1..]);
      assert a == [a[0]] + a[1..] && b == [b[0]] + b[1..];
      NumConcat([a[0]], a[1..]);
      NumConcat([b[0]], b[1..]);
      LexPair(a[0], Num(a[1..]), b[0], Num(b[1..]), Pow256(|a| - 1));
    }
  }

  lemma {:induction false} FirstDifference(a: seq<Byte>, b: seq<Byte>, i: nat)
    requires i <= |a| && i <= |b| && a[..i] == b[..i]
    ensures Before(a, b) <==> Before(a[i..], b[i..])
    ensures a == b <==> a[i..] == b[i..]
  {
    if i > 0 {
      assert a[0] == a[..i][0] == b[..i][0] == b[0];
      assert a[1..][..i - 1] == a[..i][1..] && b[1..][..i - 1] == b[..i][1..];
      FirstDifference(a[1..], b[1..], i - 1);
      assert a[1..][i - 1..] == a[i..] && b[1..][i - 1..] == b[i..];
      assert a == [a[0]] + a[1..] && b == [b[0]] + b[1..];
    }
  }

  // The engine's comparison of two keys is the comparison of the numbers they stand for.
  method KeyCmp(a: seq<Byte>, b: seq<Byte>) returns (c: int)
    requires |a| == |b| == KEY_SIZE
    ensures c < 0 <==> Num(a) < Num(b)
    ensures c == 0 <==> a == b
    ensures c > 0 <==> Num(a) > Num(b)
  {
    BeforeIsNumeric(a, b);
    BeforeIsNumeric(b, a);
    var i := 0;
    while i < KEY_SIZE
      invariant 0 <= i <= KEY_SIZE
      invariant a[..i] == b[..i]
    {
      FirstDifference(a, b, i);
      FirstDifference(b, a, i);
      if a[i] != b[i] {
        return a[i] as int - b[i] as int;
      }
      i := i + 1;
    }
    assert a == a[..i] == b[..i] == b;
    return 0;
  }

  // The TypeScript client's comparison, of byte strings of any length.
  method Cmp(a: seq<Byte>, b: seq<Byte>) returns (c: int)
    ensures c < 0 <==> Before(a, b)
    ensures c == 0 <==> a == b
    ensures c > 0 <==> Before(b, a)
    ensures |a| == |b| ==> (c < 0 <==> Num(a) < Num(b))
  {
    if |a| == |b| {
      BeforeIsNumeric(a, b);
    }
    var n := if |a| < |b| then |a| else |b|;
    var i := 0;
    while i < n
      invariant 0 <= i <= n
      invariant a[..i] == b[..i]
    {
      FirstDifference(a, b, i);
      FirstDifference(b, a, i);
      if a[i] != b[i] {
        return if a[i] < b[i] then -1 else 1;
      }
      i := i + 1;
    }
    FirstDifference(a, b, n);
    FirstDifference(b, a, n);
    return |a| - |b|;
  }

  // ---- keys as numbers ----

  lemma {:induction false} PowSum(m: nat, n: nat)
    ensures Pow256(m + n) == Pow256(m) * Pow256(n)
  {
    if n > 0 {
      PowSum(m, n - 1);
      assert 256 * (Pow256(m) * Pow256(n - 1)) == Pow256(m) * Pow256(n);
    }
  }

  lemma Powers()
    ensures Pow256(8) == U64_LIMIT && Pow256(16) == U64_LIMIT * U64_LIMIT
    ensures Pow256(24) == U64_LIMIT * U64_LIMIT * U64_LIMIT && Pow256(32) == KEY_LIMIT
  {
    assert Pow256(2) == 256 * Pow256(1) == 65536;
    PowSum(2, 2);
    PowSum(4, 4);
    PowSum(8, 8);
    PowSum(16, 8);
    PowSum(16, 16);
  }

  // The 32-byte keys and the numbers below KEY_LIMIT are the same ordered set.
  lemma KeysAreNumbers(a: seq<Byte>, n: Key)
    requires |a| == KEY_SIZE
    ensures 0 <= Num(a) < KEY_LIMIT && Digits(Num(a), KEY_SIZE) == a && Num(Digits(n, KEY_SIZE)) == n
  {
    hide Num, Digits, Pow256;
    Powers();
    NumBound(a);
    DigitsOfNum(a);
    NumOfDigits(n, KEY_SIZE);
    SmallModulus(n, Pow256(KEY_SIZE));
  }

  lemma SmallModulus(n: nat, d: nat)
    requires n < d
    ensures n % d == n
  {
  }
}
