/** Little-endian limb numbers: the value of a limb sequence in a base, and the shifts and
    comparisons the field kernels are built from. */
module Limbs {
  type u32 = x: int | 0 <= x < 0x1_0000_0000
  type u64 = x: int | 0 <= x < 0x1_0000_0000_0000_0000
  type i64 = x: int | -0x8000_0000_0000_0000 <= x < 0x8000_0000_0000_0000

  function Pow(b: nat, n: nat): nat {
    if n == 0 then 1 else b * Pow(b, n - 1)
  }

  /** The number a limb sequence stands for: the sum of s[i] * b^i. */
  function Val(b: nat, s: seq<int>): int {
    if |s| == 0 then 0 else Val(b, s[..|s| - 1]) + s[|s| - 1] * Pow(b, |s| - 1)
  }

  predicate Digits(b: nat, s: seq<int>) {
    forall i :: 0 <= i < |s| ==> 0 <= s[i] < b
  }

  lemma MulMono(x: int, y: int, z: int)
    requires x <= y && 0 <= z
    ensures x * z <= y * z
  {
  }

  lemma MulAssoc(x: int, y: int, z: int)
    ensures x * (y * z) == (x * y) * z
  {
  }

  lemma {:induction false} PowPositive(b: nat, n: nat)
    requires 0 < b
    ensures 0 < Pow(b, n)
  {
    if n > 0 {
      PowPositive(b, n - 1);
      MulMono(1, b, Pow(b, n - 1));
    }
  }

  lemma {:induction false} PowAdd(b: nat, m: nat, n: nat)
    ensures Pow(b, m + n) == Pow(b, m) * Pow(b, n)
  {
    if m > 0 {
      PowAdd(b, m - 1, n);
      assert Pow(b, m + n) == b * Pow(b, (m - 1) + n);
      MulAssoc(b, Pow(b, m - 1), Pow(b, n));
    }
  }

  lemma ValSnoc(b: nat, s: seq<int>, x: int)
    ensures Val(b, s + [x]) == Val(b, s) + x * Pow(b, |s|)
  {
    assert (s + [x])[..|s|] == s;
  }

  /** Taking one more limb of a longer sequence. */
  lemma ValPrefix(b: nat, s: seq<int>, i: nat)
    requires i < |s|
    ensures Val(b, s[..i + 1]) == Val(b, s[..i]) + s[i] * Pow(b, i)
  {
    assert s[..i + 1] == s[..i] + [s[i]];
    ValSnoc(b, s[..i], s[i]);
  }

  lemma {:induction false} ValCons(b: nat, x: int, s: seq<int>)
    ensures Val(b, [x] + s) == x + b * Val(b, s)
  {
    if |s| == 0 {
      assert [x] + s == [] + [x];
      ValSnoc(b, [], x);
    } else {
      var n := |s| - 1;
      var front, last := s[..n], s[n];
      assert [x] + s == ([x] + front) + [last] && s == front + [last];
      ValSnoc(b, [x] + front, last);
      ValCons(b, x, front);
      assert last * (b * Pow(b, n)) == b * (last * Pow(b, n));
      assert b * (Val(b, front) + last * Pow(b, n)) == b * Val(b, front) + b * (last * Pow(b, n));
    }
  }

  lemma {:induction false} ValBound(b: nat, s: seq<int>)
    requires 0 < b && Digits(b, s)
    ensures 0 <= Val(b, s) < Pow(b, |s|)
  {
    if |s| > 0 {
      var n := |s| - 1;
      ValBound(b, s[..n]);
      PowPositive(b, n);
      MulMono(0, s[n], Pow(b, n));
      MulMono(s[n], b - 1, Pow(b, n));
      assert (b - 1) * Pow(b, n) == b * Pow(b, n) - Pow(b, n);
    }
  }

  /** The most significant limb that differs decides the comparison. */
  lemma {:induction false} ValCompare(b: nat, s: seq<int>, t: seq<int>, i: nat)
    requires 0 < b && Digits(b, s) && Digits(b, t)
    requires i < |s| == |t| && s[i] < t[i] && s[i + 1..] == t[i + 1..]
    ensures Val(b, s) < Val(b, t)
    decreases |s|
  {
    var n := |s| - 1;
    if i == n {
      ValBound(b, s[..n]);
      ValBound(b, t[..n]);
      PowPositive(b, n);
      MulMono(s[n] + 1, t[n], Pow(b, n));
      assert (s[n] + 1) * Pow(b, n) == s[n] * Pow(b, n) + Pow(b, n);
    } else {
      assert s[n] == s[i + 1..][n - i - 1] == t[i + 1..][n - i - 1] == t[n];
      assert s[..n][i + 1..] == s[i + 1..][..n - i - 1] == t[i + 1..][..n - i - 1] == t[..n][i + 1..];
      ValCompare(b, s[..n], t[..n], i);
    }
  }

  /** Canonical limbs are unique: equal values of equal lengths are equal limb for limb. */
  lemma {:induction false} ValInjective(b: nat, s: seq<int>, t: seq<int>)
    requires 0 < b && Digits(b, s) && Digits(b, t)
    requires |s| == |t| && Val(b, s) == Val(b, t)
    ensures s == t
  {
    if |s| > 0 {
      var n := |s| - 1;
      if s[n] < t[n] {
        ValCompare(b, s, t, n);
      } else if t[n] < s[n] {
        ValCompare(b, t, s, n);
      } else {
        ValInjective(b, s[..n], t[..n]);
        assert s == s[..n] + [s[n]] && t == t[..n] + [t[n]];
      }
    }
  }

  /** The n low limbs of x, as both generators spell them. */
  function ToLimbs(b: nat, n: nat, x: nat): (s: seq<int>)
    requires 0 < b
    ensures |s| == n && Digits(b, s)
  {
    seq(n, i requires 0 <= i < n => PowPositive(b, i); (x / Pow(b, i)) % b)
  }

  /** Dividing by b*c is dividing twice; the remainder is the two remainders put together. */
  lemma DivDiv(x: nat, c: nat, b: nat)
    requires 0 < c && 0 < b
    ensures 0 < b * c && x / (b * c) == (x / c) / b
    ensures x % (b * c) == ((x / c) % b) * c + x % c
  {
    MulMono(1, b, c);
    var q, r := x / c, x % c;
    var q2, r2 := q / b, q % b;
    assert x == (q2 * b + r2) * c + r;
    assert (q2 * b + r2) * c == q2 * (b * c) + r2 * c;
    MulMono(r2, b - 1, c);
    assert (b - 1) * c == b * c - c;
    assert r2 * c >= 0 by { MulMono(0, r2, c); }
    DivUnique(x, b * c, q2, r2 * c + r);
  }

  lemma DivUnique(x: int, d: nat, q: int, r: int)
    requires 0 < d && x == q * d + r && 0 <= r < d
    ensures x / d == q && x % d == r
  {
    var k := x / d - q;
    assert k * d == (x / d) * d - q * d;
    assert k * d == r - x % d;
    if k >= 1 {
      MulMono(1, k, d);
    } else if k <= -1 {
      MulMono(k, -1, d);
    }
  }

  lemma {:induction false} ToLimbsVal(b: nat, n: nat, x: nat)
    requires 0 < b
    ensures 0 < Pow(b, n) && Val(b, ToLimbs(b, n, x)) == x % Pow(b, n)
  {
    PowPositive(b, n);
    if n > 0 {
      PowPositive(b, n - 1);
      var c, low := Pow(b, n - 1), ToLimbs(b, n - 1, x);
      var digit := (x / c) % b;
      calc {
        Val(b, ToLimbs(b, n, x));
        { ToLimbsSnoc(b, n - 1, x); }
        Val(b, low + [digit]);
        { ValSnoc(b, low, digit); }
        Val(b, low) + digit * c;
        { ToLimbsVal(b, n - 1, x); }
        x % c + digit * c;
        { DivDiv(x, c, b); }
        x % (b * c);
      }
    }
  }

  lemma ToLimbsSnoc(b: nat, n: nat, x: nat)
    requires 0 < b
    ensures 0 < Pow(b, n) && ToLimbs(b, n + 1, x) == ToLimbs(b, n, x) + [(x / Pow(b, n)) % b]
  {
    PowPositive(b, n);
  }

  lemma ModSmall(x: nat, d: nat)
    requires 0 < d
    ensures x < d <==> x % d == x
  {
  }

  /** Cutting a number into n limbs and reading them back gives it again exactly when it fits. */
  lemma FromToLimbs(b: nat, n: nat, x: nat)
    requires 0 < b
    ensures x < Pow(b, n) <==> Val(b, ToLimbs(b, n, x)) == x
  {
    ToLimbsVal(b, n, x);
    ModSmall(x, Pow(b, n));
  }

  /** Cutting the value of canonical limbs gives the same limbs. */
  lemma ToFromLimbs(b: nat, s: seq<int>)
    requires 0 < b && Digits(b, s)
    ensures 0 <= Val(b, s) && ToLimbs(b, |s|, Val(b, s)) == s
  {
    ValBound(b, s);
    FromToLimbs(b, |s|, Val(b, s));
    ValInjective(b, ToLimbs(b, |s|, Val(b, s)), s);
  }
}
