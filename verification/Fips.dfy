/** The product-scanning (FIPS) Montgomery multiply on fourteen 29-bit limbs: whole columns of
    products are accumulated in one word and normalised once. */
module Fips {
  import opened Limbs
  import opened Modular
  import opened Reduction
  import FpKernel

  const B: nat := 0x2000_0000
  const N: nat := 14

  /** -p^-1 mod 2^29. */
  const INV: nat := 0x1ffcfffd

  const PVALUE: nat := FpKernel.PVALUE
  const R: nat := Pow(B, N)

  /** p cut into fourteen limbs. */
  const PL: seq<u32> := ToLimbs(B, N, PVALUE)

  /** The column accumulator. It is a 64-bit word in the emitted code; the range here is one bit
      tighter, and every assignment to it is checked against that. */
  type Acc = x: int | 0 <= x < 0x8000_0000_0000_0000

  ghost predicate Reduced(a: seq<u32>) {
    |a| == N && Digits(B, a) && Val(B, a) < PVALUE
  }

  // ---- Columns of a product -------------------------------------------------------------------

  function At(s: seq<int>, i: int): int {
    if 0 <= i < |s| then s[i] else 0
  }

  /** The terms s[i] * t[k - i] of column k with i < n. */
  function Column(s: seq<int>, t: seq<int>, k: int, n: nat): int {
    if n == 0 then 0 else Column(s, t, k, n - 1) + At(s, n - 1) * At(t, k - (n - 1))
  }

  /** The first c columns, each at its weight. */
  function Columns(b: nat, s: seq<int>, t: seq<int>, c: nat): int {
    if c == 0 then 0 else Columns(b, s, t, c - 1) + Column(s, t, c - 1, |s|) * Pow(b, c - 1)
  }

  lemma {:induction false} ColumnAgree(s: seq<int>, s': seq<int>, t: seq<int>, k: int, n: nat)
    requires forall i :: 0 <= i < n && i <= k ==> At(s, i) == At(s', i)
    ensures Column(s, t, k, n) == Column(s', t, k, n)
  {
    if n > 0 {
      ColumnAgree(s, s', t, k, n - 1);
    }
  }

  /** Terms whose second index is out of range contribute nothing: above n for a low column. */
  lemma {:induction false} ColumnTail(s: seq<int>, t: seq<int>, k: int, n: nat, m: nat)
    requires n <= m && (k < n || |t| + m <= k + 1)
    ensures Column(s, t, k, m) == Column(s, t, k, n)
    decreases m
  {
    if n < m {
      ColumnTail(s, t, k, n, m - 1);
    }
  }

  lemma {:induction false} ColumnsEmpty(b: nat, t: seq<int>, c: nat)
    ensures Columns(b, [], t, c) == 0
  {
    if c > 0 {
      ColumnsEmpty(b, t, c - 1);
    }
  }

  /** t shifted up by n limbs, c of its columns. */
  function Shifted(b: nat, t: seq<int>, n: nat, c: nat): int {
    if c == 0 then 0 else Shifted(b, t, n, c - 1) + At(t, c - 1 - n) * Pow(b, c - 1)
  }

  lemma {:induction false} ShiftedVal(b: nat, t: seq<int>, n: nat, c: nat)
    ensures c <= n ==> Shifted(b, t, n, c) == 0
    ensures n <= c <= n + |t| ==> Shifted(b, t, n, c) == Pow(b, n) * Val(b, t[..c - n])
    ensures n + |t| <= c ==> Shifted(b, t, n, c) == Pow(b, n) * Val(b, t)
  {
    if c > 0 {
      ShiftedVal(b, t, n, c - 1);
      if n < c <= n + |t| {
        var j := c - 1 - n;
        ValPrefix(b, t, j);
        PowAdd(b, n, j);
        ShiftArith(Pow(b, n), Val(b, t[..j]), t[j], Pow(b, j));
      }
    }
    if c == n + |t| {
      assert t[..|t|] == t;
    }
  }

  lemma ShiftArith(z: int, v: int, x: int, y: int)
    ensures z * v + x * (z * y) == z * (v + x * y)
  {
    MulAssoc(x, z, y);
    MulAssoc(z, x, y);
  }

  lemma {:induction false} ColumnsSnoc(b: nat, s: seq<int>, x: int, t: seq<int>, c: nat)
    ensures Columns(b, s + [x], t, c) == Columns(b, s, t, c) + x * Shifted(b, t, |s|, c)
  {
    if c > 0 {
      var k, pw := c - 1, Pow(b, c - 1);
      ColumnsSnoc(b, s, x, t, c - 1);
      ColumnPrefix(s, x, t, k, |s|);
      var y := At(t, k - |s|);
      assert Column(s + [x], t, k, |s| + 1) == Column(s, t, k, |s|) + x * y;
      SnocArith(Columns(b, s, t, k), Shifted(b, t, |s|, k), Column(s, t, k, |s|), x, y, pw);
    }
  }

  lemma SnocArith(cols: int, shifted: int, col: int, x: int, y: int, pw: int)
    ensures (cols + x * shifted) + (col + x * y) * pw == (cols + col * pw) + x * (shifted + y * pw)
  {
    assert (col + x * y) * pw == col * pw + x * (y * pw);
    assert x * (shifted + y * pw) == x * shifted + x * (y * pw);
  }

  lemma {:induction false} ColumnPrefix(s: seq<int>, x: int, t: seq<int>, k: int, n: nat)
    requires n <= |s|
    ensures Column(s + [x], t, k, n) == Column(s, t, k, n)
  {
    if n > 0 {
      ColumnPrefix(s, x, t, k, n - 1);
    }
  }

  /** Product scanning computes the product: all columns together are Val(s) * Val(t). */
  lemma {:induction false} ColumnsProduct(b: nat, s: seq<int>, t: seq<int>, c: nat)
    requires |s| + |t| <= c
    ensures Columns(b, s, t, c) == Val(b, s) * Val(b, t)
  {
    if |s| == 0 {
      ColumnsEmpty(b, t, c);
    } else {
      var n := |s| - 1;
      var front, x := s[..n], s[n];
      assert s == front + [x];
      ColumnsProduct(b, front, t, c);
      ColumnsSnoc(b, front, x, t, c);
      ShiftedVal(b, t, n, c);
      assert x * (Pow(b, n) * Val(b, t)) == (x * Pow(b, n)) * Val(b, t);
      assert (Val(b, front) + x * Pow(b, n)) * Val(b, t)
          == Val(b, front) * Val(b, t) + (x * Pow(b, n)) * Val(b, t);
    }
  }

  // ---- The constants --------------------------------------------------------------------------

  lemma ModulusLimbs()
    ensures Val(B, PL) == PVALUE && Digits(B, PL) && |PL| == N && 2 * PVALUE < R
  {
    PowFourteen();
    FromToLimbs(B, N, PVALUE);
  }

  lemma PowFourteen()
    ensures R == 0x400000 * FpKernel.R
  {
    assert Pow(B, 4) == 0x1_0000_0000_0000_0000_0000_0000_0000_0;
    PowAdd(B, 4, 3);
    PowAdd(B, 7, 7);
    FpKernel.PowTwelve();
  }

  /** What INV is for: adding m * p clears the low limb of whatever the column holds. */
  lemma LowLimbClears(acc: nat, m: nat)
    requires m == ((acc % B) * INV) % B
    ensures (acc + m * PL[0]) % B == 0 && PL[0] == 0x1fffaaab
  {
    var x := acc % B;
    var k, q := (x * INV) / B, acc / B;
    assert PL[0] == (PVALUE / 1) % B == 0x1fffaaab;
    assert m == x * INV - k * B;
    assert 0x1fffaaab * INV + 1 == 0x1ffcaab0 * B;
    assert m * 0x1fffaaab == x * (0x1fffaaab * INV) - (k * 0x1fffaaab) * B;
    assert acc + m * 0x1fffaaab == (q + x * 0x1ffcaab0 - k * 0x1fffaaab) * B;
    DivUnique(acc + m * PL[0], B, q + x * 0x1ffcaab0 - k * 0x1fffaaab, 0);
  }

  // ---- The column sweep -----------------------------------------------------------------------

  /** What a column may start with: everything above the 29 bits the last one kept. */
  const CARRY: nat := 0x4_0000_0000

  lemma ProductFits(x: int, y: int)
    requires 0 <= x < B && 0 <= y < B
    ensures 0 <= x * y < 0x400_0000_0000_0000
  {
    MulMono(x, B - 1, y);
    MulMono(0, x, y);
  }

  /** Terms lo to hi of column k, of a * b and of m * p together, without a carry. */
  method Accumulate(a: seq<u32>, b: seq<u32>, p: seq<u32>, m: seq<u32>, k: nat, lo: nat, hi: nat, acc0: Acc)
      returns (acc: Acc)
    requires N == |a| == |b| == |m| == |p| && lo <= hi <= N && acc0 < CARRY
    requires Digits(B, a) && Digits(B, b) && Digits(B, m) && Digits(B, p)
    requires hi <= k + 1 && k < N + lo
    ensures acc < CARRY + (hi - lo) * 0x800_0000_0000_0000
    ensures acc == acc0 + Column(a, b, k, hi) - Column(a, b, k, lo) + Column(m, p, k, hi) - Column(m, p, k, lo)
  {
    acc := acc0;
    for i := lo to hi
      invariant acc < CARRY + (i - lo) * 0x800_0000_0000_0000
      invariant acc == acc0 + Column(a, b, k, i) - Column(a, b, k, lo) + Column(m, p, k, i) - Column(m, p, k, lo)
    {
      ProductFits(a[i], b[k - i]);
      ProductFits(m[i], p[k - i]);
      var ab: Acc := (a[i] as int) * b[k - i];
      var mp: Acc := (m[i] as int) * p[k - i];
      acc := acc + ab;
      acc := acc + mp;
    }
  }

  /** Column k of the lower half: accumulate, choose m[k] so that the low limb clears, shift. */
  method LowColumn(a: seq<u32>, b: seq<u32>, p: seq<u32>, m: seq<u32>, k: nat, acc0: Acc) returns (mk: u32, acc: Acc)
    requires k < N == |a| == |b| == |m| == |p| && acc0 < CARRY && p[0] == PL[0]
    requires Digits(B, a) && Digits(B, b) && Digits(B, m) && Digits(B, p)
    ensures mk < B && acc < CARRY
    ensures B * acc == acc0 + Column(a, b, k, N) + Column(m[k := mk], p, k, N)
  {
    acc := Accumulate(a, b, p, m, k, 0, k, acc0);
    ghost var sum := acc;
    ProductFits(a[k], b[0]);
    var ab: Acc := (a[k] as int) * b[0];
    acc := acc + ab;
    ProductFits(acc % B, INV);
    var product: Acc := (acc % B) * INV;
    mk := product % B;
    LowLimbClears(acc, mk);
    ProductFits(mk, p[0]);
    var mp: Acc := (mk as int) * p[0];
    acc := acc + mp;
    LowColumnSum(a, b, p, m, k, mk);
    acc := acc / B;
  }

  lemma LowColumnSum(a: seq<int>, b: seq<int>, p: seq<int>, m: seq<int>, k: nat, mk: int)
    requires k < N == |a| == |b| == |m| == |p|
    ensures Column(a, b, k, N) == Column(a, b, k, k) + a[k] * b[0]
    ensures Column(m[k := mk], p, k, N) == Column(m, p, k, k) + mk * p[0]
  {
    var m' := m[k := mk];
    ColumnAgree(m, m', p, k, k);
    ColumnTail(a, b, k, k + 1, N);
    ColumnTail(m', p, k, k + 1, N);
  }

  /** Column N + k of the upper half: the remaining terms give a limb of the result. */
  method HighColumn(a: seq<u32>, b: seq<u32>, p: seq<u32>, m: seq<u32>, k: nat, acc0: Acc) returns (tk: u32, acc: Acc)
    requires k < N == |a| == |b| == |m| == |p| && acc0 < CARRY
    requires Digits(B, a) && Digits(B, b) && Digits(B, m) && Digits(B, p)
    ensures tk < B && acc < CARRY
    ensures tk + B * acc == acc0 + Column(a, b, N + k, N) + Column(m, p, N + k, N)
  {
    ColumnTail(a, b, N + k, 0, k + 1);
    ColumnTail(m, p, N + k, 0, k + 1);
    acc := Accumulate(a, b, p, m, N + k, k + 1, N, acc0);
    tk := acc % B;
    acc := acc / B;
  }

  lemma {:induction false} ColumnsAgree(s: seq<int>, s': seq<int>, t: seq<int>, c: nat)
    requires |s| == |s'| && forall i :: 0 <= i < |s| && i < c ==> s[i] == s'[i]
    ensures Columns(B, s, t, c) == Columns(B, s', t, c)
  {
    if c > 0 {
      ColumnsAgree(s, s', t, c - 1);
      ColumnAgree(s, s', t, c - 1, |s|);
    }
  }

  lemma SweepStep(pw: int, acc0: int, acc: int, tk: int, cols: int, col: int)
    requires tk + B * acc == acc0 + col && acc0 * pw == cols
    ensures tk * pw + acc * (B * pw) == cols + col * pw
  {
    assert (tk + B * acc) * pw == tk * pw + acc * (B * pw);
    assert (acc0 + col) * pw == acc0 * pw + col * pw;
  }

  /** The lower half: the accumulator is the first N columns of a * b + m * p, divided by B^N. */
  method LowerHalf(a: seq<u32>, b: seq<u32>, p: seq<u32>) returns (m: seq<u32>, acc: Acc)
    requires |a| == |b| == |p| == N && Digits(B, a) && Digits(B, b) && Digits(B, p) && p[0] == PL[0]
    ensures |m| == N && Digits(B, m) && acc < CARRY
    ensures acc * Pow(B, N) == Columns(B, a, b, N) + Columns(B, m, p, N)
  {
    m := seq(N, _ => 0);
    acc := 0;
    for k := 0 to N
      invariant |m| == N && Digits(B, m) && acc < CARRY
      invariant acc * Pow(B, k) == Columns(B, a, b, k) + Columns(B, m, p, k)
    {
      ghost var before, acc0 := m, acc;
      var mk;
      mk, acc := LowColumn(a, b, p, m, k, acc);
      m := m[k := mk];
      ColumnsAgree(before, m, p, k);
      LowerStep(a, b, p, m, k, acc0, acc);
    }
  }

  lemma LowerStep(a: seq<int>, b: seq<int>, p: seq<int>, m: seq<int>, k: nat, acc0: int, acc: int)
    requires |a| == |m| && B * acc == acc0 + Column(a, b, k, |a|) + Column(m, p, k, |m|)
    requires acc0 * Pow(B, k) == Columns(B, a, b, k) + Columns(B, m, p, k)
    ensures acc * Pow(B, k + 1) == Columns(B, a, b, k + 1) + Columns(B, m, p, k + 1)
  {
    var pw, x, y := Pow(B, k), Column(a, b, k, |a|), Column(m, p, k, |m|);
    SweepStep(pw, acc0, acc, 0, Columns(B, a, b, k) + Columns(B, m, p, k), x + y);
    assert (x + y) * pw == x * pw + y * pw;
  }

  /** The upper half: the limbs that come out, with the last carry above them, times B^N are all the
      columns of a * b + m * p. */
  method UpperHalf(a: seq<u32>, b: seq<u32>, p: seq<u32>, m: seq<u32>, acc0: Acc) returns (t: seq<u32>, acc: Acc)
    requires |a| == |b| == |p| == |m| == N && acc0 < CARRY
    requires Digits(B, a) && Digits(B, b) && Digits(B, p) && Digits(B, m)
    requires acc0 * Pow(B, N) == Columns(B, a, b, N) + Columns(B, m, p, N)
    ensures |t| == N && Digits(B, t)
    ensures Val(B, t) * Pow(B, N) + acc * Pow(B, 2 * N) == Columns(B, a, b, 2 * N) + Columns(B, m, p, 2 * N)
  {
    t, acc := [], acc0;
    for k := 0 to N
      invariant |t| == k && Digits(B, t) && acc < CARRY
      invariant Sweeping(a, b, p, m, t, acc)
    {
      ghost var acc0 := acc;
      var tk;
      tk, acc := HighColumn(a, b, p, m, k, acc);
      UpperStep(a, b, p, m, t, tk, acc0, acc);
      t := t + [tk];
    }
  }

  ghost predicate Sweeping(a: seq<int>, b: seq<int>, p: seq<int>, m: seq<int>, t: seq<int>, acc: int) {
    Val(B, t) * Pow(B, N) + acc * Pow(B, N + |t|) == Columns(B, a, b, N + |t|) + Columns(B, m, p, N + |t|)
  }

  lemma UpperStep(a: seq<int>, b: seq<int>, p: seq<int>, m: seq<int>, t: seq<int>, tk: int, acc0: int, acc: int)
    requires |a| == |m| && Sweeping(a, b, p, m, t, acc0)
    requires tk + B * acc == acc0 + Column(a, b, N + |t|, |a|) + Column(m, p, N + |t|, |m|)
    ensures Sweeping(a, b, p, m, t + [tk], acc)
  {
    var c := N + |t|;
    var pw, x, y := Pow(B, c), Column(a, b, c, |a|), Column(m, p, c, |m|);
    SweepStep(pw, acc0, acc, tk, acc0 * pw, x + y);
    assert (x + y) * pw == x * pw + y * pw;
    ValSnoc(B, t, tk);
    PowAdd(B, |t|, N);
    ShiftLimb(Val(B, t), tk, Pow(B, |t|), R);
  }

  lemma ShiftLimb(v: int, x: int, y: int, z: int)
    ensures (v + x * y) * z == v * z + x * (y * z)
  {
    MulAssoc(x, y, z);
  }

  // ---- The multiply ---------------------------------------------------------------------------

  lemma BelowTwoP(t: int, x: int, y: int, m: int)
    requires 0 <= x < PVALUE && 0 <= y < PVALUE && 0 <= m < R && 2 * PVALUE < R
    requires t * R == x * y + m * PVALUE
    ensures 0 <= t < 2 * PVALUE
  {
    MulMono(x, PVALUE, y);
    MulMono(y, R, PVALUE);
    MulMono(m, R, PVALUE);
    MulMono(0, x, y);
    MulMono(0, m, PVALUE);
    if t >= 2 * PVALUE {
      MulMono(2 * PVALUE, t, R);
    } else if t <= -1 {
      MulMono(t, -1, R);
    }
  }

  /** The reference FIPS multiply: below p, and R = 2^406 times it is the product modulo p. */
  method Multiply(a: seq<u32>, b: seq<u32>) returns (out: array<u32>)
    requires Reduced(a) && Reduced(b)
    ensures fresh(out) && Reduced(out[..])
    ensures Cong(Val(B, out[..]) * R, Val(B, a) * Val(B, b), PVALUE)
  {
    ModulusLimbs();
    var p := PL;
    var m, low := LowerHalf(a, b, p);
    var t, top := UpperHalf(a, b, p, m, low);
    ColumnsProduct(B, a, b, 2 * N);
    ColumnsProduct(B, m, p, 2 * N);
    out := Finish(a, b, m, t, top);
  }

  lemma FactorR(v: int, top: int, x: int)
    requires v * Pow(B, N) + top * Pow(B, 2 * N) == x
    ensures (v + top * R) * R == x
  {
    PowAdd(B, N, N);
    ShiftLimb(v, top, R, R);
  }

  /** The word above the fourteen limbs is always zero, and the limbs are below 2p. */
  lemma TopZero(v: nat, top: nat, x: nat, y: nat, m: nat)
    requires x < PVALUE && y < PVALUE && m < R && 2 * PVALUE < R
    requires v * Pow(B, N) + top * Pow(B, 2 * N) == x * y + m * PVALUE
    ensures top == 0 && v < 2 * PVALUE && v * R == x * y + m * PVALUE
  {
    FactorR(v, top, x * y + m * PVALUE);
    BelowTwoP(v + top * R, x, y, m);
    if top >= 1 {
      MulMono(1, top, R);
    }
  }

  lemma Quotiented(r: int, v: int, x: int, m: int)
    requires v * R == x + m * PVALUE && (r == v || r == v - PVALUE)
    ensures Cong(r * R, x, PVALUE)
  {
    assert (v - PVALUE) * R == v * R - PVALUE * R;
    CongFrom(r * R, x, PVALUE, if r == v then m else m - R);
  }

  /** The final conditional subtraction. */
  method Finish(ghost a: seq<u32>, ghost b: seq<u32>, ghost m: seq<u32>, t: seq<u32>, top: Acc)
      returns (out: array<u32>)
    requires Reduced(a) && Reduced(b) && |m| == N && Digits(B, m) && |t| == N && Digits(B, t)
    requires Val(B, t) * Pow(B, N) + top * Pow(B, 2 * N) == Val(B, a) * Val(B, b) + Val(B, m) * PVALUE
    ensures fresh(out) && Reduced(out[..]) && top == 0
    ensures Cong(Val(B, out[..]) * R, Val(B, a) * Val(B, b), PVALUE)
  {
    ModulusLimbs();
    ValBound(B, a);
    ValBound(B, b);
    ValBound(B, m);
    ValBound(B, t);
    TopZero(Val(B, t), top, Val(B, a), Val(B, b), Val(B, m));
    var p := PL;
    out := new u32[N](j requires 0 <= j < |t| => t[j]);
    assert out[..] == t;
    var big := AtLeast(B, out[..], p);
    if top != 0 || big {
      SubInPlace(B, out, p);
    }
    Quotiented(Val(B, out[..]), Val(B, t), Val(B, a) * Val(B, b), Val(B, m));
  }

  lemma SameUpToR(f: int, c: int, x: int)
    requires Cong(f * R, x, PVALUE) && Cong(c * FpKernel.R, x, PVALUE)
    ensures Cong(f * 0x400000, c, PVALUE)
  {
    PowFourteen();
    CongSym(c * FpKernel.R, x, PVALUE);
    CongTrans(f * R, x, c * FpKernel.R, PVALUE);
    var g := f * 0x400000;
    assert f * R == g * FpKernel.R;
    CancelR(g, c);
  }

  /** The two kernels agree: for operands of equal value, however each is cut into limbs, the one result is
      2^22 times the other, reduced. */
  method BothMultiply(a: array<u32>, b: array<u32>, x: seq<u32>, y: seq<u32>) returns (c: array<u32>, f: array<u32>)
    requires FpKernel.Reduced(a[..]) && FpKernel.Reduced(b[..]) && Reduced(x) && Reduced(y)
    requires Val(FpKernel.B, a[..]) == Val(B, x) && Val(FpKernel.B, b[..]) == Val(B, y)
    ensures fresh(c) && fresh(f) && FpKernel.Reduced(c[..]) && Reduced(f[..])
    ensures c[..] == FpKernel.Prod(a[..], b[..]) && Cong(Val(B, f[..]) * R, Val(B, x) * Val(B, y), PVALUE)
    ensures Val(FpKernel.B, c[..]) == (Val(B, f[..]) * 0x400000) % PVALUE
  {
    c := FpKernel.MontMul(a, b);
    f := Multiply(x, y);
    AgreesWithCios(a[..], b[..], x, y, c[..], f[..]);
  }

  /** The same of any limbs that meet what `MontMul` and `Multiply` promise. */
  lemma AgreesWithCios(a: seq<u32>, b: seq<u32>, x: seq<u32>, y: seq<u32>, c: seq<u32>, f: seq<u32>)
    requires Val(FpKernel.B, a) == Val(B, x) && Val(FpKernel.B, b) == Val(B, y)
    requires FpKernel.Reduced(c) && Cong(Val(FpKernel.B, c) * FpKernel.R, Val(FpKernel.B, a) * Val(FpKernel.B, b),
      PVALUE)
    requires Reduced(f) && Cong(Val(B, f) * R, Val(B, x) * Val(B, y), PVALUE)
    ensures Val(FpKernel.B, c) == (Val(B, f) * 0x400000) % PVALUE
  {
    ReducedRange(c);
    var product := Val(B, x) * Val(B, y);
    assert Val(FpKernel.B, a) * Val(FpKernel.B, b) == product;
    ReducedTwin(Val(B, f), Val(FpKernel.B, c), product);
  }

  lemma ReducedRange(c: seq<u32>)
    requires FpKernel.Reduced(c)
    ensures 0 <= Val(FpKernel.B, c) < PVALUE
  {
    ValBound(FpKernel.B, c);
  }

  lemma ReducedTwin(f: int, c: int, x: int)
    requires Cong(f * R, x, PVALUE) && Cong(c * FpKernel.R, x, PVALUE) && 0 <= c < PVALUE
    ensures c == (f * 0x400000) % PVALUE
  {
    SameUpToR(f, c, x);
    CongSym(f * 0x400000, c, PVALUE);
    CongReduced(c, f * 0x400000, PVALUE);
  }

  /** R = 2^384 is invertible modulo p, so it cancels. */
  lemma CancelR(g: int, c: int)
    requires Cong(g * FpKernel.R, c * FpKernel.R, PVALUE)
    ensures Cong(g, c, PVALUE)
  {
    var r, ri := FpKernel.R, FpKernel.RINV;
    CongMul(g * r, c * r, ri, PVALUE);
    FpKernel.RInverse();
    CongMul(r * ri, 1, g, PVALUE);
    CongMul(r * ri, 1, c, PVALUE);
    assert (g * r) * ri == (r * ri) * g && (c * r) * ri == (r * ri) * c;
    CongSym((r * ri) * g, g, PVALUE);
    CongTrans(g, (g * r) * ri, (c * r) * ri, PVALUE);
    CongTrans(g, (r * ri) * c, c, PVALUE);
  }
}
