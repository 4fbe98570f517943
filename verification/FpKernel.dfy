/** The generated BLS12-381 field kernel: addition, subtraction and CIOS Montgomery multiplication
    over twelve 32-bit limbs. The unrolled statements are the loops the generator unrolled, and
    `u64`/`i64` are range types, so every assignment below carries the obligation that the machine
    word did not wrap. */
module FpKernel {
  import opened Limbs
  import opened Modular
  import opened Reduction

  const B: nat := 0x1_0000_0000
  const N: nat := 12

  /** p, least-significant limb first. */
  const P: seq<u32> := [
    0xffffaaab, 0xb9feffff, 0xb153ffff, 0x1eabfffe, 0xf6b0f624, 0x6730d2a0,
    0xf38512bf, 0x64774b84, 0x434bacd7, 0x4b1ba7b6, 0x397fe69a, 0x1a0111ea]

  /** -p^-1 mod 2^32. */
  const MINV: u64 := 0xfffcfffd

  /** The modulus as one number, as section 8.8.1 of RFC 9380 gives it. */
  const PVALUE: nat :=
    0x1a0111ea397fe69a4b1ba7b6434bacd764774b84f38512bf6730d2a0f6b0f6241eabfffeb153ffffb9feffffffffaaab

  /** R = 2^384 and its inverse modulo p. */
  const R: nat := Pow(B, N)
  const RINV: nat :=
    0x14fec701e8fb0ce9ed5e64273c4f538b1797ab1458a88de9343ea97914956dc87fe11274d898fafbf4d38259380b4820

  /** A reduced field element: twelve 32-bit limbs whose value is below p. */
  ghost predicate Reduced(a: seq<u32>) {
    |a| == N && Val(B, a) < PVALUE
  }

  // ---- Facts about the constants --------------------------------------------------------------

  lemma Tail(i: nat)
    requires i < N
    ensures Val(B, P[i..]) == P[i] + B * Val(B, P[i + 1..])
  {
    assert P[i..] == [P[i]] + P[i + 1..];
    ValCons(B, P[i], P[i + 1..]);
  }

  /** The limbs spell the modulus, and the modulus leaves three spare bits in 384. */
  lemma ModulusValue()
    ensures Val(B, P) == PVALUE
    ensures Digits(B, P) && 8 * PVALUE < R
  {
    HighHalf();
    Tail(5); Tail(4); Tail(3); Tail(2); Tail(1); Tail(0);
    assert P[0..] == P;
    PowTwelve();
  }

  lemma HighHalf()
    ensures Val(B, P[6..]) == 0x1a0111ea397fe69a4b1ba7b6434bacd764774b84f38512bf
  {
    assert P[12..] == [];
    Tail(11); Tail(10); Tail(9); Tail(8); Tail(7); Tail(6);
  }

  lemma PowTwelve()
    ensures R ==
      0x1_00000000_00000000_00000000_00000000_00000000_00000000_00000000_00000000_00000000_00000000_00000000_00000000
  {
    assert Pow(B, 3) == 0x1_00000000_00000000_00000000;
    PowAdd(B, 3, 3);
    PowAdd(B, 6, 6);
  }

  lemma RInverse()
    ensures Cong(R * RINV, 1, PVALUE)
  {
    PowTwelve();
    CongFrom(R * RINV, 1, PVALUE,
      0xceb06106feaafc9468b316fee268cf5819ecca0e8eb2db4c16ef2ef0c8e30b48286adb92d9d113e889f3fffcfffcfffd);
  }

  /** What MINV is for: adding m * p to a number whose low limb is x clears that limb. */
  lemma LowLimbClears(x: u32, m: u32)
    requires m == (x * MINV) % B
    ensures (x + P[0] * m) % B == 0
  {
    var k := (x * MINV) / B;
    assert m == x * MINV - k * B;
    assert P[0] * MINV + 1 == 0xfffcaaa9 * B;
    assert x + P[0] * m == x * (P[0] * MINV + 1) - (P[0] * k) * B by {
      assert P[0] * (x * MINV - k * B) == P[0] * (x * MINV) - P[0] * (k * B);
      assert P[0] * (x * MINV) == x * (P[0] * MINV);
      assert P[0] * (k * B) == (P[0] * k) * B;
    }
    assert x * (0xfffcaaa9 * B) - (P[0] * k) * B == (x * 0xfffcaaa9 - P[0] * k) * B;
    DivUnique(x + P[0] * m, B, x * 0xfffcaaa9 - P[0] * k, 0);
  }

  // ---- One CIOS pass --------------------------------------------------------------------------

  /** A 32-bit multiply-accumulate with a 32-bit carry fits in 64 bits, and its carry in 32. */
  lemma AccFits(t: int, x: int, y: int, carry: int)
    requires 0 <= t < B && 0 <= x < B && 0 <= y < B && 0 <= carry < B
    ensures 0 <= t + x * y + carry < B * B
    ensures 0 <= (t + x * y + carry) / B < B
  {
    MulMono(x, B - 1, y);
    MulMono(0, x, y);
  }

  /** A word is its low limb and the carry above it. */
  lemma Split(acc: int)
    ensures acc == acc % B + B * (acc / B)
  {
  }

  /** `t += a * bi`: the first half of a pass. */
  method MulRow(a: seq<u32>, bi: u32, t: array<u64>) returns (spill: u64)
    requires |a| == N && t.Length == N + 1 && Digits(B, t[..])
    modifies t
    ensures Digits(B, t[..]) && spill <= 1
    ensures Val(B, t[..]) + spill * Pow(B, N + 1) == old(Val(B, t[..])) + Val(B, a) * bi
  {
    ghost var was := t[..];
    var carry: u64 := 0;
    for j := 0 to N
      invariant 0 <= carry < B
      invariant Digits(B, t[..]) && t[j..] == was[j..]
      invariant Multiplying(t[..j], was, a, j, carry, bi)
    {
      assert t[j] == t[j..][0] == was[j];
      AccFits(t[j], a[j], bi, carry);
      var acc: u64 := t[j] + a[j] * bi + carry;
      Split(acc);
      ghost var low := t[..j];
      MulStep(low, was, a, j, carry, acc % B, acc / B, bi);
      t[j] := acc % B;
      carry := acc / B;
      assert t[..j + 1] == low + [acc % B];
      assert t[j + 1..] == was[j + 1..];
    }
    assert t[N] == t[N..][0] == was[N];
    var hi: u64 := t[N] + carry;
    CarryBit(B, hi);
    Split(hi);
    ghost var low := t[..N];
    MulTop(low, was, a, N, carry, hi % B, hi / B, bi);
    t[N] := hi % B;
    spill := hi / B;
    assert t[..] == low + [hi % B];
  }

  /** After limb j of the multiply: what is stored and the carry are the first j limbs of
      t + a * y. */
  ghost predicate Multiplying(low: seq<int>, was: seq<int>, a: seq<int>, j: nat, carry: int, y: int)
    requires j <= |was| && j <= |a|
  {
    Val(B, low) + carry * Pow(B, j) == Val(B, was[..j]) + Val(B, a[..j]) * y
  }

  lemma MulArith(pw: int, v: int, carry: int, w: int, x: int, y: int, wv: int, xv: int, lo: int, up: int)
    requires lo + B * up == w + x * y + carry && v + carry * pw == wv + xv * y
    ensures (v + lo * pw) + up * (B * pw) == (wv + w * pw) + (xv + x * pw) * y
  {
    assert (lo + B * up) * pw == lo * pw + up * (B * pw);
    assert (w + x * y + carry) * pw == w * pw + (x * pw) * y + carry * pw;
    assert (xv + x * pw) * y == xv * y + (x * pw) * y;
  }

  lemma MulStep(low: seq<int>, was: seq<int>, a: seq<int>, j: nat, carry: int, lo: int, up: int, y: int)
    requires j < |was| && j < |a| && |low| == j
    requires lo + B * up == was[j] + a[j] * y + carry && Multiplying(low, was, a, j, carry, y)
    ensures Multiplying(low + [lo], was, a, j + 1, up, y)
  {
    ValSnoc(B, low, lo);
    ValPrefix(B, was, j);
    ValPrefix(B, a, j);
    PowNext(j);
    MulArith(Pow(B, j), Val(B, low), carry, was[j], a[j], y, Val(B, was[..j]), Val(B, a[..j]), lo, up);
  }

  lemma MulTop(low: seq<int>, was: seq<int>, a: seq<int>, n: nat, carry: int, lo: int, up: int, y: int)
    requires |was| == n + 1 && |a| == n && |low| == n
    requires lo + B * up == was[n] + carry && Multiplying(low, was, a, n, carry, y)
    ensures Val(B, low + [lo]) + up * Pow(B, n + 1) == Val(B, was) + Val(B, a) * y
  {
    assert a[..n] == a && was[..n + 1] == was;
    ValSnoc(B, low, lo);
    ValPrefix(B, was, n);
    PowNext(n);
    MulArith(Pow(B, n), Val(B, low), carry, was[n], 0, y, Val(B, was[..n]), Val(B, a), lo, up);
  }

  lemma PowNext(n: nat)
    ensures Pow(B, n + 1) == B * Pow(B, n)
  {
  }

  /** The multiplier that clears the low limb, and the carry out of clearing it. */
  method Quotient(t0: u64) returns (q: u64, carry: u64)
    requires t0 < B
    ensures q < B && carry < B && t0 + P[0] * q == B * carry
  {
    AccFits(0, t0, MINV, 0);
    var product: u64 := t0 * MINV;
    q := product % B;
    AccFits(t0, P[0], q, 0);
    var low: u64 := t0 + P[0] * q;
    LowLimbClears(t0, q);
    carry := low / B;
  }

  /** `t = (t + m * p) / 2^32`: the reduction half. The limb that is dropped is zero, so the shift
      is an exact division. */
  method ReduceRow(t: array<u64>, spill: u64, p: seq<u32>) returns (ghost m: u32)
    requires t.Length == N + 1 && Digits(B, t[..]) && spill <= 1 && |p| == N && p[0] == 0xffffaaab
    modifies t
    ensures Digits(B, t[..N]) && t[N] <= 2
    ensures B * Val(B, t[..]) == old(Val(B, t[..])) + spill * Pow(B, N + 1) + Val(B, p) * m
  {
    ghost var was := t[..];
    var q, carry := Quotient(t[0]);
    m := q;
    FirstLimb(was, p, q, carry);
    for j := 1 to N
      invariant 0 <= carry < B
      invariant Digits(B, t[..]) && t[j..] == was[j..]
      invariant Reducing(t[..j - 1], was, p, j, carry, q)
    {
      assert t[j] == t[j..][0] == was[j];
      AccFits(t[j], p[j], q, carry);
      var acc: u64 := t[j] + p[j] * q + carry;
      Split(acc);
      ghost var low := t[..j - 1];
      ReduceStep(low, was, p, j, carry, acc % B, acc / B, q);
      t[j - 1] := acc % B;
      carry := acc / B;
      assert t[..j] == low + [acc % B];
      assert t[j + 1..] == was[j + 1..];
    }
    assert t[N] == t[N..][0] == was[N];
    var hi: u64 := t[N] + carry;
    CarryBit(B, hi);
    Split(hi);
    ghost var low := t[..N - 1];
    TopLimbs(N, low, was, p, carry, hi % B, hi / B, spill, q);
    t[N - 1] := hi % B;
    t[N] := spill + hi / B;
    assert t[..] == low + [hi % B, spill + hi / B];
    assert t[..N] == low + [hi % B];
  }

  /** After limb j of the reduction: what is stored, one place down, and the carry are exactly the
      first j limbs of t + q * p. */
  ghost predicate Reducing(low: seq<int>, was: seq<int>, p: seq<int>, j: nat, carry: int, q: int)
    requires 1 <= j <= |was| && j <= |p|
  {
    B * (Val(B, low) + carry * Pow(B, j - 1)) == Val(B, was[..j]) + Val(B, p[..j]) * q
  }

  lemma FirstLimb(was: seq<int>, p: seq<int>, q: int, carry: int)
    requires |was| == N + 1 && |p| == N && was[0] + p[0] * q == B * carry
    ensures Reducing([], was, p, 1, carry, q)
  {
    ValPrefix(B, was, 0);
    ValPrefix(B, p, 0);
    assert was[..0] == [] && p[..0] == [];
  }

  lemma ReduceArith(pw: int, v: int, carry: int, w: int, x: int, y: int, wv: int, xv: int, lo: int, up: int)
    requires lo + B * up == w + x * y + carry && B * (v + carry * pw) == wv + xv * y
    ensures B * ((v + lo * pw) + up * (B * pw)) == (wv + w * (B * pw)) + (xv + x * (B * pw)) * y
  {
    Swap(carry, pw);
    MulArith(B * pw, B * v, carry, w, x, y, wv, xv, lo, up);
    Swap(lo, pw);
    Swap(up, B * pw);
  }

  lemma Swap(x: int, z: int)
    ensures x * (B * z) == B * (x * z)
  {
    MulAssoc(x, B, z);
    MulAssoc(B, x, z);
  }

  lemma ReduceStep(low: seq<int>, was: seq<int>, p: seq<int>, j: nat, carry: int, lo: int, up: int, q: int)
    requires 1 <= j < |was| && j < |p| && |low| == j - 1
    requires lo + B * up == was[j] + p[j] * q + carry && Reducing(low, was, p, j, carry, q)
    ensures Reducing(low + [lo], was, p, j + 1, up, q)
  {
    ValSnoc(B, low, lo);
    ValPrefix(B, was, j);
    ValPrefix(B, p, j);
    PowNext(j - 1);
    ReduceArith(Pow(B, j - 1), Val(B, low), carry, was[j], p[j], q, Val(B, was[..j]), Val(B, p[..j]), lo, up);
  }

  lemma TopLimbs(n: nat, low: seq<int>, was: seq<int>, p: seq<int>, carry: int, lo: int, up: int, spill: int, q: int)
    requires 1 <= n && |was| == n + 1 && |p| == n && |low| == n - 1
    requires lo + B * up == was[n] + carry && Reducing(low, was, p, n, carry, q)
    ensures B * Val(B, low + [lo, spill + up]) == Val(B, was) + spill * Pow(B, n + 1) + Val(B, p) * q
  {
    var pw, pw1, pw2 := Pow(B, n - 1), Pow(B, n), Pow(B, n + 1);
    var v, wv, pv := Val(B, low), Val(B, was[..n]), Val(B, p);
    PowNext(n - 1);
    PowNext(n);
    calc {
      B * Val(B, low + [lo, spill + up]);
      { TwoMore(low, lo, spill + up); }
      B * (v + lo * pw + (spill + up) * pw1);
      { assert p[..n] == p; TopArith(pw, pw1, pw2, v, carry, was[n], q, wv, pv, lo, up, spill); }
      (wv + was[n] * pw1) + spill * pw2 + pv * q;
      { ValPrefix(B, was, n); assert was[..n + 1] == was; }
      Val(B, was) + spill * pw2 + pv * q;
    }
  }

  lemma TwoMore(s: seq<int>, x: int, y: int)
    ensures Val(B, s + [x, y]) == Val(B, s) + x * Pow(B, |s|) + y * Pow(B, |s| + 1)
  {
    var mid := s + [x];
    assert s + [x, y] == mid + [y];
    ValSnoc(B, s, x);
    ValSnoc(B, mid, y);
  }

  lemma TopArith(pw: int, pw1: int, pw2: int, v: int, carry: int, w: int, y: int,
                 wv: int, pv: int, lo: int, up: int, spill: int)
    requires pw1 == B * pw && pw2 == B * pw1
    requires lo + B * up == w + carry && B * (v + carry * pw) == wv + pv * y
    ensures B * (v + lo * pw + (spill + up) * pw1) == wv + w * pw1 + spill * pw2 + pv * y
  {
    ReduceArith(pw, v, carry, w, 0, y, wv, pv, lo, up);
    assert (spill + up) * pw1 == spill * pw1 + up * pw1;
    Swap(spill, pw1);
  }

  // ---- Multiplication -------------------------------------------------------------------------

  lemma ProductBound(t: int, x: int, y: int)
    requires 0 <= t < 2 * PVALUE && 0 <= x < PVALUE && 0 <= y < B
    ensures 0 <= t + x * y < PVALUE * (B + 1)
  {
    MulMono(0, x, y);
    MulMono(x, PVALUE - 1, y);
    MulMono(y, B - 1, PVALUE - 1);
  }

  /** The bound that makes one final subtraction enough: a pass maps [0, 2p) into [0, 2p). */
  lemma BelowTwoP(t: int, t': int, x: int, y: int, m: int)
    requires 0 <= t < 2 * PVALUE && 0 <= x < PVALUE && 0 <= y < B && 0 <= m < B
    requires B * t' == t + x * y + PVALUE * m
    ensures 0 <= t' < 2 * PVALUE
  {
    ProductBound(t, x, y);
    MulMono(m, B - 1, PVALUE);
  }

  /** A value below p * (2^32 + 1) has nothing above the thirteenth limb. */
  lemma NoSpill(s: seq<int>, spill: int)
    requires |s| == N + 1 && Digits(B, s) && 0 <= spill
    requires Val(B, s) + spill * Pow(B, N + 1) < PVALUE * (B + 1)
    ensures spill == 0
  {
    ModulusValue();
    ValBound(B, s);
    PowNext(N);
    if spill >= 1 {
      MulMono(1, spill, Pow(B, N + 1));
    }
  }

  /** A value below 2p has nothing in its thirteenth limb. */
  lemma TopLimbZero(s: seq<int>)
    requires |s| == N + 1 && Digits(B, s[..N]) && 0 <= s[N] && Val(B, s) < 2 * PVALUE
    ensures s[N] == 0 && Val(B, s[..N]) == Val(B, s) && Digits(B, s)
  {
    ModulusValue();
    ValPrefix(B, s, N);
    assert s[..N + 1] == s;
    ValBound(B, s[..N]);
    if s[N] >= 1 {
      MulMono(1, s[N], R);
    }
  }

  /** One pass. In every pass the spill is zero, the thirteenth limb is zero again at the end, and
      the accumulator, an exact quotient by 2^32, stays below 2p. */
  method Pass(a: seq<u32>, bi: u32, t: array<u64>) returns (spill: u64, ghost m: u32)
    requires Reduced(a) && t.Length == N + 1 && Digits(B, t[..]) && Val(B, t[..]) < 2 * PVALUE
    modifies t
    ensures spill == 0 && t[N] == 0 && Digits(B, t[..]) && Val(B, t[..]) < 2 * PVALUE
    ensures B * Val(B, t[..]) == old(Val(B, t[..])) + Val(B, a) * bi + PVALUE * m
  {
    ghost var t0 := Val(B, t[..]);
    ValBound(B, t[..]);
    ValBound(B, a);
    spill := MulRow(a, bi, t);
    ProductBound(t0, Val(B, a), bi);
    NoSpill(t[..], spill);
    ModulusValue();
    m := ReduceRow(t, spill, P);
    BelowTwoP(t0, Val(B, t[..]), Val(B, a), bi, m);
    assert t[..][..N] == t[..N];
    TopLimbZero(t[..]);
  }

  lemma PassStep(pw: int, t: int, t': int, x: int, bv: int, bi: int, m: int, mm: int)
    requires B * t' == t + x * bi + PVALUE * m
    requires t * pw == x * bv + PVALUE * mm
    ensures t' * (B * pw) == x * (bv + bi * pw) + PVALUE * (mm + m * pw)
  {
    Swap(t', pw);
    MulAssoc(B, t', pw);
    assert (t + x * bi + PVALUE * m) * pw == t * pw + x * (bi * pw) + PVALUE * (m * pw);
    assert x * (bv + bi * pw) == x * bv + x * (bi * pw);
  }

  /** The twelve limbs of a number's residue modulo p. */
  ghost function Element(x: int): (s: seq<int>) {
    ToLimbs(B, N, x % PVALUE)
  }

  /** A reduced limb array is the element of whatever its value is congruent to. */
  lemma ElementIs(s: seq<u32>, x: int)
    requires Reduced(s) && Cong(Val(B, s), x, PVALUE)
    ensures s == Element(x)
  {
    ValBound(B, s);
    CongReduced(Val(B, s), x, PVALUE);
    ToFromLimbs(B, s);
  }

  lemma ElementValue(x: int)
    ensures Val(B, Element(x)) == x % PVALUE && Reduced(Element(x))
  {
    ModulusValue();
    FromToLimbs(B, N, x % PVALUE);
  }

  /** Twelve passes divide by R = 2^384: whatever times R is the product is the product times 1/R. */
  lemma DividedByR(r: int, x: int, mm: int)
    requires r * R == x + PVALUE * mm
    ensures Cong(r * R, x, PVALUE) && Cong(r, x * RINV, PVALUE)
  {
    CongFrom(r * R, x, PVALUE, mm);
    CongMul(r * R, x, RINV, PVALUE);
    RInverse();
    CongMul(R * RINV, 1, r, PVALUE);
    CongSym((R * RINV) * r, r, PVALUE);
    assert (R * RINV) * r == (r * R) * RINV;
    CongTrans(r, (r * R) * RINV, x * RINV, PVALUE);
  }

  lemma Quotiented(r: int, total: int, x: int, mm: int)
    requires total * R == x + PVALUE * mm && (r == total || r == total - PVALUE)
    ensures Cong(r * R, x, PVALUE) && Cong(r, x * RINV, PVALUE)
  {
    if r == total {
      DividedByR(r, x, mm);
    } else {
      assert (total - PVALUE) * R == total * R - PVALUE * R;
      DividedByR(r, x, mm - R);
    }
  }

  /** CIOS Montgomery multiplication: the limbs of a * b / R modulo p. */
  method MontMul(a: array<u32>, b: array<u32>) returns (out: array<u32>)
    requires Reduced(a[..]) && Reduced(b[..])
    ensures fresh(out) && Reduced(out[..])
    ensures Cong(Val(B, out[..]) * R, Val(B, a[..]) * Val(B, b[..]), PVALUE)
    ensures out[..] == Element(Val(B, a[..]) * Val(B, b[..]) * RINV)
  {
    var al := a[..];
    var t := new u64[N + 1](_ => 0);
    ghost var mm := 0;
    ghost var x := Val(B, a[..]);
    ZeroValue(t[..]);
    for i := 0 to N
      invariant t[N] == 0 && Digits(B, t[..]) && Val(B, t[..]) < 2 * PVALUE
      invariant Val(B, t[..]) * Pow(B, i) == x * Val(B, b[..][..i]) + PVALUE * mm
    {
      ghost var before := Val(B, t[..]);
      var spill, m := Pass(al, b[i], t);
      ValPrefix(B, b[..], i);
      PassStep(Pow(B, i), before, Val(B, t[..]), x, Val(B, b[..][..i]), b[i], m, mm);
      mm := mm + m * Pow(B, i);
    }
    assert b[..][..N] == b[..];
    ghost var total := Val(B, t[..]);
    out := Finish(t);
    Quotiented(Val(B, out[..]), total, x * Val(B, b[..]), mm);
    ElementIs(out[..], x * Val(B, b[..]) * RINV);
  }

  /** The low twelve limbs, less p when they are not below it. */
  method Finish(t: array<u64>) returns (out: array<u32>)
    requires t.Length == N + 1 && Digits(B, t[..]) && Val(B, t[..]) < 2 * PVALUE
    ensures fresh(out) && Reduced(out[..])
    ensures Val(B, out[..]) == Val(B, t[..]) || Val(B, out[..]) == Val(B, t[..]) - PVALUE
  {
    TopLimbZero(t[..]);
    out := new u32[N](j requires 0 <= j < t.Length reads t => t[j] % B);
    assert out[..] == t[..][..N];
    var big := AtLeast(B, out[..], P);
    ModulusValue();
    if t[N] != 0 || big {
      SubInPlace(B, out, P);
    }
  }

  lemma {:induction false} ZeroValue(s: seq<int>)
    requires forall i :: 0 <= i < |s| ==> s[i] == 0
    ensures Val(B, s) == 0
  {
    if |s| > 0 {
      ZeroValue(s[..|s| - 1]);
    }
  }

  // ---- Addition and subtraction ---------------------------------------------------------------

  /** `(a + b) mod p`: a carry chain and at most one subtraction of p. */
  method MontAdd(a: array<u32>, b: array<u32>) returns (out: array<u32>)
    requires Reduced(a[..]) && Reduced(b[..])
    ensures fresh(out) && Reduced(out[..])
    ensures out[..] == Element(Val(B, a[..]) + Val(B, b[..]))
  {
    out := new u32[N];
    var carry: u64 := 0;
    for i := 0 to N
      invariant 0 <= carry <= 1
      invariant Val(B, out[..i]) + carry * Pow(B, i) == Val(B, a[..][..i]) + Val(B, b[..][..i])
    {
      ghost var low := out[..i];
      var s: u64 := a[i] + b[i] + carry;
      CarryBit(B, s);
      CarryStep(B, Pow(B, i), a[i], b[i], Val(B, low), carry, s);
      out[i] := s % B;
      carry := s / B;
      assert out[..i + 1] == low + [s % B];
      ValSnoc(B, low, s % B);
      ValPrefix(B, a[..], i);
      ValPrefix(B, b[..], i);
    }
    assert out[..N] == out[..] && a[..][..N] == a[..] && b[..][..N] == b[..];
    ghost var total := Val(B, a[..]) + Val(B, b[..]);
    ValBound(B, out[..]);
    ValBound(B, a[..]);
    ValBound(B, b[..]);
    ModulusValue();
    var big := AtLeast(B, out[..], P);
    if carry != 0 || big {
      SubInPlace(B, out, P);
      CongFrom(total - PVALUE, total, PVALUE, -1);
    } else {
      CongFrom(total, total, PVALUE, 0);
    }
    ElementIs(out[..], total);
  }

  /** `(a - b) mod p`: a borrow chain, and p added back when it underflowed. */
  method MontSub(a: array<u32>, b: array<u32>) returns (out: array<u32>)
    requires Reduced(a[..]) && Reduced(b[..])
    ensures fresh(out) && Reduced(out[..])
    ensures out[..] == Element(Val(B, a[..]) - Val(B, b[..]))
  {
    out := new u32[N];
    var borrow: i64 := 0;
    for i := 0 to N
      invariant 0 <= borrow <= 1
      invariant Val(B, out[..i]) == Val(B, a[..][..i]) - Val(B, b[..][..i]) + borrow * Pow(B, i)
    {
      ghost var low := out[..i];
      var d: i64 := a[i] - b[i] - borrow;
      var borrow': i64 := if d < 0 then 1 else 0;
      BorrowStep(B, Pow(B, i), a[i], b[i], borrow, d, borrow');
      out[i] := d % B;
      borrow := borrow';
      assert out[..i + 1] == low + [d % B];
      ValSnoc(B, low, d % B);
      ValPrefix(B, a[..], i);
      ValPrefix(B, b[..], i);
    }
    assert out[..N] == out[..] && a[..][..N] == a[..] && b[..][..N] == b[..];
    ghost var diff := Val(B, a[..]) - Val(B, b[..]);
    ValBound(B, out[..]);
    ValBound(B, a[..]);
    ValBound(B, b[..]);
    ModulusValue();
    if borrow != 0 {
      AddInPlace(B, out, P);
      CongFrom(diff + PVALUE, diff, PVALUE, 1);
    } else {
      CongFrom(diff, diff, PVALUE, 0);
    }
    ElementIs(out[..], diff);
  }

  // ---- Ring laws, limb for limb ---------------------------------------------------------------

  /** What the three operations compute on limbs; the methods above are proved to return exactly
      these. */
  ghost function Sum(a: seq<u32>, b: seq<u32>): (s: seq<u32>) { Element(Val(B, a) + Val(B, b)) }
  ghost function Diff(a: seq<u32>, b: seq<u32>): (s: seq<u32>) { Element(Val(B, a) - Val(B, b)) }
  ghost function Prod(a: seq<u32>, b: seq<u32>): (s: seq<u32>) { Element(Val(B, a) * Val(B, b) * RINV) }

  lemma ElementCong(x: int, y: int)
    requires Cong(x, y, PVALUE)
    ensures Element(x) == Element(y)
  {
    CongMod(x, PVALUE);
    CongTrans(x % PVALUE, x, y, PVALUE);
    CongReduced(x % PVALUE, y, PVALUE);
  }

  /** The value of an element may be replaced by any number it is congruent to. */
  lemma ElementCongValue(x: int)
    ensures Cong(Val(B, Element(x)), x, PVALUE)
  {
    ElementValue(x);
    CongMod(x, PVALUE);
  }

  /** Subtraction undoes addition. */
  lemma SubUndoesAdd(a: seq<u32>, b: seq<u32>)
    requires Reduced(a) && Reduced(b)
    ensures Diff(Sum(a, b), b) == a
  {
    var x, y := Val(B, a), Val(B, b);
    ElementCongValue(x + y);
    CongFrom(-y, -y, PVALUE, 0);
    CongAdd(Val(B, Sum(a, b)), x + y, -y, -y, PVALUE);
    ElementCong(Val(B, Sum(a, b)) - y, x);
    CongFrom(x, x, PVALUE, 0);
    ElementIs(a, x);
  }

  /** Multiplication distributes over addition. */
  lemma MulDistributes(a: seq<u32>, b: seq<u32>, c: seq<u32>)
    requires Reduced(a) && Reduced(b) && Reduced(c)
    ensures Prod(a, Sum(b, c)) == Sum(Prod(a, b), Prod(a, c))
  {
    var x, y, z := Val(B, a), Val(B, b), Val(B, c);
    var k := x * RINV;
    ElementCongValue(y + z);
    CongMul(Val(B, Sum(b, c)), y + z, k, PVALUE);
    ElementCongValue(x * y * RINV);
    ElementCongValue(x * z * RINV);
    CongAdd(Val(B, Prod(a, b)), x * y * RINV, Val(B, Prod(a, c)), x * z * RINV, PVALUE);
    Rearrange(x, y, RINV);
    Rearrange(x, z, RINV);
    Rearrange(x, Val(B, Sum(b, c)), RINV);
    assert y * k + z * k == (y + z) * k;
    ElementCong(Val(B, Sum(b, c)) * k, (y + z) * k);
    ElementCong(Val(B, Prod(a, b)) + Val(B, Prod(a, c)), (y + z) * k);
  }

  lemma Rearrange(x: int, y: int, z: int)
    ensures x * y * z == y * (x * z)
  {
  }

  /** Multiplication is commutative and associative. */
  lemma MulAssociates(a: seq<u32>, b: seq<u32>, c: seq<u32>)
    requires Reduced(a) && Reduced(b) && Reduced(c)
    ensures Prod(a, b) == Prod(b, a)
    ensures Prod(Prod(a, b), c) == Prod(a, Prod(b, c))
  {
    var x, y, z := Val(B, a), Val(B, b), Val(B, c);
    assert x * y == y * x;
    ElementCongValue(x * y * RINV);
    CongMul(Val(B, Prod(a, b)), x * y * RINV, z * RINV, PVALUE);
    ElementCongValue(y * z * RINV);
    CongMul(Val(B, Prod(b, c)), y * z * RINV, x * RINV, PVALUE);
    MulAssoc(Val(B, Prod(a, b)), z, RINV);
    Rearrange(x, Val(B, Prod(b, c)), RINV);
    Regroup(x, y, z, RINV);
    ElementCong(Val(B, Prod(a, b)) * z * RINV, (x * y * RINV) * (z * RINV));
    ElementCong(x * Val(B, Prod(b, c)) * RINV, (y * z * RINV) * (x * RINV));
  }

  lemma Regroup(x: int, y: int, z: int, r: int)
    ensures (x * y * r) * (z * r) == (y * z * r) * (x * r)
  {
    assert (x * y * r) * (z * r) == (x * y * z) * (r * r);
    assert (y * z * r) * (x * r) == (x * y * z) * (r * r);
  }

  /** The element 1 in Montgomery form, R mod p, is the unit of the product. */
  lemma MontgomeryOne(a: seq<u32>)
    requires Reduced(a)
    ensures Prod(a, Element(R)) == a
  {
    var x := Val(B, a);
    ElementCongValue(R);
    CongMul(Val(B, Element(R)), R, x * RINV, PVALUE);
    RInverse();
    CongMul(R * RINV, 1, x, PVALUE);
    Rearrange(x, Val(B, Element(R)), RINV);
    assert R * (x * RINV) == (R * RINV) * x;
    CongTrans(Val(B, Element(R)) * (x * RINV), (R * RINV) * x, x, PVALUE);
    ElementCong(x * Val(B, Element(R)) * RINV, x);
    CongFrom(x, x, PVALUE, 0);
    ElementIs(a, x);
  }
}
