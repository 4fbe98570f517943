/** The compare, subtract and add chains against the modulus, shared by both kernels: the 32-bit one
    uses them with twelve limbs, the 29-bit one with fourteen. */
module Reduction {
  import opened Limbs

  lemma CarryStep(b: nat, pw: nat, x: int, y: int, z: int, carry: int, acc: int)
    requires 0 < b && acc == x + y + carry
    ensures z + x * pw + y * pw + carry * pw == z + (acc % b) * pw + (acc / b) * (b * pw)
  {
    assert acc == acc % b + b * (acc / b);
    assert (acc % b + b * (acc / b)) * pw == (acc % b) * pw + (b * (acc / b)) * pw;
    assert (b * (acc / b)) * pw == (acc / b) * (b * pw);
    assert (x + y + carry) * pw == x * pw + y * pw + carry * pw;
  }

  lemma CarryBit(b: nat, acc: int)
    requires 0 < b && 0 <= acc < 2 * b
    ensures 0 <= acc / b <= 1 && 0 <= acc % b < b
  {
    DivUnique(acc, b, if acc < b then 0 else 1, if acc < b then acc else acc - b);
  }

  lemma BorrowStep(b: nat, pw: nat, x: int, y: int, borrow: int, d: int, borrow': int)
    requires 0 < b && d == x - y - borrow && 0 <= x < b && 0 <= y < b && 0 <= borrow <= 1
    requires borrow' == if d < 0 then 1 else 0
    ensures 0 <= d % b < b && d % b == d + borrow' * b
    ensures x * pw - y * pw - borrow * pw == (d % b) * pw - borrow' * (b * pw)
  {
    DivUnique(d, b, -borrow', d + borrow' * b);
    assert (x - y - borrow) * pw == x * pw - y * pw - borrow * pw;
    assert (d + borrow' * b) * pw == d * pw + (borrow' * b) * pw;
    assert (borrow' * b) * pw == borrow' * (b * pw);
  }

  /** `atLeastP`: scan from the top limb; the first limb that differs decides. */
  method AtLeast(b: nat, a: seq<u32>, p: seq<u32>) returns (r: bool)
    requires 0 < b && |a| == |p| && Digits(b, a) && Digits(b, p)
    ensures r <==> Val(b, a) >= Val(b, p)
  {
    var i := |a|;
    while i > 0
      invariant 0 <= i <= |a|
      invariant a[i..] == p[i..]
    {
      i := i - 1;
      if a[i] != p[i] {
        if a[i] < p[i] {
          ValCompare(b, a, p, i);
        } else {
          ValCompare(b, p, a, i);
        }
        return a[i] > p[i];
      }
      assert a[i..] == [a[i]] + a[i + 1..] && p[i..] == [p[i]] + p[i + 1..];
    }
    assert a == a[0..] && p == p[0..];
    return true;
  }

  /** `subPInPlace`: the borrow chain computes a - p modulo b^n. */
  method SubInPlace(b: nat, a: array<u32>, p: seq<u32>)
    requires 0 < b <= 0x1_0000_0000 && a.Length == |p| && Digits(b, a[..]) && Digits(b, p)
    modifies a
    ensures Digits(b, a[..])
    ensures Val(b, a[..]) == old(Val(b, a[..])) - Val(b, p)
                             + if old(Val(b, a[..])) < Val(b, p) then Pow(b, |p|) else 0
  {
    ghost var was := a[..];
    var borrow: i64 := 0;
    for i := 0 to a.Length
      invariant 0 <= borrow <= 1
      invariant Digits(b, a[..]) && a[i..] == was[i..]
      invariant Val(b, a[..i]) == Val(b, was[..i]) - Val(b, p[..i]) + borrow * Pow(b, i)
    {
      assert a[i] == a[i..][0] == was[i];
      var d: i64 := a[i] - p[i] - borrow;
      var borrow': i64 := if d < 0 then 1 else 0;
      BorrowStep(b, Pow(b, i), a[i], p[i], borrow, d, borrow');
      ghost var low := a[..i];
      a[i] := d % b;
      borrow := borrow';
      assert a[..i] == low;
      ValPrefix(b, a[..], i);
      ValPrefix(b, was, i);
      ValPrefix(b, p, i);
      assert a[..][..i + 1] == a[..i + 1] && a[..][..i] == a[..i];
      assert a[i + 1..] == was[i + 1..];
    }
    assert a[..a.Length] == a[..] && was[..|was|] == was && p[..|p|] == p;
    ValBound(b, a[..]);
    ValBound(b, was);
    ValBound(b, p);
  }

  /** `addPInPlace`: the carry chain computes a + p modulo b^n. */
  method AddInPlace(b: nat, a: array<u32>, p: seq<u32>)
    requires 0 < b <= 0x1_0000_0000 && a.Length == |p| && Digits(b, a[..]) && Digits(b, p)
    modifies a
    ensures Digits(b, a[..])
    ensures Val(b, a[..]) == old(Val(b, a[..])) + Val(b, p)
                             - if old(Val(b, a[..])) + Val(b, p) >= Pow(b, |p|) then Pow(b, |p|) else 0
  {
    ghost var was := a[..];
    var carry: u64 := 0;
    for i := 0 to a.Length
      invariant 0 <= carry <= 1
      invariant Digits(b, a[..]) && a[i..] == was[i..]
      invariant Val(b, a[..i]) + carry * Pow(b, i) == Val(b, was[..i]) + Val(b, p[..i])
    {
      assert a[i] == a[i..][0] == was[i];
      var s: u64 := a[i] + p[i] + carry;
      CarryBit(b, s);
      CarryStep(b, Pow(b, i), a[i], p[i], Val(b, a[..i]), carry, s);
      ghost var low := a[..i];
      a[i] := s % b;
      carry := s / b;
      assert a[..i] == low;
      ValPrefix(b, a[..], i);
      ValPrefix(b, was, i);
      ValPrefix(b, p, i);
      assert a[..][..i + 1] == a[..i + 1] && a[..][..i] == a[..i];
      assert a[i + 1..] == was[i + 1..];
    }
    assert a[..a.Length] == a[..] && was[..|was|] == was && p[..|p|] == p;
    ValBound(b, a[..]);
    ValBound(b, was);
    ValBound(b, p);
  }
}
