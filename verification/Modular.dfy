/** Congruence modulo p, as far as Montgomery arithmetic needs it. */
module Modular {
  import opened Limbs

  predicate Cong(x: int, y: int, p: nat)
    requires 0 < p
  {
    (x - y) % p == 0
  }

  lemma CongFrom(x: int, y: int, p: nat, k: int)
    requires 0 < p && x - y == k * p
    ensures Cong(x, y, p)
  {
    DivUnique(x - y, p, k, 0);
  }

  lemma CongWitness(x: int, y: int, p: nat) returns (k: int)
    requires 0 < p && Cong(x, y, p)
    ensures x - y == k * p
  {
    k := (x - y) / p;
  }

  lemma CongTrans(x: int, y: int, z: int, p: nat)
    requires 0 < p && Cong(x, y, p) && Cong(y, z, p)
    ensures Cong(x, z, p)
  {
    var k := CongWitness(x, y, p);
    var l := CongWitness(y, z, p);
    assert k * p + l * p == (k + l) * p;
    CongFrom(x, z, p, k + l);
  }

  lemma CongSym(x: int, y: int, p: nat)
    requires 0 < p && Cong(x, y, p)
    ensures Cong(y, x, p)
  {
    var k := CongWitness(x, y, p);
    assert -(k * p) == (-k) * p;
    CongFrom(y, x, p, -k);
  }

  lemma CongAdd(x: int, y: int, u: int, v: int, p: nat)
    requires 0 < p && Cong(x, y, p) && Cong(u, v, p)
    ensures Cong(x + u, y + v, p)
  {
    var k := CongWitness(x, y, p);
    var l := CongWitness(u, v, p);
    assert k * p + l * p == (k + l) * p;
    CongFrom(x + u, y + v, p, k + l);
  }

  lemma CongMul(x: int, y: int, z: int, p: nat)
    requires 0 < p && Cong(x, y, p)
    ensures Cong(x * z, y * z, p)
  {
    var k := CongWitness(x, y, p);
    assert x * z - y * z == (x - y) * z == (k * p) * z == (k * z) * p;
    CongFrom(x * z, y * z, p, k * z);
  }

  lemma CongMod(x: int, p: nat)
    requires 0 < p
    ensures 0 <= x % p < p && Cong(x % p, x, p)
  {
    assert x % p - x == (-(x / p)) * p;
    CongFrom(x % p, x, p, -(x / p));
  }

  lemma CongUnique(x: int, y: int, p: nat)
    requires 0 < p && Cong(x, y, p) && 0 <= x < p && 0 <= y < p
    ensures x == y
  {
    var k := CongWitness(x, y, p);
    if k >= 1 {
      MulMono(1, k, p);
    } else if k <= -1 {
      MulMono(k, -1, p);
    }
  }

  /** The reduced representative of a congruence class. */
  lemma CongReduced(x: int, y: int, p: nat)
    requires 0 < p && Cong(x, y, p) && 0 <= x < p
    ensures x == y % p
  {
    CongMod(y, p);
    CongSym(y % p, y, p);
    CongTrans(x, y, y % p, p);
    CongUnique(x, y % p, p);
  }
}
