/** Text as the programs see it: a sequence of UTF-16 code units, which is what its length counts, what an
    offset points at and what `<` compares. */
module Texts {
  import opened Sorting

  newtype CodeUnit = x: int | 0 <= x < 0x1_0000
  type Text = seq<CodeUnit>

  predicate UnitLess(a: CodeUnit, b: CodeUnit) {
    a < b
  }

  /** As `<` compares texts: at the first code unit that differs, or by length. */
  ghost predicate Ascends(a: Text, b: Text) {
    exists k: nat :: Differ(a, b, k)
  }

  ghost predicate Differ(a: Text, b: Text, k: nat) {
    k <= |a| && k < |b| && a[..k] == b[..k] && (k < |a| ==> a[k] < b[k])
  }

  lemma {:induction false} BeforeAscends(a: Text, b: Text)
    requires Before(UnitLess, a, b)
    ensures Ascends(a, b)
    decreases |a|
  {
    if a != [] && b != [] && a[0] == b[0] {
      BeforeAscends(a[1..], b[1..]);
      var k: nat :| Differ(a[1..], b[1..], k);
      assert a[..k + 1] == [a[0]] + a[1..][..k] && b[..k + 1] == [b[0]] + b[1..][..k];
      assert Differ(a, b, k + 1);
    } else {
      assert Differ(a, b, 0);
    }
  }
}
