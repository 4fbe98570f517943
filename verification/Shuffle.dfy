/** The in-place Fisher-Yates shuffle of `sampleMutants` (`tools/mutate/sample.ts`): it permutes, it can
    produce every permutation, and each comes from exactly one sequence of picks. */
module Shuffle {
  /** What the generator returns: at least 0 and below 1. */
  type Unit = x: real | 0.0 <= x < 1.0 witness 0.0
  type Stream = nat -> Unit

  function Pick(x: Unit, i: nat): (j: nat)
    ensures j <= i
  {
    assert x * (i + 1) as real < 1.0 * (i + 1) as real;
    (x * (i + 1) as real).Floor
  }

  function Swapped<T>(s: seq<T>, i: nat, j: nat): (r: seq<T>)
    requires i < |s| && j < |s|
    ensures |r| == |s|
  {
    s[i := s[j]][j := s[i]]
  }

  /** The positions from i down to 1, each swapped with a pick at or below it. */
  function Shuffled<T>(s: seq<T>, i: nat, draws: Stream, at: nat): (r: seq<T>)
    requires i < |s| || i == 0
    ensures |r| == |s|
    decreases i
  {
    if i == 0 then s else Shuffled(Swapped(s, i, Pick(draws(at), i)), i - 1, draws, at + 1)
  }

  function Last<T>(s: seq<T>): nat {
    if |s| == 0 then 0 else |s| - 1
  }

  method ShuffleInPlace<T>(a: array<T>, draws: Stream, at: nat) returns (next: nat)
    modifies a
    ensures a[..] == Shuffled(old(a[..]), Last(old(a[..])), draws, at)
    ensures next == at + Last(old(a[..]))
  {
    next := at;
    var i := Last(a[..]);
    while i > 0
      invariant 0 <= i <= Last(old(a[..])) && next == at + Last(old(a[..])) - i
      invariant i < a.Length || i == 0
      invariant Shuffled(a[..], i, draws, next) == Shuffled(old(a[..]), Last(old(a[..])), draws, at)
    {
      var j := Pick(draws(next), i);
      ghost var was := a[..];
      a[i], a[j] := a[j], a[i];
      assert a[..] == Swapped(was, i, j);
      i, next := i - 1, next + 1;
    }
  }

  lemma SwapPermutes<T>(s: seq<T>, i: nat, j: nat)
    requires i < |s| && j < |s|
    ensures multiset(Swapped(s, i, j)) == multiset(s)
  {
  }

  lemma {:induction false} ShufflePermutes<T>(s: seq<T>, i: nat, draws: Stream, at: nat)
    requires i < |s| || i == 0
    ensures multiset(Shuffled(s, i, draws, at)) == multiset(s)
    decreases i
  {
    if i > 0 {
      var j := Pick(draws(at), i);
      SwapPermutes(s, i, j);
      ShufflePermutes(Swapped(s, i, j), i - 1, draws, at + 1);
    }
  }

  /** Positions above i are settled. */
  lemma {:induction false} ShuffleSettles<T>(s: seq<T>, i: nat, draws: Stream, at: nat)
    requires i < |s| || i == 0
    ensures Shuffled(s, i, draws, at)[if i < |s| then i + 1 else 0..] == s[if i < |s| then i + 1 else 0..]
    decreases i
  {
    if i > 0 {
      var t := Swapped(s, i, Pick(draws(at), i));
      ShuffleSettles(t, i - 1, draws, at + 1);
      var r := Shuffled(s, i, draws, at);
      assert r[i + 1..] == r[i..][1..] && t[i + 1..] == t[i..][1..];
      assert t[i + 1..] == s[i + 1..];
    }
  }

  /** Only the draws from `at` on matter. */
  lemma {:induction false} SameDraws<T>(s: seq<T>, i: nat, d: Stream, e: Stream, at: nat)
    requires (i < |s| || i == 0) && forall k :: k >= at ==> d(k) == e(k)
    ensures Shuffled(s, i, d, at) == Shuffled(s, i, e, at)
    decreases i
  {
    if i > 0 {
      SameDraws(Swapped(s, i, Pick(d(at), i)), i - 1, d, e, at + 1);
    }
  }

  /** Nor those from at + i on: there is one draw a swap. */
  lemma {:induction false} SameDrawsWithin<T>(s: seq<T>, i: nat, d: Stream, e: Stream, at: nat)
    requires (i < |s| || i == 0) && forall k :: at <= k < at + i ==> d(k) == e(k)
    ensures Shuffled(s, i, d, at) == Shuffled(s, i, e, at)
    decreases i
  {
    if i > 0 {
      SameDrawsWithin(Swapped(s, i, Pick(d(at), i)), i - 1, d, e, at + 1);
    }
  }

  /** The unit interval is cut into i + 1 equal parts, and a draw in the j-th of them picks j. */
  lemma PickIs(x: Unit, i: nat, j: nat)
    ensures Pick(x, i) == j <==> j as real <= x * (i + 1) as real < (j + 1) as real
  {
  }

  lemma PickFor(i: nat, j: nat) returns (x: Unit)
    requires j <= i
    ensures Pick(x, i) == j
  {
    var w := (i + 1) as real;
    var q := j as real / w;
    assert q * w == j as real;
    assert 0.0 <= q < 1.0;
    x := q;
  }

  /** Every rearrangement of a list comes from some stream of draws. */
  lemma {:induction false} ShuffleReaches<T>(s: seq<T>, t: seq<T>, i: nat, at: nat) returns (draws: Stream)
    requires i < |s| == |t| && s[i + 1..] == t[i + 1..] && multiset(s[..i + 1]) == multiset(t[..i + 1])
    ensures Shuffled(s, i, draws, at) == t
    decreases i
  {
    if i == 0 {
      draws := _ => 0.0;
      OneLeft(s, t);
    } else {
      var j := FindIn(s, t, i);
      var x := PickFor(i, j);
      var u := Swapped(s, i, j);
      SwapTowards(s, t, i, j);
      var rest := ShuffleReaches(u, t, i - 1, at + 1);
      draws := k => if k == at then x else rest(k);
      SameDraws(u, i - 1, draws, rest, at + 1);
      assert Pick(draws(at), i) == j;
    }
  }

  lemma OneLeft<T>(s: seq<T>, t: seq<T>)
    requires 0 < |s| == |t| && s[1..] == t[1..] && multiset(s[..1]) == multiset(t[..1])
    ensures s == t
  {
    assert s[..1] == [s[0]] && t[..1] == [t[0]];
    assert s[0] in multiset(t[..1]);
    assert s == [s[0]] + s[1..] && t == [t[0]] + t[1..];
  }

  lemma FindIn<T>(s: seq<T>, t: seq<T>, i: nat) returns (j: nat)
    requires i < |s| == |t| && multiset(s[..i + 1]) == multiset(t[..i + 1])
    ensures j <= i && s[j] == t[i]
  {
    assert t[i] in t[..i + 1];
    assert t[i] in multiset(s[..i + 1]);
    j :| 0 <= j < |s[..i + 1]| && s[..i + 1][j] == t[i];
  }

  lemma SwapTowards<T>(s: seq<T>, t: seq<T>, i: nat, j: nat)
    requires 0 < i < |s| == |t| && j <= i && s[j] == t[i]
    requires s[i + 1..] == t[i + 1..] && multiset(s[..i + 1]) == multiset(t[..i + 1])
    ensures var u := Swapped(s, i, j);
      u[i..] == t[i..] && multiset(u[..i]) == multiset(t[..i])
  {
    var u := Swapped(s, i, j);
    SwapParts(s, i, j);
    SwapPermutes(s[..i + 1], i, j);
    Peel(u, i);
    Peel(t, i);
    Prepend(u, t, i);
  }

  /** A swap at or below i, seen from its two sides. */
  lemma SwapParts<T>(s: seq<T>, i: nat, j: nat)
    requires i < |s| && j <= i
    ensures var u := Swapped(s, i, j);
      u[..i + 1] == Swapped(s[..i + 1], i, j) && u[i + 1..] == s[i + 1..] && u[i] == s[j]
  {
  }

  lemma Prepend<T>(u: seq<T>, t: seq<T>, i: nat)
    requires i < |u| == |t| && u[i] == t[i] && u[i + 1..] == t[i + 1..]
    ensures u[i..] == t[i..]
  {
    assert u[i..] == [u[i]] + u[i + 1..] && t[i..] == [t[i]] + t[i + 1..];
  }

  lemma Peel<T>(u: seq<T>, i: nat)
    requires i < |u|
    ensures multiset(u[..i]) == multiset(u[..i + 1]) - multiset{u[i]}
  {
    assert u[..i + 1] == u[..i] + [u[i]];
  }

  ghost predicate AllDiffer<T(!new)>(s: seq<T>) {
    forall i, j :: 0 <= i < j < |s| ==> s[i] != s[j]
  }

  lemma FirstPickSame<T(!new)>(s: seq<T>, i: nat, d: Stream, a: nat, e: Stream, b: nat)
    requires 0 < i < |s| && AllDiffer(s) && Shuffled(s, i, d, a) == Shuffled(s, i, e, b)
    ensures Pick(d(a), i) == Pick(e(b), i)
  {
    FirstPickStays(s, i, d, a);
    FirstPickStays(s, i, e, b);
  }

  lemma FirstPickStays<T>(s: seq<T>, i: nat, draws: Stream, at: nat)
    requires 0 < i < |s|
    ensures Shuffled(s, i, draws, at)[i] == s[Pick(draws(at), i)]
  {
    var t := Swapped(s, i, Pick(draws(at), i));
    ShuffleSettles(t, i - 1, draws, at + 1);
    var r := Shuffled(t, i - 1, draws, at + 1);
    assert r[i] == r[i..][0] && t[i] == t[i..][0];
  }

  /** And from only one sequence of picks. */
  lemma {:induction false} PicksUnique<T(!new)>(s: seq<T>, i: nat, d: Stream, a: nat, e: Stream, b: nat, k: nat)
    requires i < |s| && AllDiffer(s) && k < i && Shuffled(s, i, d, a) == Shuffled(s, i, e, b)
    ensures Pick(d(a + k), i - k) == Pick(e(b + k), i - k)
    decreases i
  {
    FirstPickSame(s, i, d, a, e, b);
    if k > 0 {
      var x := Pick(d(a), i);
      SwapDiffers(s, i, x);
      PicksUnique(Swapped(s, i, x), i - 1, d, a + 1, e, b + 1, k - 1);
    }
  }

  lemma SwapDiffers<T(!new)>(s: seq<T>, i: nat, j: nat)
    requires i < |s| && j < |s| && AllDiffer(s)
    ensures AllDiffer(Swapped(s, i, j))
  {
    var r := Swapped(s, i, j);
    forall p, q | 0 <= p < q < |r|
      ensures r[p] != r[q]
    {
      var a := if p == i then j else if p == j then i else p;
      var b := if q == i then j else if q == j then i else q;
      assert r[p] == s[a] && r[q] == s[b] && a != b;
    }
  }
}
