/** `applyEdits` (`tools/mutate/types.ts`): edits spliced into each file from right to left, against
    substituting them all at once at the offsets they were written for. */
module Edits {
  import opened Texts
  import opened Grouping

  datatype Edit = Edit(file: Text, start: int, end: int, replacement: Text)

  datatype Result<+T> = Ok(value: T) | NoSource(file: Text)

  // ---- Splicing -------------------------------------------------------------------------------

  /** Where `slice` cuts a text of length n: a negative offset counts from the end, and both ends clamp. */
  function Cut(n: nat, k: int): (c: nat)
    ensures c <= n && (0 <= k <= n ==> c == k)
  {
    if k < 0 then (if n + k < 0 then 0 else n + k) else if k > n then n else k
  }

  function Apply(text: Text, e: Edit): Text {
    text[..Cut(|text|, e.start)] + e.replacement + text[Cut(|text|, e.end)..]
  }

  function Splice(text: Text, es: seq<Edit>): Text
    decreases |es|
  {
    if es == [] then text else Splice(Apply(text, es[0]), es[1..])
  }

  function Insert(e: Edit, es: seq<Edit>): seq<Edit> {
    if es == [] || es[0].start <= e.start then [e] + es else [es[0]] + Insert(e, es[1..])
  }

  /** By descending start; edits that start together keep the order they were listed in. */
  function Sort(es: seq<Edit>): seq<Edit> {
    if es == [] then [] else Insert(es[0], Sort(es[1..]))
  }

  function Patched(text: Text, es: seq<Edit>): Text {
    Splice(text, Sort(es))
  }

  predicate Descending(es: seq<Edit>) {
    forall i, j :: 0 <= i < j < |es| ==> es[i].start >= es[j].start
  }

  function Starting(es: seq<Edit>, g: int): seq<Edit> {
    if es == [] then []
    else (if es[0].start == g then [es[0]] else []) + Starting(es[1..], g)
  }

  lemma {:induction false} InsertSorts(e: Edit, es: seq<Edit>)
    requires Descending(es)
    ensures Descending(Insert(e, es)) && forall x :: x in Insert(e, es) <==> x == e || x in es
  {
    if es != [] && es[0].start > e.start {
      var tail := Insert(e, es[1..]);
      InsertSorts(e, es[1..]);
      assert es == [es[0]] + es[1..];
      assert forall x :: x in tail ==> es[0].start >= x.start;
    }
  }

  lemma {:induction false} InsertStable(e: Edit, es: seq<Edit>, g: int)
    requires Descending(es)
    ensures Starting(Insert(e, es), g) == (if e.start == g then [e] else []) + Starting(es, g)
  {
    if es == [] || es[0].start <= e.start {
      StartingCons(e, es, g);
    } else {
      var tail := Insert(e, es[1..]);
      InsertStable(e, es[1..], g);
      StartingCons(es[0], tail, g);
      if es[0].start == g {
        assert Starting(tail, g) == Starting(es[1..], g);
      } else {
        assert Starting(es, g) == Starting(es[1..], g);
      }
    }
  }

  lemma StartingCons(e: Edit, es: seq<Edit>, g: int)
    ensures Starting([e] + es, g) == (if e.start == g then [e] else []) + Starting(es, g)
  {
    assert ([e] + es)[1..] == es;
  }

  /** Sorting is a stable rearrangement: sorted, the same edits, and each offset's edits in their order. */
  lemma {:induction false} SortKeeps(es: seq<Edit>, g: int)
    ensures Descending(Sort(es)) && (forall x :: x in Sort(es) <==> x in es) && |Sort(es)| == |es|
    ensures Starting(Sort(es), g) == Starting(es, g)
  {
    if es != [] {
      SortKeeps(es[1..], g);
      InsertSorts(es[0], Sort(es[1..]));
      InsertStable(es[0], Sort(es[1..]), g);
      InsertLength(es[0], Sort(es[1..]));
      assert es == [es[0]] + es[1..];
    }
  }

  lemma {:induction false} InsertLength(e: Edit, es: seq<Edit>)
    ensures |Insert(e, es)| == |es| + 1
  {
    if es != [] && es[0].start > e.start {
      InsertLength(e, es[1..]);
    }
  }

  // ---- Substituting at once -------------------------------------------------------------------

  /** What is inserted at an offset: of several insertions there, the last listed comes first. */
  function Inserted(at: seq<Edit>): Text {
    if at == [] then []
    else Inserted(at[1..]) + if at[0].end <= at[0].start then at[0].replacement else []
  }

  /** What stands for the stretches replaced from an offset on. */
  function Replaced(at: seq<Edit>): Text {
    if at == [] then []
    else (if at[0].end <= at[0].start then [] else at[0].replacement) + Replaced(at[1..])
  }

  predicate Covered(es: seq<Edit>, g: int) {
    exists i :: 0 <= i < |es| && es[i].start <= g < es[i].end
  }

  /** What the edits that start at an offset put there. */
  function Here(es: seq<Edit>, g: int): Text {
    Inserted(Starting(es, g)) + Replaced(Starting(es, g))
  }

  /** What offset g turns into: what is put there, and its own character unless an edit replaces it. */
  function Bit(text: Text, es: seq<Edit>, g: nat): Text
    requires g <= |text|
  {
    Here(es, g) + if g == |text| || Covered(es, g) then [] else [text[g]]
  }

  function Bits(text: Text, es: seq<Edit>): (bits: seq<Text>)
    ensures |bits| == |text| + 1 && forall g :: 0 <= g <= |text| ==> bits[g] == Bit(text, es, g)
  {
    seq(|text| + 1, g requires 0 <= g <= |text| => Bit(text, es, g))
  }

  function Concat(parts: seq<Text>): Text {
    if parts == [] then [] else parts[0] + Concat(parts[1..])
  }

  /** The text with every edit made at the offsets of the original. */
  function Substituted(text: Text, es: seq<Edit>): Text {
    Concat(Bits(text, es))
  }

  predicate InRange(es: seq<Edit>, n: nat) {
    forall i :: 0 <= i < |es| ==> 0 <= es[i].start <= es[i].end <= n
  }

  predicate Apart(a: Edit, b: Edit) {
    a.end <= b.start || b.end <= a.start
  }

  predicate Disjoint(es: seq<Edit>) {
    forall i, j :: 0 <= i < j < |es| ==> Apart(es[i], es[j])
  }

  /** No insertion is listed before an edit that replaces text from the same offset. */
  predicate InsertionsLast(es: seq<Edit>) {
    forall i, j :: 0 <= i < j < |es| && es[i].start == es[j].start && es[i].end == es[i].start ==>
      es[j].end == es[j].start
  }

  lemma {:induction false} StartingNone(es: seq<Edit>, g: int)
    requires forall i :: 0 <= i < |es| ==> es[i].start != g
    ensures Starting(es, g) == []
  {
    if es != [] {
      StartingNone(es[1..], g);
    }
  }

  lemma HereNone(es: seq<Edit>, g: int)
    requires forall i :: 0 <= i < |es| ==> es[i].start > g
    ensures Here(es, g) == [] && !Covered(es, g)
  {
    StartingNone(es, g);
  }

  lemma {:induction false} StartingSnoc(es: seq<Edit>, e: Edit, g: int)
    ensures Starting(es + [e], g) == Starting(es, g) + if e.start == g then [e] else []
  {
    if es == [] {
      assert es + [e] == [e] && [e][1..] == [];
    } else {
      StartingSnoc(es[1..], e, g);
      assert es + [e] == [es[0]] + (es[1..] + [e]);
      StartingCons(es[0], es[1..] + [e], g);
    }
  }

  lemma {:induction false} InsertedSnoc(at: seq<Edit>, e: Edit)
    ensures Inserted(at + [e]) == (if e.end <= e.start then e.replacement else []) + Inserted(at)
  {
    if at == [] {
      assert at + [e] == [e] && [e][1..] == [];
    } else {
      assert (at + [e])[1..] == at[1..] + [e];
      InsertedSnoc(at[1..], e);
    }
  }

  lemma {:induction false} ReplacedSnoc(at: seq<Edit>, e: Edit)
    ensures Replaced(at + [e]) == Replaced(at) + if e.end <= e.start then [] else e.replacement
  {
    if at == [] {
      assert at + [e] == [e] && [e][1..] == [];
    } else {
      assert (at + [e])[1..] == at[1..] + [e];
      ReplacedSnoc(at[1..], e);
    }
  }

  /** One more edit: an insertion goes in front of what is at its offset, a replacement behind. */
  lemma HereSnoc(es: seq<Edit>, e: Edit, g: int)
    ensures Here(es + [e], g) ==
      if e.start != g then Here(es, g) else if e.end <= g then e.replacement + Here(es, g)
        else Here(es, g) + e.replacement
  {
    StartingSnoc(es, e, g);
    if e.start == g {
      InsertedSnoc(Starting(es, g), e);
      ReplacedSnoc(Starting(es, g), e);
    } else {
      assert Starting(es + [e], g) == Starting(es, g);
    }
  }

  lemma CoveredSnoc(es: seq<Edit>, e: Edit, g: int)
    ensures Covered(es + [e], g) <==> Covered(es, g) || e.start <= g < e.end
  {
    var all := es + [e];
    if Covered(es, g) {
      var i :| 0 <= i < |es| && es[i].start <= g < es[i].end;
      assert all[i] == es[i];
    }
    assert all[|es|] == e;
  }

  // ---- Pieces of text -------------------------------------------------------------------------

  lemma {:induction false} ConcatSplit(parts: seq<Text>, k: nat)
    requires k <= |parts|
    ensures Concat(parts) == Concat(parts[..k]) + Concat(parts[k..])
  {
    if k == 0 {
      assert parts[..k] == [] && parts[k..] == parts;
    } else {
      ConcatSplit(parts[1..], k - 1);
      assert parts[1..][..k - 1] == parts[..k][1..] && parts[1..][k - 1..] == parts[k..];
      Grouped(parts[0], Concat(parts[1..][..k - 1]), Concat(parts[k..]));
    }
  }

  lemma Grouped(a: Text, b: Text, c: Text)
    ensures a + b + c == a + (b + c)
  {
  }

  lemma {:induction false} ConcatNothing(parts: seq<Text>)
    requires forall i :: 0 <= i < |parts| ==> parts[i] == []
    ensures Concat(parts) == []
  {
    if parts != [] {
      ConcatNothing(parts[1..]);
    }
  }

  lemma {:induction false} ConcatChars(parts: seq<Text>, text: Text)
    requires |parts| == |text| && forall i :: 0 <= i < |parts| ==> parts[i] == [text[i]]
    ensures Concat(parts) == text
  {
    if parts != [] {
      ConcatChars(parts[1..], text[1..]);
      assert text == [text[0]] + text[1..];
    }
  }

  /** A front that is copied character by character. */
  lemma CopiedFront(parts: seq<Text>, text: Text, k: nat)
    requires k <= |text| && k <= |parts| && forall i :: 0 <= i < k ==> parts[i] == [text[i]]
    ensures Concat(parts) == text[..k] + Concat(parts[k..])
  {
    ConcatSplit(parts, k);
    ConcatChars(parts[..k], text[..k]);
  }

  /** A replaced stretch: the replacement at its start, and nothing up to its end. */
  lemma ReplacedStretch(parts: seq<Text>, r: Text, n: nat)
    requires 0 < n <= |parts| && parts[0] == r && forall i :: 0 < i < n ==> parts[i] == []
    ensures Concat(parts) == r + Concat(parts[n..])
  {
    ConcatSplit(parts[1..], n - 1);
    ConcatNothing(parts[1..][..n - 1]);
    assert parts[1..][n - 1..] == parts[n..];
  }

  // ---- One splice -----------------------------------------------------------------------------

  /** One more edit, to the left of the others, changes the pieces where it is and nowhere else. */
  lemma BitsSnoc(text: Text, es: seq<Edit>, e: Edit, g: nat)
    requires 0 <= e.start <= e.end <= |text| && g <= |text| && forall i :: 0 <= i < |es| ==> es[i].start >= e.end
    ensures g < e.end ==> Bit(text, es, g) == [text[g]]
    ensures Bit(text, es + [e], g) == Spliced(e, g, Bit(text, es, g))
  {
    HereSnoc(es, e, g);
    CoveredSnoc(es, e, g);
    if g < e.end {
      HereNone(es, g);
    } else if g == e.start {
      Grouped(e.replacement, Here(es, g), if g == |text| || Covered(es, g) then [] else [text[g]]);
    }
  }

  /** The piece at g after the edit, given the piece before. */
  function Spliced(e: Edit, g: nat, was: Text): Text {
    if g < e.start || g > e.end then was
    else if e.start == e.end then e.replacement + was
    else if g == e.start then e.replacement else if g < e.end then [] else was
  }

  /** One splice to the left of everything done so far. */
  lemma OneMore(text: Text, es: seq<Edit>, e: Edit)
    requires 0 <= e.start <= e.end <= |text| && forall i :: 0 <= i < |es| ==> es[i].start >= e.end
    ensures Apply(Substituted(text, es), e) == Substituted(text, es + [e])
  {
    var was, now := Bits(text, es), Bits(text, es + [e]);
    forall g | 0 <= g <= |text|
      ensures g < e.end ==> was[g] == [text[g]]
      ensures now[g] == Spliced(e, g, was[g])
    {
      BitsSnoc(text, es, e, g);
    }
    CopiedFront(was, text, e.end);
    CopiedFront(now, text, e.start);
    SplicedBits(was, now, e);
    Cuts(text, Concat(was[e.end..]), Concat(was), e);
  }

  lemma SplicedBits(was: seq<Text>, now: seq<Text>, e: Edit)
    requires 0 <= e.start <= e.end < |was| == |now|
    requires forall g :: 0 <= g < |now| ==> now[g] == Spliced(e, g, was[g])
    ensures Concat(now[e.start..]) == e.replacement + Concat(was[e.end..])
  {
    var rest := was[e.end..];
    if e.start < e.end {
      var here, n := now[e.start..], e.end - e.start;
      assert here[0] == Spliced(e, e.start, was[e.start]);
      assert forall i :: 0 < i < n ==> here[i] == Spliced(e, e.start + i, was[e.start + i]);
      ReplacedStretch(here, e.replacement, n);
      assert here[n..] == rest;
    } else {
      assert now[e.start..][0] == e.replacement + rest[0];
      assert now[e.start..][1..] == rest[1..];
      Grouped(e.replacement, rest[0], Concat(rest[1..]));
    }
  }

  lemma Cuts(text: Text, rest: Text, now: Text, e: Edit)
    requires 0 <= e.start <= e.end <= |text| && now == text[..e.end] + rest
    ensures Apply(now, e) == text[..e.start] + (e.replacement + rest)
  {
    assert now[..e.start] == text[..e.start];
    assert now[e.end..] == rest;
  }

  /** In a sorted list without the bad tie, everything before an edit starts at or after its end. */
  lemma DoneIsRight(all: seq<Edit>, n: nat)
    requires n < |all| && Disjoint(all) && Descending(all) && InsertionsLast(all)
    requires forall i :: 0 <= i < |all| ==> all[i].start <= all[i].end
    ensures forall i :: 0 <= i < n ==> all[i].start >= all[n].end
  {
    forall i | 0 <= i < n
      ensures all[i].start >= all[n].end
    {
      assert Apart(all[i], all[n]);
    }
  }

  lemma {:induction false} SpliceFrom(text: Text, all: seq<Edit>, n: nat)
    requires n <= |all| && InRange(all, |text|) && Disjoint(all) && Descending(all) && InsertionsLast(all)
    ensures Splice(Substituted(text, all[..n]), all[n..]) == Substituted(text, all)
    decreases |all| - n
  {
    if n == |all| {
      assert all[..n] == all;
    } else {
      DoneIsRight(all, n);
      OneMore(text, all[..n], all[n]);
      assert all[..n] + [all[n]] == all[..n + 1];
      assert all[n..][1..] == all[n + 1..];
      SpliceFrom(text, all, n + 1);
    }
  }

  lemma CoveredMore(a: seq<Edit>, b: seq<Edit>, g: int)
    requires forall x :: x in a ==> x in b
    ensures Covered(a, g) ==> Covered(b, g)
  {
    if Covered(a, g) {
      var i :| 0 <= i < |a| && a[i].start <= g < a[i].end;
      assert a[i] in b;
    }
  }

  lemma NothingDone(text: Text)
    ensures Substituted(text, []) == text
  {
    var bits := Bits(text, []);
    forall g | 0 <= g <= |text|
      ensures bits[g] == if g == |text| then [] else [text[g]]
    {
      HereNone([], g);
    }
    CopiedFront(bits, text, |text|);
    assert bits[|text|..] == [[]];
  }

  /** Substituting does not depend on how edits at different offsets are ordered. */
  lemma SortSubstitutesAlike(text: Text, es: seq<Edit>)
    ensures Substituted(text, Sort(es)) == Substituted(text, es)
  {
    forall g | 0 <= g <= |text|
      ensures Bit(text, Sort(es), g) == Bit(text, es, g)
    {
      SortKeeps(es, g);
      CoveredMore(es, Sort(es), g);
      CoveredMore(Sort(es), es, g);
    }
    assert Bits(text, Sort(es)) == Bits(text, es);
  }

  // ---- Sorting keeps what matters -------------------------------------------------------------

  lemma {:induction false} InsertDisjoint(e: Edit, es: seq<Edit>)
    requires Disjoint(es) && (forall x :: x in es ==> Apart(e, x)) && Descending(es)
    ensures Disjoint(Insert(e, es))
  {
    if es != [] && es[0].start > e.start {
      var tail := Insert(e, es[1..]);
      InsertDisjoint(e, es[1..]);
      InsertSorts(e, es[1..]);
      forall x | x in tail
        ensures Apart(es[0], x)
      {
        if x == e {
          assert Apart(e, es[0]);
        } else {
          var k :| 0 <= k < |es[1..]| && es[1..][k] == x;
          assert Apart(es[0], es[k + 1]);
        }
      }
    }
  }

  lemma {:induction false} InsertTies(e: Edit, es: seq<Edit>)
    requires Descending(es) && InsertionsLast(es)
    requires forall x :: x in es && x.start == e.start && e.end == e.start ==> x.end == x.start
    ensures InsertionsLast(Insert(e, es))
  {
    if es != [] && es[0].start > e.start {
      var tail := Insert(e, es[1..]);
      InsertTies(e, es[1..]);
      InsertSorts(e, es[1..]);
      forall x | x in tail && x.start == es[0].start && es[0].end == es[0].start
        ensures x.end == x.start
      {
        assert x in es[1..];
      }
    }
  }

  lemma {:induction false} SortDisjoint(es: seq<Edit>)
    requires Disjoint(es) && InsertionsLast(es)
    ensures Disjoint(Sort(es)) && InsertionsLast(Sort(es))
  {
    if es != [] {
      SortDisjoint(es[1..]);
      SortKeeps(es[1..], 0);
      InsertDisjoint(es[0], Sort(es[1..]));
      InsertTies(es[0], Sort(es[1..]));
    }
  }

  /** Right-to-left splicing is substituting all the edits at once, however they are listed, as long as
      no insertion is listed before a replacement that starts where it does. */
  lemma PatchedIsSubstituted(text: Text, es: seq<Edit>)
    requires InRange(es, |text|) && Disjoint(es) && InsertionsLast(es)
    ensures Patched(text, es) == Substituted(text, es)
  {
    var all := Sort(es);
    SortKeeps(es, 0);
    SortDisjoint(es);
    assert InRange(all, |text|) by {
      assert forall i :: 0 <= i < |all| ==> all[i] in es;
    }
    NothingDone(text);
    assert all[..0] == [] && all[0..] == all;
    SpliceFrom(text, all, 0);
    SortSubstitutesAlike(text, es);
  }

  // ---- The tie that goes wrong ----------------------------------------------------------------

  predicate Precedes(es: seq<Edit>, a: Edit, b: Edit) {
    exists k :: 0 <= k < |es| && es[k] == a && b in es[k + 1..]
  }

  lemma PrecedesCons(e: Edit, es: seq<Edit>, a: Edit, b: Edit)
    requires Precedes(es, a, b) || (e == a && b in es)
    ensures Precedes([e] + es, a, b)
  {
    var all := [e] + es;
    if e == a && b in es {
      assert all[0] == a && all[1..] == es;
    } else {
      var k :| 0 <= k < |es| && es[k] == a && b in es[k + 1..];
      assert all[k + 1] == a && all[k + 2..] == es[k + 1..];
    }
  }

  lemma PrecedesTail(es: seq<Edit>, a: Edit, b: Edit)
    requires Precedes(es, a, b)
    ensures (es[0] == a && b in es[1..]) || Precedes(es[1..], a, b)
  {
    var k :| 0 <= k < |es| && es[k] == a && b in es[k + 1..];
    if k > 0 {
      assert es[1..][k - 1] == a && es[1..][k..] == es[k + 1..];
    }
  }

  lemma {:induction false} InsertPrecedes(e: Edit, es: seq<Edit>, a: Edit, b: Edit)
    requires Descending(es) && (Precedes(es, a, b) || (e == a && b in es && b.start <= a.start))
    ensures Precedes(Insert(e, es), a, b)
  {
    if es == [] || es[0].start <= e.start {
      PrecedesCons(e, es, a, b);
    } else {
      InsertSorts(e, es[1..]);
      if Precedes(es, a, b) {
        PrecedesTail(es, a, b);
      }
      if !(es[0] == a && b in es[1..]) {
        InsertPrecedes(e, es[1..], a, b);
      }
      PrecedesCons(es[0], Insert(e, es[1..]), a, b);
    }
  }

  lemma {:induction false} InsertCounts(e: Edit, es: seq<Edit>)
    ensures multiset(Insert(e, es)) == multiset{e} + multiset(es)
  {
    if es != [] && es[0].start > e.start {
      InsertCounts(e, es[1..]);
      assert es == [es[0]] + es[1..];
    }
  }

  lemma {:induction false} SortCounts(es: seq<Edit>)
    ensures multiset(Sort(es)) == multiset(es)
  {
    if es != [] {
      SortCounts(es[1..]);
      InsertCounts(es[0], Sort(es[1..]));
      assert es == [es[0]] + es[1..];
    }
  }

  /** Sorting keeps the order of two edits that start together. */
  lemma {:induction false} SortPrecedes(es: seq<Edit>, i: nat, j: nat)
    requires i < j < |es| && es[i].start == es[j].start
    ensures Precedes(Sort(es), es[i], es[j])
  {
    SortKeeps(es[1..], 0);
    assert es[1..][j - 1] == es[j];
    if i > 0 {
      SortPrecedes(es[1..], i - 1, j - 1);
    }
    InsertPrecedes(es[0], Sort(es[1..]), es[i], es[j]);
  }

  lemma {:induction false} NeverAgain(text: Text, es: seq<Edit>, c: CodeUnit)
    requires c !in text && forall e :: e in es ==> e.replacement == []
    ensures c !in Splice(text, es)
    decreases |es|
  {
    if es != [] {
      NeverAgain(Apply(text, es[0]), es[1..], c);
    }
  }

  /** The replacement that follows removes the inserted character instead of the text it was written for. */
  lemma {:induction false} Removed(text: Text, es: seq<Edit>, c: CodeUnit, r: Edit)
    requires 0 <= r.start < r.end && r in es && Descending(es)
    requires forall e :: e in es ==>
      e.replacement == [] && e.start <= r.start && (e.start == r.start ==> e.end >= e.start)
    requires forall k :: 0 <= k < |text| && text[k] == c ==> k == r.start
    ensures c !in Splice(text, es)
    decreases |es|
  {
    var e := es[0];
    assert e.start == r.start;
    var now := Apply(text, e);
    if e.end > e.start {
      assert c !in now;
      NeverAgain(now, es[1..], c);
    } else {
      assert now == text;
      Removed(text, es[1..], c, r);
    }
  }

  /** So an insertion sorted before it is lost. */
  lemma {:induction false} Lost(text: Text, es: seq<Edit>, c: CodeUnit, k: nat, r: Edit)
    requires k < |es| && 0 <= es[k].start == es[k].end == r.start < r.end && es[k].replacement == [c] &&
      r in es[k + 1..]
    requires Descending(es)
    requires forall i :: 0 <= i < |es| ==> 0 <= es[i].start <= es[i].end && (i == k || es[i].replacement == [])
    requires c !in text && |text| >= es[k].start
    ensures c !in Splice(text, es)
    decreases |es|
  {
    if k == 0 {
      InsertsOne(text, es[0], c);
      Removed(Apply(text, es[0]), es[1..], c, r);
    } else {
      StaysLong(text, es[0], es[k].start, c);
      assert es[1..][k - 1] == es[k] && es[1..][k..] == es[k + 1..];
      Lost(Apply(text, es[0]), es[1..], c, k - 1, r);
    }
  }

  lemma OnlyOne(es: seq<Edit>, k: nat, i: nat)
    requires k < |es| && i < |es| && i != k && multiset(es)[es[k]] == 1
    ensures es[i] != es[k]
  {
    var lo, hi := if i < k then i else k, if i < k then k else i;
    assert es == es[..lo] + [es[lo]] + es[lo + 1..hi] + [es[hi]] + es[hi + 1..];
  }

  lemma InsertsOne(text: Text, ins: Edit, c: CodeUnit)
    requires 0 <= ins.start == ins.end <= |text| && ins.replacement == [c] && c !in text
    ensures forall k :: 0 <= k < |Apply(text, ins)| && Apply(text, ins)[k] == c ==> k == ins.start
  {
  }

  lemma StaysLong(text: Text, e: Edit, s: nat, c: CodeUnit)
    requires s <= e.start <= e.end && e.replacement == [] && |text| >= s && c !in text
    ensures |Apply(text, e)| >= s && c !in Apply(text, e)
  {
  }

  // ---- Exactly when ---------------------------------------------------------------------------

  /** The same stretches, listed in the same order, with other replacements. */
  predicate SameSpans(a: seq<Edit>, b: seq<Edit>) {
    |a| == |b| && forall i :: 0 <= i < |a| ==> a[i].start == b[i].start && a[i].end == b[i].end
  }

  /** All the edits of `es` made deletions, but for one insertion of `c`. */
  function Marked(es: seq<Edit>, i: nat, c: CodeUnit): (fs: seq<Edit>)
    ensures |fs| == |es| && forall k :: 0 <= k < |fs| ==> fs[k] == es[k].(replacement := if k == i then [c] else [])
  {
    seq(|es|, k requires 0 <= k < |es| => es[k].(replacement := if k == i then [c] else []))
  }

  lemma {:induction false} MarkedOnce(fs: seq<Edit>, i: nat)
    requires i < |fs| && forall k :: 0 <= k < |fs| && k != i ==> fs[k] != fs[i]
    ensures multiset(fs)[fs[i]] == 1
  {
    assert fs == fs[..i] + [fs[i]] + fs[i + 1..];
    assert fs[i] !in fs[..i] && fs[i] !in fs[i + 1..];
  }

  lemma {:induction false} StartingHas(es: seq<Edit>, i: nat)
    requires i < |es|
    ensures es[i] in Starting(es, es[i].start)
  {
    if i > 0 {
      StartingHas(es[1..], i - 1);
    }
  }

  lemma {:induction false} InsertedHas(at: seq<Edit>, e: Edit, c: CodeUnit)
    requires e in at && e.end <= e.start && c in e.replacement
    ensures c in Inserted(at)
  {
    if at[0] != e {
      InsertedHas(at[1..], e, c);
    }
  }

  lemma {:induction false} ConcatHas(parts: seq<Text>, k: nat, c: CodeUnit)
    requires k < |parts| && c in parts[k]
    ensures c in Concat(parts)
  {
    if k > 0 {
      ConcatHas(parts[1..], k - 1, c);
    }
  }

  /** What is inserted shows in the substituted text. */
  lemma Shows(text: Text, fs: seq<Edit>, i: nat, c: CodeUnit)
    requires i < |fs| && 0 <= fs[i].start == fs[i].end <= |text| && c in fs[i].replacement
    ensures c in Substituted(text, fs)
  {
    var s := fs[i].start;
    StartingHas(fs, i);
    InsertedHas(Starting(fs, s), fs[i], c);
    assert c in Here(fs, s);
    ConcatHas(Bits(text, fs), s, c);
  }

  /** The marked insertion is lost when a replacement from its offset is listed after it. */
  lemma MarkLost(text: Text, fs: seq<Edit>, i: nat, j: nat, c: CodeUnit)
    requires InRange(fs, |text|) && i < j < |fs| && fs[i].start == fs[i].end == fs[j].start < fs[j].end
    requires c !in text && forall k :: 0 <= k < |fs| ==> fs[k].replacement == if k == i then [c] else []
    ensures c !in Patched(text, fs)
  {
    var all := Sort(fs);
    MarkedOnce(fs, i);
    SortKeeps(fs, 0);
    SortCounts(fs);
    SortPrecedes(fs, i, j);
    var k :| 0 <= k < |all| && all[k] == fs[i] && fs[j] in all[k + 1..];
    OneMark(fs, all, i, k);
    assert all[k].start == fs[j].start && all[k].replacement == [c];
    Lost(text, all, c, k, fs[j]);
  }

  lemma OneMark(fs: seq<Edit>, all: seq<Edit>, i: nat, k: nat)
    requires i < |fs| && k < |all| && all[k] == fs[i] && multiset(all)[fs[i]] == 1 && forall x :: x in all <==> x in fs
    requires forall n :: 0 <= n < |fs| ==> 0 <= fs[n].start <= fs[n].end && (n != i ==> fs[n].replacement == [])
    ensures forall m :: 0 <= m < |all| ==> 0 <= all[m].start <= all[m].end && (m == k || all[m].replacement == [])
  {
    forall m | 0 <= m < |all|
      ensures 0 <= all[m].start <= all[m].end && (m == k || all[m].replacement == [])
    {
      UnmarkedElsewhere(fs, all, i, k, m);
    }
  }

  lemma UnmarkedElsewhere(fs: seq<Edit>, all: seq<Edit>, i: nat, k: nat, m: nat)
    requires i < |fs| && k < |all| && m < |all| && all[k] == fs[i] && all[m] in fs && multiset(all)[fs[i]] == 1
    requires forall n :: 0 <= n < |fs| ==> 0 <= fs[n].start <= fs[n].end && (n != i ==> fs[n].replacement == [])
    ensures 0 <= all[m].start <= all[m].end && (m == k || all[m].replacement == [])
  {
    if m != k {
      OnlyOne(all, k, m);
    }
  }

  /** An insertion listed before a replacement from the same offset: some texts come out wrong. */
  lemma TieGoesWrong(n: nat, es: seq<Edit>, i: nat, j: nat) returns (text: Text, fs: seq<Edit>)
    requires InRange(es, n) && i < j < |es| && es[i].start == es[i].end == es[j].start < es[j].end
    ensures |text| == n && SameSpans(fs, es) && Patched(text, fs) != Substituted(text, fs)
  {
    text, fs := seq(n, _ => 0), Marked(es, i, 1);
    Shows(text, fs, i, 1);
    MarkLost(text, fs, i, j, 1);
  }

  /** Splicing right to left substitutes correctly, for every text and all replacements, exactly when no
      insertion is listed before a replacement that starts at the same offset. */
  lemma SplicingSubstitutesIff(n: nat, es: seq<Edit>)
    requires InRange(es, n) && Disjoint(es)
    ensures InsertionsLast(es) <==>
      forall text, fs :: |text| == n && SameSpans(fs, es) ==> Patched(text, fs) == Substituted(text, fs)
  {
    if InsertionsLast(es) {
      forall text, fs | |text| == n && SameSpans(fs, es)
        ensures Patched(text, fs) == Substituted(text, fs)
      {
        SpansCarry(es, fs, n);
        PatchedIsSubstituted(text, fs);
      }
    } else {
      var i, j :| 0 <= i < j < |es| && es[i].start == es[j].start && es[i].end == es[i].start &&
        es[j].end != es[j].start;
      var text, fs := TieGoesWrong(n, es, i, j);
    }
  }

  lemma SpansCarry(es: seq<Edit>, fs: seq<Edit>, n: nat)
    requires SameSpans(fs, es) && InRange(es, n) && Disjoint(es) && InsertionsLast(es)
    ensures InRange(fs, n) && Disjoint(fs) && InsertionsLast(fs)
  {
    forall i, j | 0 <= i < j < |fs|
      ensures Apart(fs[i], fs[j])
    {
      assert Apart(es[i], es[j]);
    }
  }

  // ---- Files ----------------------------------------------------------------------------------

  function FileOf(e: Edit): Text {
    e.file
  }

  /** One file's edits, in the order they were listed. */
  function EditsOf(es: seq<Edit>, file: Text): seq<Edit> {
    GroupOf(FileOf, es, file)
  }

  /** The files a list of edits touches, in the order they first appear. */
  function Files(es: seq<Edit>): seq<Text> {
    Seen(FileOf, es)
  }

  /** The first edit whose file has no source is for this file. */
  ghost predicate FirstMissing(sources: map<Text, Text>, es: seq<Edit>, file: Text) {
    file !in sources && exists i :: 0 <= i < |es| && es[i].file == file && forall m :: 0 <= m < i ==>
      es[m].file in sources
  }

  /** The inner loop. */
  method SpliceAll(source: Text, sorted: seq<Edit>) returns (text: Text)
    ensures text == Splice(source, sorted)
  {
    text := source;
    for i := 0 to |sorted|
      invariant Splice(text, sorted[i..]) == Splice(source, sorted)
    {
      assert sorted[i..][0] == sorted[i] && sorted[i..][1..] == sorted[i + 1..];
      text := Apply(text, sorted[i]);
    }
  }

  /** The first k files of the order are patched and no other file is changed. */
  ghost predicate PatchedSoFar(sources: map<Text, Text>, edits: seq<Edit>, order: seq<Text>, k: nat,
                               out: map<Text, Text>)
    requires k <= |order|
  {
    out.Keys == sources.Keys &&
    (forall m :: 0 <= m < k ==>
      order[m] in sources && out[order[m]] == Patched(sources[order[m]], EditsOf(edits, order[m]))) &&
    (forall f :: f in sources && f !in order[..k] ==> out[f] == sources[f])
  }

  lemma OneFileMore(sources: map<Text, Text>, edits: seq<Edit>, order: seq<Text>, k: nat, out: map<Text, Text>)
    requires k < |order| && PatchedSoFar(sources, edits, order, k, out) && order[k] in sources
    requires Distinct(order)
    ensures order[k] in out && out[order[k]] == sources[order[k]]
    ensures PatchedSoFar(sources, edits, order, k + 1,
      out[order[k] := Patched(sources[order[k]], EditsOf(edits, order[k]))])
  {
    assert order[k] !in order[..k];
    assert order[..k + 1] == order[..k] + [order[k]];
  }

  lemma AllPatched(sources: map<Text, Text>, edits: seq<Edit>, out: map<Text, Text>)
    requires PatchedSoFar(sources, edits, Files(edits), |Files(edits)|, out)
    ensures (forall i :: 0 <= i < |edits| ==> edits[i].file in sources) && out.Keys == sources.Keys
    ensures forall f :: f in sources ==> out[f] == Patched(sources[f], EditsOf(edits, f))
  {
    var order := Files(edits);
    assert order[..|order|] == order;
    SeenAll(FileOf, edits);
    forall i | 0 <= i < |edits|
      ensures edits[i].file in sources
    {
      assert edits[i] in edits && FileOf(edits[i]) in order;
      var m :| 0 <= m < |order| && order[m] == edits[i].file;
    }
    forall f | f in sources
      ensures out[f] == Patched(sources[f], EditsOf(edits, f))
    {
      SeenIffGrouped(FileOf, edits, f);
      if f in order {
        var m :| 0 <= m < |order| && order[m] == f;
      }
    }
  }

  lemma MissingFirst(sources: map<Text, Text>, edits: seq<Edit>, k: nat, out: map<Text, Text>)
    requires k < |Files(edits)| && PatchedSoFar(sources, edits, Files(edits), k, out) && Files(edits)[k] !in out
    ensures FirstMissing(sources, edits, Files(edits)[k])
  {
    FirstAppears(FileOf, edits, k);
  }

  /** Every touched file has its own edits spliced in and every other file is as it was; if a touched
      file has no source, the first such file is reported and nothing is returned. */
  method ApplyEdits(sources: map<Text, Text>, edits: seq<Edit>) returns (r: Result<map<Text, Text>>)
    ensures r.Ok? <==> forall i :: 0 <= i < |edits| ==> edits[i].file in sources
    ensures r.Ok? ==> r.value.Keys == sources.Keys && forall f :: f in sources ==>
      r.value[f] == Patched(sources[f], EditsOf(edits, f))
    ensures r.NoSource? ==> FirstMissing(sources, edits, r.file)
  {
    var out := sources;
    var order, byFile := Group(FileOf, edits);
    SeenAll(FileOf, edits);
    for k := 0 to |order|
      invariant PatchedSoFar(sources, edits, order, k, out)
    {
      var file := order[k];
      if file !in out {
        MissingFirst(sources, edits, k, out);
        return NoSource(file);
      }
      OneFileMore(sources, edits, order, k, out);
      var text := SpliceAll(out[file], Sort(byFile[file]));
      out := out[file := text];
    }
    AllPatched(sources, edits, out);
    return Ok(out);
  }
}
