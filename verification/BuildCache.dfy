/** The key material of the build cache (`harness/buildCache.ts`), up to the framed text that is hashed. */
module BuildCache {
  import opened Options
  import opened Sorting
  import opened Texts

  const ZERO: CodeUnit := 0x30
  const NINE: CodeUnit := 0x39
  const COLON: CodeUnit := 0x3a

  // ---- Decimal lengths ------------------------------------------------------------------------

  function Digit(d: nat): (c: CodeUnit)
    requires d < 10
    ensures ZERO <= c <= NINE && c as int - ZERO as int == d
  {
    ZERO + d as CodeUnit
  }

  predicate Digits(s: Text) {
    forall i :: 0 <= i < |s| ==> ZERO <= s[i] <= NINE
  }

  function Dec(n: nat): (s: Text)
    ensures s != [] && Digits(s)
  {
    if n < 10 then [Digit(n)] else Dec(n / 10) + [Digit(n % 10)]
  }

  function Num(s: Text): nat
    requires Digits(s)
  {
    if s == [] then 0 else 10 * Num(s[..|s| - 1]) + (s[|s| - 1] as int - ZERO as int)
  }

  lemma {:induction false} NumDec(n: nat)
    ensures Num(Dec(n)) == n
  {
    if n >= 10 {
      var s := Dec(n);
      assert s[..|s| - 1] == Dec(n / 10);
      NumDec(n / 10);
    } else {
      assert Dec(n)[..0] == [];
    }
  }

  // ---- Framing --------------------------------------------------------------------------------

  /** Each part behind its own length. */
  function Framed(parts: seq<Text>): Text {
    if parts == [] then [] else Dec(|parts[0]|) + [COLON] + parts[0] + Framed(parts[1..])
  }

  /** Where the first colon is, or the length. */
  function Colon(s: Text): (k: nat)
    ensures k <= |s| && (k < |s| ==> s[k] == COLON) && forall j :: 0 <= j < k ==> s[j] != COLON
  {
    if s == [] || s[0] == COLON then 0 else 1 + Colon(s[1..])
  }

  /** Reads a framed text back. */
  function Unframed(s: Text): Option<seq<Text>>
    decreases |s|
  {
    if s == [] then Some([])
    else
      var k := Colon(s);
      if k == |s| || !Digits(s[..k]) || k + 1 + Num(s[..k]) > |s| then None
      else
        var end := k + 1 + Num(s[..k]);
        match Unframed(s[end..])
        case None => None
        case Some(rest) => Some([s[k + 1..end]] + rest)
  }

  lemma FirstPart(p: Text, rest: Text)
    ensures var s := Dec(|p|) + [COLON] + p + rest;
      var k := |Dec(|p|)|;
      Colon(s) == k < |s| && s[..k] == Dec(|p|) && s[k + 1..k + 1 + |p|] == p && s[k + 1 + |p|..] == rest
  {
    var d := Dec(|p|);
    var s := d + [COLON] + p + rest;
    assert s[|d|] == COLON;
    assert forall j :: 0 <= j < |d| ==> s[j] == d[j];
  }

  /** Whatever the parts contain, they can be read back; so no two lists are framed alike. */
  lemma {:induction false} RoundTrip(parts: seq<Text>)
    ensures Unframed(Framed(parts)) == Some(parts)
  {
    if parts != [] {
      var p := parts[0];
      FirstPart(p, Framed(parts[1..]));
      NumDec(|p|);
      RoundTrip(parts[1..]);
      assert [p] + parts[1..] == parts;
    }
  }

  lemma FramedInjective(a: seq<Text>, b: seq<Text>)
    ensures Framed(a) == Framed(b) <==> a == b
  {
    RoundTrip(a);
    RoundTrip(b);
  }

  lemma {:induction false} DecLeads(n: nat)
    ensures |Dec(n)| > 1 ==> Dec(n)[0] != ZERO
    ensures n > 0 ==> Dec(n)[0] != ZERO
  {
    if n >= 10 {
      DecLeads(n / 10);
    }
  }

  /** One part is framed by its length in decimal, without leading zeros, and a colon; and the framing of a
      list is that of its parts, one after the other. */
  lemma FramedIs(p: Text, a: seq<Text>, b: seq<Text>)
    ensures exists d: Text :: Framed([p]) == d + [0x3a] + p && Decimal(d, |p|)
    ensures Framed(a + b) == Framed(a) + Framed(b)
  {
    NumDec(|p|);
    DecLeads(|p|);
    assert [p][1..] == [];
    assert Framed([p]) == Dec(|p|) + [0x3a] + p && Decimal(Dec(|p|), |p|);
    FramedConcat(a, b);
  }

  /** d is how n is written in decimal. */
  ghost predicate Decimal(d: Text, n: nat) {
    d != [] && (forall i :: 0 <= i < |d| ==> 0x30 <= d[i] <= 0x39) && (|d| > 1 ==> d[0] != 0x30) && Num(d) == n
  }

  lemma {:induction false} FramedConcat(a: seq<Text>, b: seq<Text>)
    ensures Framed(a + b) == Framed(a) + Framed(b)
  {
    if a == [] {
      assert a + b == b;
    } else {
      assert (a + b)[1..] == a[1..] + b;
      FramedConcat(a[1..], b);
    }
  }

  // ---- Files in a fixed order -----------------------------------------------------------------

  /** A map as it iterates: path and source, in the order the paths were first inserted. */
  type Entry = (Text, Text)

  predicate EntryBefore(e: Entry, f: Entry) {
    Before(UnitLess, e.0, f.0)
  }

  lemma EntryOrder()
    ensures Strict(EntryBefore)
  {
    forall e: Entry
      ensures !EntryBefore(e, e)
    {
      NotBeforeItself(UnitLess, e.0);
    }
    forall e: Entry, f: Entry, g: Entry | EntryBefore(e, f) && EntryBefore(f, g)
      ensures EntryBefore(e, g)
    {
      BeforeTransitive(UnitLess, e.0, f.0, g.0);
    }
  }

  predicate Distinct(es: seq<Entry>) {
    forall i, j :: 0 <= i < j < |es| ==> es[i].0 != es[j].0
  }

  lemma DistinctCompare(es: seq<Entry>)
    requires Distinct(es)
    ensures Comparable(EntryBefore, es)
  {
    forall i, j | 0 <= i < j < |es|
      ensures EntryBefore(es[i], es[j]) || EntryBefore(es[j], es[i])
    {
      BeforeTotal(UnitLess, es[i].0, es[j].0);
    }
  }

  function Flat(es: seq<Entry>): seq<Text> {
    if es == [] then [] else [es[0].0, es[0].1] + Flat(es[1..])
  }

  lemma {:induction false} FlatInjective(a: seq<Entry>, b: seq<Entry>)
    requires Flat(a) == Flat(b)
    ensures a == b
  {
    if a != [] && b != [] {
      var f, g := Flat(a), Flat(b);
      assert f[0] == a[0].0 && f[1] == a[0].1 && g[0] == b[0].0 && g[1] == b[0].1;
      assert f[2..] == Flat(a[1..]) && g[2..] == Flat(b[1..]);
      FlatInjective(a[1..], b[1..]);
    }
  }

  /** The entries sorted by path, then flattened. */
  function FilesParts(files: seq<Entry>): seq<Text> {
    Flat(Sort(EntryBefore, files))
  }

  lemma {:induction false} FlatParts(es: seq<Entry>, i: nat)
    requires i < |es|
    ensures |Flat(es)| == 2 * |es| && Flat(es)[2 * i] == es[i].0 && Flat(es)[2 * i + 1] == es[i].1
  {
    if i > 0 {
      FlatParts(es[1..], i - 1);
    } else if |es| > 1 {
      FlatParts(es[1..], 0);
    } else {
      assert es[1..] == [];
    }
  }

  /** The i-th two parts are a path and its source, the paths ascend, and there is one pair for each file. */
  lemma PartsAre(files: seq<Entry>, i: nat)
    requires Distinct(files) && i < |files|
    ensures var parts := FilesParts(files);
      |parts| == 2 * |files| && (parts[2 * i], parts[2 * i + 1]) in files &&
      (i + 1 < |files| ==> Ascends(parts[2 * i], parts[2 * i + 2]))
  {
    var es := Sort(EntryBefore, files);
    EntryOrder();
    DistinctCompare(files);
    SortSorts(EntryBefore, files);
    SortLength(EntryBefore, files);
    FlatParts(es, i);
    assert (es[i].0, es[i].1) == es[i] && es[i] in es;
    if i + 1 < |files| {
      FlatParts(es, i + 1);
      assert EntryBefore(es[i], es[i + 1]);
      BeforeAscends(es[i].0, es[i + 1].0);
    }
  }

  /** What a map holds, whatever order it iterates in. */
  ghost function MapOf(files: seq<Entry>): map<Text, Text>
    requires Distinct(files)
  {
    map e | e in files :: e.0 := e.1
  }

  lemma SameMapSameEntries(a: seq<Entry>, b: seq<Entry>)
    requires Distinct(a) && Distinct(b)
    ensures MapOf(a) == MapOf(b) <==> forall x :: x in a <==> x in b
  {
    EntriesOfMap(a);
    EntriesOfMap(b);
  }

  lemma EntriesOfMap(a: seq<Entry>)
    requires Distinct(a)
    ensures forall x :: x in a <==> x.0 in MapOf(a) && MapOf(a)[x.0] == x.1
  {
  }

  /** Two maps give one framed text exactly when they hold the same sources under the same paths, in
      whatever order each was filled and whatever either contains. */
  lemma KeyMaterialFaithful(a: seq<Entry>, b: seq<Entry>)
    requires Distinct(a) && Distinct(b)
    ensures Framed(FilesParts(a)) == Framed(FilesParts(b)) <==> MapOf(a) == MapOf(b)
  {
    EntryOrder();
    DistinctCompare(a);
    DistinctCompare(b);
    SortSorts(EntryBefore, a);
    SortSorts(EntryBefore, b);
    SameMapSameEntries(a, b);
    FramedInjective(FilesParts(a), FilesParts(b));
    if FilesParts(a) == FilesParts(b) {
      FlatInjective(Sort(EntryBefore, a), Sort(EntryBefore, b));
    }
    if MapOf(a) == MapOf(b) {
      SortedUnique(EntryBefore, Sort(EntryBefore, a), Sort(EntryBefore, b));
    }
  }
}
