/** `sampleMutants` (`tools/mutate/sample.ts`): mutants grouped by file, each group shuffled, then one per
    file per round until there are enough. The generator is any stream of numbers in [0, 1). */
module Sample {
  import opened Texts
  import opened Shuffle
  import opened Grouping
  import opened Sorting
  import Edits

  datatype Mutant = Mutant(name: Text, edits: seq<Edits.Edit>)

  /** A count as the caller gives it: any number, or none at all. */
  datatype Number = NotFinite | Finite(value: real)

  function FileOf(m: Mutant): Text {
    if m.edits == [] then [] else m.edits[0].file
  }

  // ---- Grouping -------------------------------------------------------------------------------

  predicate KeyBefore(a: Text, b: Text) {
    Before(UnitLess, a, b)
  }

  lemma KeyOrder()
    ensures Strict(KeyBefore)
  {
    forall a: Text
      ensures !KeyBefore(a, a)
    {
      NotBeforeItself(UnitLess, a);
    }
    forall a: Text, b: Text, c: Text | KeyBefore(a, b) && KeyBefore(b, c)
      ensures KeyBefore(a, c)
    {
      BeforeTransitive(UnitLess, a, b, c);
    }
  }

  function InFile(ms: seq<Mutant>, file: Text): seq<Mutant> {
    GroupOf(FileOf, ms, file)
  }

  /** The files of a population, sorted. */
  function Keys(ms: seq<Mutant>): seq<Text> {
    Sort(KeyBefore, Seen(FileOf, ms))
  }

  lemma KeysAre(ms: seq<Mutant>)
    ensures Sorted(KeyBefore, Keys(ms)) && Distinct(Keys(ms)) && forall x :: x in Keys(ms) <==> x in Seen(FileOf, ms)
    ensures forall m :: m in ms ==> FileOf(m) in Keys(ms)
    ensures forall i, j :: 0 <= i < j < |Keys(ms)| ==> Ascends(Keys(ms)[i], Keys(ms)[j])
  {
    SeenAll(FileOf, ms);
    KeyOrder();
    var ks := Seen(FileOf, ms);
    forall i, j | 0 <= i < j < |ks|
      ensures KeyBefore(ks[i], ks[j]) || KeyBefore(ks[j], ks[i])
    {
      BeforeTotal(UnitLess, ks[i], ks[j]);
    }
    SortSorts(KeyBefore, ks);
    forall i, j | 0 <= i < j < |Keys(ms)|
      ensures Ascends(Keys(ms)[i], Keys(ms)[j])
    {
      assert KeyBefore(Keys(ms)[i], Keys(ms)[j]);
      BeforeAscends(Keys(ms)[i], Keys(ms)[j]);
    }
  }

  function ShuffledGroup(g: seq<Mutant>, draws: Stream, at: nat): seq<Mutant> {
    Shuffled(g, Last(g), draws, at)
  }

  /** How many draws the groups before the i-th use. */
  function Offset(ms: seq<Mutant>, ks: seq<Text>, i: nat): nat
    requires i <= |ks|
  {
    if i == 0 then 0 else Offset(ms, ks, i - 1) + Last(InFile(ms, ks[i - 1]))
  }

  /** Each file's group, shuffled with the draws that follow those of the groups before it. */
  function Groups(ms: seq<Mutant>, ks: seq<Text>, draws: Stream): (gs: seq<seq<Mutant>>)
    ensures |gs| == |ks|
    ensures forall i :: 0 <= i < |ks| ==> gs[i] == ShuffledGroup(InFile(ms, ks[i]), draws, Offset(ms, ks, i))
  {
    seq(|ks|, i requires 0 <= i < |ks| => ShuffledGroup(InFile(ms, ks[i]), draws, Offset(ms, ks, i)))
  }

  function Strata(ms: seq<Mutant>, draws: Stream): seq<seq<Mutant>> {
    Groups(ms, Keys(ms), draws)
  }

  // ---- The order of files does not matter -----------------------------------------------------

  /** However the files are interleaved in the population, the shuffled groups are the same. */
  lemma InterleavingDoesNotMatter(ms: seq<Mutant>, other: seq<Mutant>, draws: Stream)
    requires forall f :: InFile(ms, f) == InFile(other, f)
    ensures Strata(ms, draws) == Strata(other, draws)
  {
    KeyOrder();
    KeysAre(ms);
    KeysAre(other);
    forall f
      ensures f in Keys(ms) <==> f in Keys(other)
    {
      SeenIffGrouped(FileOf, ms, f);
      SeenIffGrouped(FileOf, other, f);
      assert InFile(ms, f) == InFile(other, f);
    }
    SortedUnique(KeyBefore, Keys(ms), Keys(other));
    SameGroups(ms, other, Keys(ms), draws);
  }

  lemma SameGroups(ms: seq<Mutant>, other: seq<Mutant>, ks: seq<Text>, draws: Stream)
    requires forall f :: InFile(ms, f) == InFile(other, f)
    ensures Groups(ms, ks, draws) == Groups(other, ks, draws)
  {
    forall i | 0 <= i <= |ks|
      ensures Offset(ms, ks, i) == Offset(other, ks, i)
    {
      SameOffset(ms, other, ks, i);
    }
  }

  lemma {:induction false} SameOffset(ms: seq<Mutant>, other: seq<Mutant>, ks: seq<Text>, i: nat)
    requires i <= |ks| && forall f :: InFile(ms, f) == InFile(other, f)
    ensures Offset(ms, ks, i) == Offset(other, ks, i)
  {
    if i > 0 {
      SameOffset(ms, other, ks, i - 1);
    }
  }

  // ---- Every order of every group -------------------------------------------------------------

  lemma {:induction false} OffsetGrows(ms: seq<Mutant>, ks: seq<Text>, i: nat, n: nat)
    requires i <= n <= |ks|
    ensures Offset(ms, ks, i) <= Offset(ms, ks, n)
    decreases n
  {
    if i < n {
      OffsetGrows(ms, ks, i, n - 1);
    }
  }

  /** The stream puts the i-th group in the order asked for. */
  ghost predicate InOrder(ms: seq<Mutant>, ks: seq<Text>, order: seq<seq<Mutant>>, draws: Stream, i: nat)
    requires i < |ks| == |order|
  {
    ShuffledGroup(InFile(ms, ks[i]), draws, Offset(ms, ks, i)) == order[i]
  }

  /** One stream that does so for each of the first n groups. */
  lemma {:induction false} GroupsReach(ms: seq<Mutant>, ks: seq<Text>, order: seq<seq<Mutant>>, n: nat)
      returns (draws: Stream)
    requires n <= |ks| == |order| && forall i :: 0 <= i < n ==> InFile(ms, ks[i]) != []
    requires forall i :: 0 <= i < n ==> multiset(order[i]) == multiset(InFile(ms, ks[i]))
    ensures forall i :: 0 <= i < n ==> InOrder(ms, ks, order, draws, i)
  {
    if n == 0 {
      draws := _ => 0.0;
    } else {
      var was := GroupsReach(ms, ks, order, n - 1);
      var at, g := Offset(ms, ks, n - 1), InFile(ms, ks[n - 1]);
      var now := GroupReaches(g, order[n - 1], at);
      draws := k => if k < at then was(k) else now(k);
      SameDraws(g, Last(g), draws, now, at);
      forall i | 0 <= i < n - 1
        ensures InOrder(ms, ks, order, draws, i)
      {
        assert InOrder(ms, ks, order, was, i);
        EarlierDraws(ms, ks, order, was, draws, i, n - 1);
      }
    }
  }

  /** The draws after those of group i do not matter to it. */
  lemma EarlierDraws(ms: seq<Mutant>, ks: seq<Text>, order: seq<seq<Mutant>>, d: Stream, e: Stream, i: nat, n: nat)
    requires i < n < |ks| == |order| && InOrder(ms, ks, order, d, i)
    requires forall k :: 0 <= k < Offset(ms, ks, n) ==> e(k) == d(k)
    ensures InOrder(ms, ks, order, e, i)
  {
    OffsetGrows(ms, ks, i + 1, n);
    var g := InFile(ms, ks[i]);
    SameDrawsWithin(g, Last(g), e, d, Offset(ms, ks, i));
  }

  lemma GroupReaches(g: seq<Mutant>, r: seq<Mutant>, at: nat) returns (draws: Stream)
    requires g != [] && multiset(r) == multiset(g)
    ensures ShuffledGroup(g, draws, at) == r
  {
    assert |multiset(r)| == |multiset(g)|;
    assert g[..|g|] == g && r[..|r|] == r;
    draws := ShuffleReaches(g, r, |g| - 1, at);
  }

  /** Whatever order is asked for in every file, there is one stream that gives them all at once. */
  lemma StrataReach(ms: seq<Mutant>, order: Text -> seq<Mutant>) returns (draws: Stream)
    requires forall f :: f in Seen(FileOf, ms) ==> multiset(order(f)) == multiset(InFile(ms, f))
    ensures |Strata(ms, draws)| == |Keys(ms)|
    ensures forall i :: 0 <= i < |Keys(ms)| ==> Strata(ms, draws)[i] == order(Keys(ms)[i])
  {
    var ks := Keys(ms);
    KeysAre(ms);
    forall i | 0 <= i < |ks|
      ensures InFile(ms, ks[i]) != [] && multiset(order(ks[i])) == multiset(InFile(ms, ks[i]))
    {
      assert ks[i] in Seen(FileOf, ms);
      SeenIffGrouped(FileOf, ms, ks[i]);
    }
    var all := seq(|ks|, i requires 0 <= i < |ks| => order(ks[i]));
    draws := GroupsReach(ms, ks, all, |ks|);
    forall i | 0 <= i < |ks|
      ensures Strata(ms, draws)[i] == order(ks[i])
    {
      assert InOrder(ms, ks, all, draws, i);
    }
  }

  /** And only those: each group is a rearrangement of its file's mutants. */
  lemma StrataPermute(ms: seq<Mutant>, draws: Stream, i: nat)
    requires i < |Keys(ms)|
    ensures |Strata(ms, draws)| == |Keys(ms)|
    ensures multiset(Strata(ms, draws)[i]) == multiset(InFile(ms, Keys(ms)[i]))
  {
    var g := InFile(ms, Keys(ms)[i]);
    ShufflePermutes(g, Last(g), draws, Offset(ms, Keys(ms), i));
  }

  function Fronted(g: seq<Mutant>, j: nat): seq<Mutant>
    requires j < |g|
  {
    [g[j]] + g[..j] + g[j + 1..]
  }

  lemma FrontedPermutes(g: seq<Mutant>, j: nat)
    requires j < |g|
    ensures multiset(Fronted(g, j)) == multiset(g)
  {
    assert g == g[..j] + [g[j]] + g[j + 1..];
  }

  /** So every mutant is the first of its file under some stream. */
  lemma AnyoneFirst(ms: seq<Mutant>, m: Mutant) returns (draws: Stream, i: nat)
    requires m in ms
    ensures i < |Keys(ms)| == |Strata(ms, draws)| && Keys(ms)[i] == FileOf(m)
    ensures Strata(ms, draws)[i] != [] && Strata(ms, draws)[i][0] == m
  {
    var f := FileOf(m);
    KeysAre(ms);
    i := PlaceOf(Keys(ms), f);
    InItsFile(ms, m);
    var g := InFile(ms, f);
    var j :| 0 <= j < |g| && g[j] == m;
    FrontedPermutes(g, j);
    var front := Fronted(g, j);
    draws := StrataReach(ms, k => if k == f then front else InFile(ms, k));
  }

  lemma {:induction false} InItsFile(ms: seq<Mutant>, m: Mutant)
    requires m in ms
    ensures m in InFile(ms, FileOf(m))
  {
    var was, x := ms[..|ms| - 1], ms[|ms| - 1];
    assert ms == was + [x];
    if x == m {
      assert InFile(ms, FileOf(m)) == InFile(was, FileOf(m)) + [m];
    } else {
      InItsFile(was, m);
    }
  }

  // ---- Rounds ---------------------------------------------------------------------------------

  /** The r-th of every group that has one. */
  function Round(gs: seq<seq<Mutant>>, r: nat): seq<Mutant> {
    if gs == [] then [] else (if r < |gs[0]| then [gs[0][r]] else []) + Round(gs[1..], r)
  }

  function Rounds(gs: seq<seq<Mutant>>, r: nat): seq<Mutant> {
    if r == 0 then [] else Rounds(gs, r - 1) + Round(gs, r - 1)
  }

  /** Whole rounds, and the front of the next one. */
  ghost predicate InTurn(picked: seq<Mutant>, gs: seq<seq<Mutant>>, r: nat, p: nat) {
    p <= |gs| && picked == Rounds(gs, r) + Round(gs[..p], r)
  }

  lemma {:induction false} RoundSplit(a: seq<seq<Mutant>>, b: seq<seq<Mutant>>, r: nat)
    ensures Round(a + b, r) == Round(a, r) + Round(b, r)
  {
    if a == [] {
      assert a + b == b;
    } else {
      var first: seq<Mutant> := if r < |a[0]| then [a[0][r]] else [];
      RoundSplit(a[1..], b, r);
      assert (a + b)[1..] == a[1..] + b && (a + b)[0] == a[0];
      Grouped(first, Round(a[1..], r), Round(b, r));
    }
  }

  lemma Grouped(a: seq<Mutant>, b: seq<Mutant>, c: seq<Mutant>)
    ensures a + b + c == a + (b + c)
  {
  }

  lemma RoundNext(gs: seq<seq<Mutant>>, p: nat, r: nat)
    requires p < |gs|
    ensures Round(gs[..p + 1], r) == Round(gs[..p], r) + if r < |gs[p]| then [gs[p][r]] else []
  {
    assert gs[..p + 1] == gs[..p] + [gs[p]];
    RoundSplit(gs[..p], [gs[p]], r);
    assert [gs[p]][1..] == [];
  }

  /** A turn: a round, and a group in it. */
  type Turn = (nat, nat)

  predicate Sooner(a: Turn, b: Turn) {
    a.0 < b.0 || (a.0 == b.0 && a.1 < b.1)
  }

  /** The picks were made at these turns, in order: every turn before (r, p) at which its group had one. */
  ghost predicate PickedAt(picked: seq<Mutant>, gs: seq<seq<Mutant>>, r: nat, p: nat, at: seq<Turn>) {
    |at| == |picked| && (forall i, j :: 0 <= i < j < |at| ==> Sooner(at[i], at[j])) &&
    (forall i :: 0 <= i < |at| ==> HasTurn(gs, at[i]) && picked[i] == gs[at[i].1][at[i].0]) &&
    (forall t :: t in at <==> HasTurn(gs, t) && Sooner(t, (r, p)))
  }

  predicate HasTurn(gs: seq<seq<Mutant>>, t: Turn) {
    t.1 < |gs| && t.0 < |gs[t.1]|
  }

  /** Round by round and group by group: the r-th pick of a group comes after every pick of an earlier
      round and after those of the groups before it in the same round. */
  lemma TurnByTurn(picked: seq<Mutant>, gs: seq<seq<Mutant>>, r: nat, p: nat) returns (at: seq<Turn>)
    requires InTurn(picked, gs, r, p)
    ensures PickedAt(picked, gs, r, p, at)
  {
    at := Turns(gs, r, p);
  }

  lemma {:induction false} Turns(gs: seq<seq<Mutant>>, r: nat, p: nat) returns (at: seq<Turn>)
    requires p <= |gs|
    ensures PickedAt(Turned(gs, r, p), gs, r, p, at)
    decreases r, p
  {
    TurnedNext(gs, r, p);
    if p > 0 {
      var before := Turns(gs, r, p - 1);
      at := NextTurn(Turned(gs, r, p - 1), gs, r, p - 1, before);
    } else if r > 0 {
      at := Turns(gs, r - 1, |gs|);
      RoundOver(Turned(gs, r, p), gs, r, at);
    } else {
      at := [];
    }
  }

  function Turned(gs: seq<seq<Mutant>>, r: nat, p: nat): seq<Mutant>
    requires p <= |gs|
  {
    Rounds(gs, r) + Round(gs[..p], r)
  }

  lemma TurnedNext(gs: seq<seq<Mutant>>, r: nat, p: nat)
    requires p <= |gs|
    ensures p > 0 ==> Turned(gs, r, p) == Turned(gs, r, p - 1) + if r < |gs[p - 1]| then [gs[p - 1][r]] else []
    ensures p == 0 && r > 0 ==> Turned(gs, r, p) == Turned(gs, r - 1, |gs|)
    ensures p == 0 && r == 0 ==> Turned(gs, r, p) == []
  {
    if p > 0 {
      RoundNext(gs, p - 1, r);
    } else {
      NoTurn(Turned(gs, r, 0), gs, r);
    }
  }

  lemma RoundOver(picked: seq<Mutant>, gs: seq<seq<Mutant>>, r: nat, at: seq<Turn>)
    requires r > 0 && PickedAt(picked, gs, r - 1, |gs|, at)
    ensures PickedAt(picked, gs, r, 0, at)
  {
    assert forall t :: HasTurn(gs, t) ==> (Sooner(t, (r - 1, |gs|)) <==> Sooner(t, (r, 0)));
  }

  lemma NextTurn(was: seq<Mutant>, gs: seq<seq<Mutant>>, r: nat, p: nat, at: seq<Turn>) returns (at': seq<Turn>)
    requires p < |gs| && PickedAt(was, gs, r, p, at)
    ensures PickedAt(was + if r < |gs[p]| then [gs[p][r]] else [], gs, r, p + 1, at')
  {
    assert forall t: Turn :: Sooner(t, (r, p + 1)) <==> Sooner(t, (r, p)) || t == (r, p);
    at' := if HasTurn(gs, (r, p)) then at + [(r, p)] else at;
    forall t
      ensures t in at' <==> HasTurn(gs, t) && Sooner(t, (r, p + 1))
    {
      assert t in at' <==> t in at || (t == (r, p) && HasTurn(gs, t));
    }
    forall i | 0 <= i < |at|
      ensures Sooner(at[i], (r, p))
    {
      assert at[i] in at;
    }
  }

  // ---- Nothing is picked twice ----------------------------------------------------------------

  /** How often a mutant occurs. */
  function Occurs(s: seq<Mutant>, m: Mutant): nat {
    if s == [] then 0 else (if s[0] == m then 1 else 0) + Occurs(s[1..], m)
  }

  lemma {:induction false} OccursConcat(a: seq<Mutant>, b: seq<Mutant>, m: Mutant)
    ensures Occurs(a + b, m) == Occurs(a, m) + Occurs(b, m)
  {
    if a == [] {
      assert a + b == b;
    } else {
      OccursConcat(a[1..], b, m);
      assert (a + b)[1..] == a[1..] + b;
    }
  }

  lemma {:induction false} OccursIs(s: seq<Mutant>, m: Mutant)
    ensures Occurs(s, m) == multiset(s)[m]
  {
    if s != [] {
      OccursIs(s[1..], m);
      assert s == [s[0]] + s[1..];
    }
  }

  function From(g: seq<Mutant>, r: nat): seq<Mutant> {
    if r < |g| then g[r..] else []
  }

  /** How often it occurs in the groups from round r on. */
  function Rest(gs: seq<seq<Mutant>>, r: nat, m: Mutant): nat {
    if gs == [] then 0 else Occurs(From(gs[0], r), m) + Rest(gs[1..], r, m)
  }

  lemma FromNext(g: seq<Mutant>, r: nat, m: Mutant)
    ensures Occurs(From(g, r), m) == (if r < |g| && g[r] == m then 1 else 0) + Occurs(From(g, r + 1), m)
  {
    if r < |g| {
      assert From(g, r)[1..] == From(g, r + 1);
    }
  }

  /** How often it occurs in round r, and in all the rounds before r. */
  function InRound(gs: seq<seq<Mutant>>, r: nat, m: Mutant): nat {
    if gs == [] then 0 else (if r < |gs[0]| && gs[0][r] == m then 1 else 0) + InRound(gs[1..], r, m)
  }

  function InRounds(gs: seq<seq<Mutant>>, r: nat, m: Mutant): nat {
    if r == 0 then 0 else InRounds(gs, r - 1, m) + InRound(gs, r - 1, m)
  }

  lemma {:induction false} OccursInRound(gs: seq<seq<Mutant>>, r: nat, m: Mutant)
    ensures Occurs(Round(gs, r), m) == InRound(gs, r, m)
  {
    if gs != [] {
      OccursInRound(gs[1..], r, m);
      OccursConcat(if r < |gs[0]| then [gs[0][r]] else [], Round(gs[1..], r), m);
    }
  }

  lemma {:induction false} OccursInRounds(gs: seq<seq<Mutant>>, r: nat, m: Mutant)
    ensures Occurs(Rounds(gs, r), m) == InRounds(gs, r, m)
  {
    if r > 0 {
      OccursInRounds(gs, r - 1, m);
      OccursInRound(gs, r - 1, m);
      OccursConcat(Rounds(gs, r - 1), Round(gs, r - 1), m);
    }
  }

  lemma {:induction false} FrontOfRound(gs: seq<seq<Mutant>>, p: nat, r: nat, m: Mutant)
    requires p <= |gs|
    ensures InRound(gs[..p], r, m) <= InRound(gs, r, m)
  {
    if p > 0 {
      FrontOfRound(gs[1..], p - 1, r, m);
      assert gs[..p][1..] == gs[1..][..p - 1];
    }
  }

  lemma {:induction false} RestRound(gs: seq<seq<Mutant>>, r: nat, m: Mutant)
    ensures Rest(gs, r, m) == InRound(gs, r, m) + Rest(gs, r + 1, m)
  {
    if gs != [] {
      RestRound(gs[1..], r, m);
      FromNext(gs[0], r, m);
    }
  }

  lemma {:induction false} RoundsAndRest(gs: seq<seq<Mutant>>, r: nat, m: Mutant)
    ensures InRounds(gs, r, m) + Rest(gs, r, m) == Rest(gs, 0, m)
  {
    if r > 0 {
      RoundsAndRest(gs, r - 1, m);
      RestRound(gs, r - 1, m);
    }
  }

  lemma {:induction false} EmptyRound(gs: seq<seq<Mutant>>, r: nat, m: Mutant)
    requires Round(gs, r) == []
    ensures Rest(gs, r, m) == 0
  {
    if gs != [] {
      EmptyRound(gs[1..], r, m);
    }
  }

  /** How often it occurs in the groups of these files. */
  function Held(ms: seq<Mutant>, ks: seq<Text>, m: Mutant): nat {
    if ks == [] then 0 else Occurs(InFile(ms, ks[0]), m) + Held(ms, ks[1..], m)
  }

  lemma {:induction false} GroupHas(ms: seq<Mutant>, file: Text, m: Mutant)
    ensures Occurs(InFile(ms, file), m) == if FileOf(m) == file then Occurs(ms, m) else 0
  {
    if ms != [] {
      var was, x := ms[..|ms| - 1], ms[|ms| - 1];
      GroupHas(was, file, m);
      assert ms == was + [x];
      OccursConcat(was, [x], m);
      OccursConcat(InFile(was, file), if FileOf(x) == file then [x] else [], m);
      assert Occurs([x], m) == if x == m then 1 else 0;
    }
  }

  /** A mutant is held by the group of its own file and by no other. */
  lemma {:induction false} HeldIs(ms: seq<Mutant>, ks: seq<Text>, m: Mutant)
    requires Distinct(ks)
    ensures Held(ms, ks, m) == if FileOf(m) in ks then Occurs(ms, m) else 0
  {
    if ks != [] {
      HeldIs(ms, ks[1..], m);
      GroupHas(ms, ks[0], m);
      assert ks == [ks[0]] + ks[1..];
      assert ks[0] !in ks[1..];
    }
  }

  lemma GroupPermuted(g: seq<Mutant>, draws: Stream, at: nat, m: Mutant)
    ensures Occurs(ShuffledGroup(g, draws, at), m) == Occurs(g, m)
  {
    ShufflePermutes(g, Last(g), draws, at);
    OccursIs(g, m);
    OccursIs(ShuffledGroup(g, draws, at), m);
  }

  lemma {:induction false} SameHeld(ms: seq<Mutant>, ks: seq<Text>, gs: seq<seq<Mutant>>, m: Mutant)
    requires |gs| == |ks| && forall i :: 0 <= i < |ks| ==> Occurs(gs[i], m) == Occurs(InFile(ms, ks[i]), m)
    ensures Rest(gs, 0, m) == Held(ms, ks, m)
  {
    if ks != [] {
      SameHeld(ms, ks[1..], gs[1..], m);
      assert From(gs[0], 0) == gs[0];
    }
  }

  lemma GroupsHold(ms: seq<Mutant>, ks: seq<Text>, draws: Stream, m: Mutant)
    ensures Rest(Groups(ms, ks, draws), 0, m) == Held(ms, ks, m)
  {
    var gs := Groups(ms, ks, draws);
    forall i | 0 <= i < |ks|
      ensures Occurs(gs[i], m) == Occurs(InFile(ms, ks[i]), m)
    {
      GroupPermuted(InFile(ms, ks[i]), draws, Offset(ms, ks, i), m);
    }
    SameHeld(ms, ks, gs, m);
  }

  lemma StrataHold(ms: seq<Mutant>, draws: Stream, m: Mutant)
    ensures Rest(Strata(ms, draws), 0, m) == Occurs(ms, m)
  {
    KeysAre(ms);
    GroupsHold(ms, Keys(ms), draws, m);
    HeldIs(ms, Keys(ms), m);
    OccursIs(ms, m);
  }

  /** A draw repeats no occurrence: it is part of the population, counted with multiplicity. */
  lemma DrawnFromPopulation(ms: seq<Mutant>, draws: Stream, picked: seq<Mutant>, r: nat, p: nat)
    requires InTurn(picked, Strata(ms, draws), r, p)
    ensures multiset(picked) <= multiset(ms) && |picked| <= |ms|
  {
    forall m
      ensures Occurs(picked, m) <= Occurs(ms, m)
    {
      DrawnOccurs(ms, draws, picked, r, p, m);
    }
    SmallerCount(picked, ms);
  }

  lemma DrawnOccurs(ms: seq<Mutant>, draws: Stream, picked: seq<Mutant>, r: nat, p: nat, m: Mutant)
    requires InTurn(picked, Strata(ms, draws), r, p)
    ensures Occurs(picked, m) <= Occurs(ms, m)
  {
    StrataHold(ms, draws, m);
    TurnsWithinRest(picked, Strata(ms, draws), r, p, m);
  }

  lemma TurnsWithinRest(picked: seq<Mutant>, gs: seq<seq<Mutant>>, r: nat, p: nat, m: Mutant)
    requires InTurn(picked, gs, r, p)
    ensures Occurs(picked, m) <= Rest(gs, 0, m)
  {
    OccursConcat(Rounds(gs, r), Round(gs[..p], r), m);
    OccursInRounds(gs, r, m);
    OccursInRound(gs[..p], r, m);
    FrontOfRound(gs, p, r, m);
    RoundsAndRest(gs, r, m);
    RestRound(gs, r, m);
  }

  lemma SmallerCount(a: seq<Mutant>, b: seq<Mutant>)
    requires forall m :: Occurs(a, m) <= Occurs(b, m)
    ensures multiset(a) <= multiset(b) && |a| <= |b|
  {
    forall m
      ensures multiset(a)[m] <= multiset(b)[m]
    {
      assert Occurs(a, m) <= Occurs(b, m);
      OccursIs(a, m);
      OccursIs(b, m);
    }
    assert multiset(b) == multiset(a) + (multiset(b) - multiset(a));
    assert |multiset(a)| == |a| && |multiset(b)| == |b|;
  }

  /** A round that takes nothing means everything has been taken. */
  lemma NothingLeft(ms: seq<Mutant>, draws: Stream, r: nat)
    requires Round(Strata(ms, draws), r) == []
    ensures |ms| <= |Rounds(Strata(ms, draws), r)|
  {
    var gs := Strata(ms, draws);
    forall m
      ensures Occurs(ms, m) <= Occurs(Rounds(gs, r), m)
    {
      StrataHold(ms, draws, m);
      OccursInRounds(gs, r, m);
      RoundsAndRest(gs, r, m);
      EmptyRound(gs, r, m);
    }
    SmallerCount(ms, Rounds(gs, r));
  }

  // ---- No file runs ahead ---------------------------------------------------------------------

  function Count(ms: seq<Mutant>, file: Text): nat {
    if ms == [] then 0 else (if FileOf(ms[0]) == file then 1 else 0) + Count(ms[1..], file)
  }

  lemma {:induction false} CountConcat(a: seq<Mutant>, b: seq<Mutant>, file: Text)
    ensures Count(a + b, file) == Count(a, file) + Count(b, file)
  {
    if a == [] {
      assert a + b == b;
    } else {
      CountConcat(a[1..], b, file);
      assert (a + b)[1..] == a[1..] + b;
    }
  }

  lemma {:induction false} CountGroup(ms: seq<Mutant>, file: Text)
    ensures |InFile(ms, file)| == Count(ms, file) && forall m :: m in InFile(ms, file) ==> FileOf(m) == file
  {
    if ms != [] {
      var was, m := ms[..|ms| - 1], ms[|ms| - 1];
      CountGroup(was, file);
      CountConcat(was, [m], file);
      assert ms == was + [m] && [m][1..] == [];
    }
  }

  /** One group per file, each holding only that file's mutants. */
  ghost predicate Stratified(gs: seq<seq<Mutant>>, ks: seq<Text>) {
    |gs| == |ks| && Distinct(ks) && forall i, m :: 0 <= i < |gs| && m in gs[i] ==> FileOf(m) == ks[i]
  }

  lemma StratifiedTail(gs: seq<seq<Mutant>>, ks: seq<Text>)
    requires Stratified(gs, ks) && gs != []
    ensures Stratified(gs[1..], ks[1..]) && ks[0] !in ks[1..]
  {
  }

  lemma CountFirst(gs: seq<seq<Mutant>>, ks: seq<Text>, r: nat, file: Text)
    requires Stratified(gs, ks) && gs != []
    ensures Count(Round(gs, r), file) == (if r < |gs[0]| && ks[0] == file then 1 else 0) +
      Count(Round(gs[1..], r), file)
  {
    if r < |gs[0]| {
      var m := gs[0][r];
      assert m in gs[0] && FileOf(m) == ks[0];
      assert Round(gs, r)[1..] == Round(gs[1..], r);
    } else {
      assert Round(gs, r) == Round(gs[1..], r);
    }
  }

  lemma {:induction false} CountRoundElse(gs: seq<seq<Mutant>>, ks: seq<Text>, r: nat, file: Text)
    requires Stratified(gs, ks) && file !in ks
    ensures Count(Round(gs, r), file) == 0
  {
    if gs != [] {
      StratifiedTail(gs, ks);
      CountFirst(gs, ks, r, file);
      CountRoundElse(gs[1..], ks[1..], r, file);
    }
  }

  lemma {:induction false} CountRound(gs: seq<seq<Mutant>>, ks: seq<Text>, r: nat, k: nat)
    requires Stratified(gs, ks) && k < |ks|
    ensures Count(Round(gs, r), ks[k]) == if r < |gs[k]| then 1 else 0
  {
    StratifiedTail(gs, ks);
    CountFirst(gs, ks, r, ks[k]);
    if k == 0 {
      CountRoundElse(gs[1..], ks[1..], r, ks[0]);
    } else {
      assert ks[k] in ks[1..];
      CountRound(gs[1..], ks[1..], r, k - 1);
    }
  }

  lemma {:induction false} CountRounds(gs: seq<seq<Mutant>>, file: Text, len: nat, r: nat)
    requires forall q: nat :: Count(Round(gs, q), file) == if q < len then 1 else 0
    ensures Count(Rounds(gs, r), file) == if r < len then r else len
  {
    if r > 0 {
      CountRounds(gs, file, len, r - 1);
      var before, now := Rounds(gs, r - 1), Round(gs, r - 1);
      CountConcat(before, now, file);
      assert Count(now, file) == if r - 1 < len then 1 else 0;
      assert Rounds(gs, r) == before + now;
    }
  }

  /** In turn, a file has one mutant per round that is over and that it lasted for, and one more if its
      turn in the round under way has come. */
  lemma CountInTurn(picked: seq<Mutant>, gs: seq<seq<Mutant>>, ks: seq<Text>, r: nat, p: nat, k: nat)
    requires Stratified(gs, ks) && InTurn(picked, gs, r, p) && k < |ks|
    ensures Count(picked, ks[k]) == if r >= |gs[k]| then |gs[k]| else if k < p then r + 1 else r
  {
    assert Stratified(gs[..p], ks[..p]);
    forall q: nat
      ensures Count(Round(gs, q), ks[k]) == if q < |gs[k]| then 1 else 0
    {
      CountRound(gs, ks, q, k);
    }
    CountRounds(gs, ks[k], |gs[k]|, r);
    CountConcat(Rounds(gs, r), Round(gs[..p], r), ks[k]);
    if k < p {
      CountRound(gs[..p], ks[..p], r, k);
    } else {
      CountRoundElse(gs[..p], ks[..p], r, ks[k]);
    }
  }

  lemma GroupIs(g: seq<Mutant>, draws: Stream, at: nat, file: Text)
    requires forall m :: m in g ==> FileOf(m) == file
    ensures |ShuffledGroup(g, draws, at)| == |g| && forall m :: m in ShuffledGroup(g, draws, at) ==> FileOf(m) == file
  {
    ShufflePermutes(g, Last(g), draws, at);
    SameMembers(g, ShuffledGroup(g, draws, at));
  }

  lemma GroupsStratified(ms: seq<Mutant>, ks: seq<Text>, draws: Stream)
    requires Distinct(ks)
    ensures Stratified(Groups(ms, ks, draws), ks)
    ensures forall k :: 0 <= k < |ks| ==> |Groups(ms, ks, draws)[k]| == Count(ms, ks[k])
  {
    var gs := Groups(ms, ks, draws);
    forall k | 0 <= k < |ks|
      ensures |gs[k]| == Count(ms, ks[k]) && forall m :: m in gs[k] ==> FileOf(m) == ks[k]
    {
      CountGroup(ms, ks[k]);
      GroupIs(InFile(ms, ks[k]), draws, Offset(ms, ks, k), ks[k]);
    }
  }

  lemma SameMembers(a: seq<Mutant>, b: seq<Mutant>)
    requires multiset(a) == multiset(b)
    ensures forall m :: m in b ==> m in a
  {
    forall m | m in b
      ensures m in a
    {
      assert m in multiset(b);
    }
  }

  /** No file gets a (k+1)-th mutant until every other file has k or has no more. */
  ghost predicate Fair(picked: seq<Mutant>, ms: seq<Mutant>) {
    forall f, g :: f in Seen(FileOf, ms) && g in Seen(FileOf, ms) ==>
      Count(picked, f) <= Count(picked, g) + 1 || Count(picked, g) == Count(ms, g)
  }

  lemma DrawnFairly(ms: seq<Mutant>, draws: Stream, picked: seq<Mutant>, r: nat, p: nat)
    requires InTurn(picked, Strata(ms, draws), r, p)
    ensures Fair(picked, ms)
  {
    KeysAre(ms);
    GroupsStratified(ms, Keys(ms), draws);
    forall f, g | f in Seen(FileOf, ms) && g in Seen(FileOf, ms)
      ensures Count(picked, f) <= Count(picked, g) + 1 || Count(picked, g) == Count(ms, g)
    {
      var i, j := PlaceOf(Keys(ms), f), PlaceOf(Keys(ms), g);
      FairPair(picked, Strata(ms, draws), Keys(ms), r, p, i, j);
    }
  }

  function PlaceOf(ks: seq<Text>, k: Text): (i: nat)
    requires k in ks
    ensures i < |ks| && ks[i] == k
  {
    if ks[0] == k then 0 else 1 + PlaceOf(ks[1..], k)
  }

  lemma FairPair(picked: seq<Mutant>, gs: seq<seq<Mutant>>, ks: seq<Text>, r: nat, p: nat, i: nat, j: nat)
    requires Stratified(gs, ks) && InTurn(picked, gs, r, p) && i < |ks| && j < |ks|
    ensures Count(picked, ks[i]) <= Count(picked, ks[j]) + 1 || Count(picked, ks[j]) == |gs[j]|
  {
    CountInTurn(picked, gs, ks, r, p, i);
    CountInTurn(picked, gs, ks, r, p, j);
  }

  // ---- At every pick --------------------------------------------------------------------------

  /** Every front of a draw is a draw in turn. */
  lemma {:induction false} FrontInTurn(picked: seq<Mutant>, gs: seq<seq<Mutant>>, r: nat, p: nat, n: nat)
      returns (r': nat, p': nat)
    requires InTurn(picked, gs, r, p) && n <= |picked|
    ensures InTurn(picked[..n], gs, r', p')
    decreases r, p
  {
    if n == |picked| {
      r', p' := r, p;
      assert picked[..n] == picked;
    } else if p > 0 {
      var shorter := Rounds(gs, r) + Round(gs[..p - 1], r);
      RoundNext(gs, p - 1, r);
      assert shorter <= picked && |picked| <= |shorter| + 1;
      assert picked[..n] == shorter[..n];
      r', p' := FrontInTurn(shorter, gs, r, p - 1, n);
    } else {
      NoTurn(picked, gs, r);
      r', p' := FrontInTurn(picked, gs, r - 1, |gs|, n);
    }
  }

  /** Before the first turn of a round the last round is complete. */
  lemma NoTurn(picked: seq<Mutant>, gs: seq<seq<Mutant>>, r: nat)
    requires InTurn(picked, gs, r, 0)
    ensures r == 0 ==> picked == []
    ensures r > 0 ==> InTurn(picked, gs, r - 1, |gs|)
  {
    assert gs[..0] == [] && gs[..|gs|] == gs;
    assert Round(gs[..0], r) == [];
  }

  /** At every pick of a draw, no file is more than one ahead of a file that has more to give. */
  lemma FairAtEveryPick(ms: seq<Mutant>, draws: Stream, picked: seq<Mutant>, r: nat, p: nat, n: nat)
    requires InTurn(picked, Strata(ms, draws), r, p) && n <= |picked|
    ensures Fair(picked[..n], ms)
  {
    var r', p' := FrontInTurn(picked, Strata(ms, draws), r, p, n);
    DrawnFairly(ms, draws, picked[..n], r', p');
  }

  // ---- The draw -------------------------------------------------------------------------------

  /** A shuffled copy of a group. */
  method ShuffledCopy(list: seq<Mutant>, draws: Stream, at: nat) returns (s: seq<Mutant>, next: nat)
    ensures s == ShuffledGroup(list, draws, at) && next == at + Last(list)
  {
    var g := new Mutant[|list|](k requires 0 <= k < |list| => list[k]);
    assert g[..] == list;
    next := ShuffleInPlace(g, draws, at);
    s := g[..];
  }

  lemma OffsetNext(ms: seq<Mutant>, ks: seq<Text>, i: nat)
    requires i < |ks|
    ensures Offset(ms, ks, i + 1) == Offset(ms, ks, i) + Last(InFile(ms, ks[i]))
  {
  }

  lemma Snoc(gs: seq<seq<Mutant>>, i: nat)
    requires i < |gs|
    ensures gs[..i + 1] == gs[..i] + [gs[i]]
  {
  }

  /** The groups in key order. */
  method ShuffleGroups(ms: seq<Mutant>, keys: seq<Text>, byFile: map<Text, seq<Mutant>>, draws: Stream)
    returns (groups: seq<seq<Mutant>>)
    requires forall i :: 0 <= i < |keys| ==> keys[i] in byFile && byFile[keys[i]] == InFile(ms, keys[i])
    ensures groups == Groups(ms, keys, draws)
  {
    groups := [];
    var at: nat := 0;
    ghost var all := Groups(ms, keys, draws);
    for i := 0 to |keys|
      invariant groups == all[..i] && at == Offset(ms, keys, i)
    {
      var s, next := ShuffledCopy(byFile[keys[i]], draws, at);
      assert s == all[i];
      OffsetNext(ms, keys, i);
      Snoc(all, i);
      groups, at := groups + [s], next;
    }
    assert all[..|keys|] == all;
  }

  predicate Whole(n: real) {
    n == n.Floor as real
  }

  /** One round. It stops early when there are exactly as many as asked for, which never happens when a
      fraction was asked for. */
  method TakeRound(gs: seq<seq<Mutant>>, round: nat, exactly: int, before: seq<Mutant>)
    returns (picked: seq<Mutant>, tookAny: bool, ghost p: nat)
    requires exactly < 0 || |before| < exactly
    ensures p <= |gs| && picked == before + Round(gs[..p], round) && tookAny == (|picked| > |before|)
    ensures p < |gs| ==> |picked| == exactly
    ensures exactly < 0 || |picked| <= exactly
  {
    picked, tookAny, p := before, false, 0;
    for i := 0 to |gs|
      invariant p == i && picked == before + Round(gs[..i], round) && tookAny == (|picked| > |before|)
      invariant exactly < 0 || |picked| < exactly
    {
      RoundNext(gs, i, round);
      p := i + 1;
      if round >= |gs[i]| { continue; }
      picked := picked + [gs[i][round]];
      tookAny := true;
      if |picked| == exactly { break; }
    }
  }

  /** How many are left to pick decreases with every round. */
  lemma TurnGoesOn(ms: seq<Mutant>, draws: Stream, r: nat, p: nat)
    requires p <= |Strata(ms, draws)|
    ensures |Rounds(Strata(ms, draws), r) + Round(Strata(ms, draws)[..p], r)| <= |ms|
    ensures p == |Strata(ms, draws)| && |Rounds(Strata(ms, draws), r)| < |ms| ==> Round(Strata(ms, draws)[..p], r) != []
    ensures p == |Strata(ms, draws)| ==>
      Rounds(Strata(ms, draws), r) + Round(Strata(ms, draws)[..p], r) == Rounds(Strata(ms, draws), r + 1)
  {
    var gs := Strata(ms, draws);
    DrawnFromPopulation(ms, draws, Rounds(gs, r) + Round(gs[..p], r), r, p);
    if p == |gs| {
      assert gs[..p] == gs;
      if Round(gs, r) == [] {
        NothingLeft(ms, draws, r);
      }
    }
  }

  /** What holds whenever the draw asks whether it has enough. */
  ghost predicate Drawing(ms: seq<Mutant>, draws: Stream, n: real, picked: seq<Mutant>, r: nat, round: nat, p: nat) {
    var gs := Strata(ms, draws);
    InTurn(picked, gs, round, p) && |picked| <= |ms| && (Whole(n) ==> |picked| as real <= n) &&
    (|picked| as real < n ==> picked == Rounds(gs, r)) &&
    (r == 0 ==> picked == []) && (r > 0 && !Whole(n) ==> p == |gs| && |Rounds(gs, round)| as real < n)
  }

  /** The count that stops a round early: none, for a fraction. */
  function Exactly(n: real): int {
    if Whole(n) then n.Floor else -1
  }

  lemma NotYet(n: real, k: nat)
    requires k as real < n
    ensures Exactly(n) < 0 || k < Exactly(n)
  {
  }

  lemma RoundTaken(ms: seq<Mutant>, draws: Stream, n: real, r: nat, picked: seq<Mutant>, p: nat)
    requires InTurn(picked, Strata(ms, draws), r, p) && |Rounds(Strata(ms, draws), r)| as real < n < |ms| as real
    requires p < |Strata(ms, draws)| ==> |picked| == Exactly(n)
    requires Exactly(n) < 0 || |picked| <= Exactly(n)
    ensures Drawing(ms, draws, n, picked, r + 1, r, p) && |picked| > |Rounds(Strata(ms, draws), r)|
  {
    TurnGoesOn(ms, draws, r, p);
  }

  lemma StartDrawing(ms: seq<Mutant>, draws: Stream, n: real)
    requires n > 0.0
    ensures Drawing(ms, draws, n, [], 0, 0, 0)
  {
    var gs := Strata(ms, draws);
    assert gs[..0] == [];
    assert Round(gs[..0], 0) == [];
  }

  lemma StillDrawing(ms: seq<Mutant>, draws: Stream, n: real, picked: seq<Mutant>, r: nat, round: nat, p: nat)
    requires Drawing(ms, draws, n, picked, r, round, p) && |picked| as real < n
    ensures picked == Rounds(Strata(ms, draws), r) && |picked| <= |ms|
  {
  }

  /** The body of the loop over rounds: while there are too few, a round takes some. */
  method TakeNext(gs: seq<seq<Mutant>>, r: nat, n: real, before: seq<Mutant>, ghost ms: seq<Mutant>,
                  ghost draws: Stream, ghost round: nat, ghost q: nat)
    returns (picked: seq<Mutant>, tookAny: bool, ghost p: nat)
    requires gs == Strata(ms, draws) && Drawing(ms, draws, n, before, r, round, q)
    requires |before| as real < n < |ms| as real
    ensures Drawing(ms, draws, n, picked, r + 1, r, p) && tookAny && |before| < |picked| <= |ms|
  {
    StillDrawing(ms, draws, n, before, r, round, q);
    NotYet(n, |before|);
    picked, tookAny, p := TakeRound(gs, r, Exactly(n), before);
    RoundTaken(ms, draws, n, r, picked, p);
  }

  /** A finished draw: the turns in order, exactly as many as asked for, or for a fraction up to the end
      of the round that passes it. */
  ghost predicate Drawn(ms: seq<Mutant>, draws: Stream, n: real, picked: seq<Mutant>, round: nat, p: nat) {
    var gs := Strata(ms, draws);
    InTurn(picked, gs, round, p) && |picked| as real >= n && (Whole(n) ==> |picked| as real == n) &&
    (!Whole(n) ==> p == |gs| && |Rounds(gs, round)| as real < n)
  }

  lemma Enough(ms: seq<Mutant>, draws: Stream, n: real, picked: seq<Mutant>, r: nat, round: nat, p: nat)
    requires Drawing(ms, draws, n, picked, r, round, p) && |picked| as real >= n > 0.0
    ensures Drawn(ms, draws, n, picked, round, p)
  {
  }

  /** The whole draw. A count that is not a number, is not positive or is not below the population gives
      the population; any other gives the turns in order, up to the count, or up to the end of the round
      in which a fractional count is passed. */
  method SampleMutants(ms: seq<Mutant>, n: Number, draws: Stream)
    returns (picked: seq<Mutant>, ghost round: nat, ghost p: nat)
    ensures n.NotFinite? || n.value <= 0.0 || n.value >= |ms| as real ==> picked == ms
    ensures n.Finite? && 0.0 < n.value < |ms| as real ==> Drawn(ms, draws, n.value, picked, round, p)
  {
    if n.NotFinite? || n.value <= 0.0 || n.value >= |ms| as real { return ms, 0, 0; }
    var groups := MakeGroups(ms, draws);
    picked, round, p := TakeTurns(groups, n.value, ms, draws);
  }

  /** Round after round, until there are enough. */
  method TakeTurns(groups: seq<seq<Mutant>>, n: real, ghost ms: seq<Mutant>, ghost draws: Stream)
    returns (picked: seq<Mutant>, ghost round: nat, ghost p: nat)
    requires groups == Strata(ms, draws) && 0.0 < n < |ms| as real
    ensures Drawn(ms, draws, n, picked, round, p)
  {
    picked, round, p := [], 0, 0;
    var r: nat := 0;
    StartDrawing(ms, draws, n);
    while |picked| as real < n
      invariant Drawing(ms, draws, n, picked, r, round, p)
      invariant |picked| <= |ms|
      decreases |ms| - |picked|
    {
      var tookAny;
      picked, tookAny, p := TakeNext(groups, r, n, picked, ms, draws, round, p);
      round := r;
      if !tookAny { break; }
      r := r + 1;
    }
    Enough(ms, draws, n, picked, r, round, p);
  }

  lemma {:induction false} FullRound(gs: seq<seq<Mutant>>)
    requires forall i :: 0 <= i < |gs| ==> gs[i] != []
    ensures |Round(gs, 0)| == |gs|
  {
    if gs != [] {
      FullRound(gs[1..]);
    }
  }

  lemma {:induction false} RoundsGrow(gs: seq<seq<Mutant>>, r: nat)
    requires r > 0
    ensures |Round(gs, 0)| <= |Rounds(gs, r)|
  {
    if r > 1 {
      RoundsGrow(gs, r - 1);
    } else {
      assert Rounds(gs, 0) == [];
    }
  }

  /** Asked for a fraction below one, the draw takes a mutant of every file: as many as there are files. */
  lemma FractionTakesOneOfEach(ms: seq<Mutant>, draws: Stream, n: real, picked: seq<Mutant>, round: nat, p: nat)
    requires Drawn(ms, draws, n, picked, round, p) && 0.0 < n < 1.0 && ms != []
    ensures |picked| == |Keys(ms)|
  {
    var gs := Strata(ms, draws);
    KeysAre(ms);
    GroupsStratified(ms, Keys(ms), draws);
    forall k | 0 <= k < |gs|
      ensures gs[k] != []
    {
      SeenIffGrouped(FileOf, ms, Keys(ms)[k]);
      CountGroup(ms, Keys(ms)[k]);
    }
    FullRound(gs);
    assert FileOf(ms[0]) in Keys(ms);
    if round > 0 {
      RoundsGrow(gs, round);
    }
    assert gs[..p] == gs && n.Floor == 0;
  }

  /** So half a mutant of two that are in different files is both of them. */
  lemma HalfIsTwo(a: Mutant, b: Mutant, draws: Stream, picked: seq<Mutant>, round: nat, p: nat)
    requires FileOf(a) != FileOf(b) && Drawn([a, b], draws, 0.5, picked, round, p)
    ensures |picked| == 2
  {
    TwoKeys(a, b);
    FractionTakesOneOfEach([a, b], draws, 0.5, picked, round, p);
  }

  lemma TwoKeys(a: Mutant, b: Mutant)
    requires FileOf(a) != FileOf(b)
    ensures |Keys([a, b])| == 2
  {
    var ms, x, y := [a, b], FileOf(a), FileOf(b);
    assert ms[..1] == [a] && [a][..0] == [];
    assert Seen(FileOf, [a]) == [x];
    assert Seen(FileOf, ms) == [x, y];
    SortLength(KeyBefore, [x, y]);
  }

  method MakeGroups(ms: seq<Mutant>, draws: Stream) returns (groups: seq<seq<Mutant>>)
    ensures groups == Strata(ms, draws)
  {
    var order, byFile := Group(FileOf, ms);
    KeysAre(ms);
    var keys := Sort(KeyBefore, order);
    assert forall i :: 0 <= i < |keys| ==> keys[i] in order;
    groups := ShuffleGroups(ms, keys, byFile, draws);
  }
}
