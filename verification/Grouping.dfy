/** Grouping a list by a key, as a map from key to list built in one pass. */
module Grouping {
  import opened Texts

  /** The items with this key, in their order. */
  function GroupOf<T>(key: T -> Text, xs: seq<T>, k: Text): seq<T> {
    if xs == [] then []
    else GroupOf(key, xs[..|xs| - 1], k) + if key(xs[|xs| - 1]) == k then [xs[|xs| - 1]] else []
  }

  /** A group is what the list holds at the places with its key, in the order of the list. */
  lemma {:induction false} GroupOrder<T>(key: T -> Text, xs: seq<T>, k: Text) returns (at: seq<nat>)
    ensures At(key, xs, k, at, GroupOf(key, xs, k))
  {
    at := [];
    if xs != [] {
      var was, n := xs[..|xs| - 1], |xs| - 1;
      var before := GroupOrder(key, was, k);
      assert xs == was + [xs[n]];
      at := OneLater(key, was, xs[n], k, before);
    }
  }

  /** `at` lists, in order, every place of the list with this key, and the group is what stands there. */
  ghost predicate At<T>(key: T -> Text, xs: seq<T>, k: Text, at: seq<nat>, group: seq<T>) {
    |at| == |group| &&
    (forall i, j :: 0 <= i < j < |at| ==> at[i] < at[j]) &&
    (forall i :: 0 <= i < |at| ==> at[i] < |xs| && group[i] == xs[at[i]]) &&
    (forall p :: 0 <= p < |xs| ==> (p in at <==> key(xs[p]) == k))
  }

  lemma OneLater<T>(key: T -> Text, xs: seq<T>, x: T, k: Text, at: seq<nat>) returns (at': seq<nat>)
    requires At(key, xs, k, at, GroupOf(key, xs, k))
    ensures At(key, xs + [x], k, at', GroupOf(key, xs + [x], k))
  {
    var all, group := xs + [x], GroupOf(key, xs, k);
    assert all[..|all| - 1] == xs;
    assert |xs| !in at;
    if key(x) == k {
      at' := at + [|xs|];
      assert forall p :: 0 <= p < |all| ==> (p in at' <==> p in at || p == |xs|);
    } else {
      at' := at;
    }
  }

  /** The keys, in the order they first appear. */
  function Seen<T>(key: T -> Text, xs: seq<T>): seq<Text> {
    if xs == [] then []
    else
      var before, k := Seen(key, xs[..|xs| - 1]), key(xs[|xs| - 1]);
      if k in before then before else before + [k]
  }

  predicate Distinct(ks: seq<Text>) {
    forall i, j :: 0 <= i < j < |ks| ==> ks[i] != ks[j]
  }

  lemma {:induction false} SeenAll<T(!new)>(key: T -> Text, xs: seq<T>)
    ensures Distinct(Seen(key, xs)) && forall x :: x in xs ==> key(x) in Seen(key, xs)
  {
    if xs != [] {
      var was, x := xs[..|xs| - 1], xs[|xs| - 1];
      SeenAll(key, was);
      assert xs == was + [x];
    }
  }

  lemma {:induction false} SeenIffGrouped<T>(key: T -> Text, xs: seq<T>, k: Text)
    ensures k in Seen(key, xs) <==> GroupOf(key, xs, k) != []
  {
    if xs != [] {
      SeenIffGrouped(key, xs[..|xs| - 1], k);
    }
  }

  /** Where the k-th key first appears, only earlier keys have been seen. */
  lemma {:induction false} FirstAppears<T(!new)>(key: T -> Text, xs: seq<T>, k: nat)
    requires k < |Seen(key, xs)|
    ensures exists i :: 0 <= i < |xs| && key(xs[i]) == Seen(key, xs)[k] && forall m :: 0 <= m < i ==>
      key(xs[m]) in Seen(key, xs)[..k]
  {
    var was := xs[..|xs| - 1];
    if k < |Seen(key, was)| {
      FirstAppears(key, was, k);
      var i :| 0 <= i < |was| && key(was[i]) == Seen(key, was)[k] && forall m :: 0 <= m < i ==>
        key(was[m]) in Seen(key, was)[..k];
      assert Seen(key, xs)[..k] == Seen(key, was)[..k];
      assert key(xs[i]) == Seen(key, xs)[k] && forall m :: 0 <= m < i ==> xs[m] == was[m];
    } else {
      SeenAll(key, was);
      assert Seen(key, xs)[..k] == Seen(key, was);
      assert forall m :: 0 <= m < |xs| - 1 ==> xs[m] == was[m] && was[m] in was;
      assert key(xs[|xs| - 1]) == Seen(key, xs)[k];
    }
  }

  /** One pass over the list. */
  method Group<T>(key: T -> Text, xs: seq<T>) returns (order: seq<Text>, groups: map<Text, seq<T>>)
    ensures order == Seen(key, xs) && (forall k :: k in groups <==> k in order)
    ensures forall k :: k in groups ==> groups[k] == GroupOf(key, xs, k)
  {
    order, groups := [], map[];
    for i := 0 to |xs|
      invariant order == Seen(key, xs[..i]) && forall k :: k in groups <==> k in order
      invariant forall k :: k in groups ==> groups[k] == GroupOf(key, xs[..i], k)
    {
      var x := xs[i];
      var k := key(x);
      assert xs[..i + 1][..i] == xs[..i];
      if k in groups {
        groups := groups[k := groups[k] + [x]];
      } else {
        SeenIffGrouped(key, xs[..i], k);
        order, groups := order + [k], groups[k := [x]];
      }
    }
    assert xs[..|xs|] == xs;
  }
}
