/** Path normalisation (`resolveFrom` in `harness/wacFiles.ts`): on lists of segments, then on strings. */
module Paths {
  // ---- Segments -------------------------------------------------------------------------------

  /** One segment of the loop that collapses a path. */
  function Enter(at: seq<string>, part: string): seq<string> {
    if part == "." || part == "" then at
    else if part == ".." && |at| > 0 && at[|at| - 1] != ".." then at[..|at| - 1]
    else at + [part]
  }

  function Collapse(at: seq<string>, parts: seq<string>): seq<string>
    decreases |parts|
  {
    if parts == [] then at else Collapse(Enter(at, parts[0]), parts[1..])
  }

  function Norm(parts: seq<string>): seq<string> {
    Collapse([], parts)
  }

  /** A name: neither empty nor one of the two dots. */
  predicate Name(part: string) {
    part != "" && part != "." && part != ".."
  }

  /** Ups first, then names, and nothing else. */
  predicate Normal(parts: seq<string>) {
    forall i :: 0 <= i < |parts| ==>
      (Name(parts[i]) || parts[i] == "..") && (parts[i] == ".." ==> forall j :: 0 <= j < i ==> parts[j] == "..")
  }

  lemma EnterNormal(at: seq<string>, part: string)
    requires Normal(at)
    ensures Normal(Enter(at, part))
  {
    var r := Enter(at, part);
    forall i | 0 <= i < |r|
      ensures (Name(r[i]) || r[i] == "..") && (r[i] == ".." ==> forall j :: 0 <= j < i ==> r[j] == "..")
    {
      if i < |at| {
        assert r[i] == at[i];
      } else if part == ".." && |at| > 0 {
        assert at[|at| - 1] == "..";
      }
    }
  }

  lemma {:induction false} CollapseNormal(at: seq<string>, parts: seq<string>)
    requires Normal(at)
    ensures Normal(Collapse(at, parts))
    decreases |parts|
  {
    if parts != [] {
      EnterNormal(at, parts[0]);
      CollapseNormal(Enter(at, parts[0]), parts[1..]);
    }
  }

  lemma {:induction false} CollapseConcat(at: seq<string>, p: seq<string>, q: seq<string>)
    ensures Collapse(at, p + q) == Collapse(Collapse(at, p), q)
    decreases |p|
  {
    if p == [] {
      assert p + q == q;
    } else {
      assert (p + q)[1..] == p[1..] + q;
      CollapseConcat(Enter(at, p[0]), p[1..], q);
    }
  }

  lemma {:induction false} CollapseKeepsNormal(at: seq<string>, parts: seq<string>)
    requires Normal(at + parts)
    ensures Collapse(at, parts) == at + parts
    decreases |parts|
  {
    if parts == [] {
      assert at + parts == at;
    } else {
      var all := at + parts;
      assert all[|at|] == parts[0];
      assert |at| > 0 ==> all[|at| - 1] == at[|at| - 1];
      assert Enter(at, parts[0]) == at + [parts[0]];
      assert at + [parts[0]] + parts[1..] == all;
      CollapseKeepsNormal(at + [parts[0]], parts[1..]);
    }
  }

  /** Normalising twice is normalising once, and normalising a front part first changes nothing. */
  lemma NormIdempotent(p: seq<string>, q: seq<string>)
    ensures Norm(Norm(p)) == Norm(p)
    ensures Norm(p + q) == Norm(Norm(p) + q)
  {
    CollapseNormal([], p);
    assert [] + Norm(p) == Norm(p);
    CollapseKeepsNormal([], Norm(p));
    CollapseConcat([], p, q);
    CollapseConcat([], Norm(p), q);
  }

  /** Respelling a path with ".", an empty segment or a detour through any name changes nothing. */
  lemma Respell(p: seq<string>, x: string, q: seq<string>)
    requires Name(x)
    ensures Norm(p + ["."] + q) == Norm(p + q) && Norm(p + [""] + q) == Norm(p + q)
    ensures Norm(p + [x, ".."] + q) == Norm(p + q)
  {
    Detour(p, ["."], q);
    Detour(p, [""], q);
    var at := Norm(p);
    var down := Enter(at, x);
    assert [x, ".."][1..] == [".."] && [".."][1..] == [];
    assert Enter(down, "..") == at;
    assert Collapse(down, [".."]) == Collapse(at, []);
    assert Collapse(at, [x, ".."]) == Collapse(down, [".."]);
    Detour(p, [x, ".."], q);
  }

  lemma Detour(p: seq<string>, d: seq<string>, q: seq<string>)
    requires Collapse(Norm(p), d) == Norm(p)
    ensures Norm(p + d + q) == Norm(p + q)
  {
    CollapseConcat([], p, d);
    CollapseConcat([], p + d, q);
    CollapseConcat([], p, q);
  }

  // ---- What a path means ----------------------------------------------------------------------

  /** Where a path leads from an unknown directory: so many levels up, then down these names. */
  datatype Walk = Walk(ups: nat, names: seq<string>)

  function Go(w: Walk, part: string): Walk {
    if part == "." || part == "" then w
    else if part != ".." then w.(names := w.names + [part])
    else if w.names == [] then w.(ups := w.ups + 1)
    else w.(names := w.names[..|w.names| - 1])
  }

  function Follow(w: Walk, parts: seq<string>): Walk
    decreases |parts|
  {
    if parts == [] then w else Follow(Go(w, parts[0]), parts[1..])
  }

  function Spell(w: Walk): seq<string> {
    seq(w.ups, _ => "..") + w.names
  }

  predicate Clean(w: Walk) {
    forall i :: 0 <= i < |w.names| ==> Name(w.names[i])
  }

  lemma {:induction false} CollapseSpells(w: Walk, parts: seq<string>)
    requires Clean(w)
    ensures Collapse(Spell(w), parts) == Spell(Follow(w, parts)) && Clean(Follow(w, parts))
    decreases |parts|
  {
    if parts != [] {
      GoSpells(w, parts[0]);
      CollapseSpells(Go(w, parts[0]), parts[1..]);
    }
  }

  lemma GoSpells(w: Walk, part: string)
    requires Clean(w)
    ensures Enter(Spell(w), part) == Spell(Go(w, part)) && Clean(Go(w, part))
  {
    var at := Spell(w);
    if Name(part) {
      assert at + [part] == Spell(Go(w, part));
    } else if part == ".." {
      if w.names == [] {
        assert |at| > 0 ==> at[|at| - 1] == "..";
        assert at + [".."] == Spell(Go(w, part));
      } else {
        assert at[|at| - 1] == w.names[|w.names| - 1];
        assert at[..|at| - 1] == Spell(Go(w, part));
      }
    }
  }

  lemma SpellInjective(a: Walk, b: Walk)
    requires Clean(a) && Clean(b) && Spell(a) == Spell(b)
    ensures a == b
  {
    UpsFirst(a);
    UpsFirst(b);
    assert a.names == Spell(a)[a.ups..] && b.names == Spell(b)[b.ups..];
  }

  function LeadingUps(parts: seq<string>): nat {
    if parts == [] || parts[0] != ".." then 0 else 1 + LeadingUps(parts[1..])
  }

  lemma {:induction false} UpsFirst(w: Walk)
    requires Clean(w)
    ensures LeadingUps(Spell(w)) == w.ups
    decreases w.ups
  {
    if w.ups == 0 {
      assert Spell(w) == w.names;
    } else {
      assert Spell(w)[1..] == Spell(w.(ups := w.ups - 1));
      UpsFirst(w.(ups := w.ups - 1));
    }
  }

  /** Two paths have one normal form exactly when they lead to one place. */
  lemma SameNormIffSameWalk(p: seq<string>, q: seq<string>)
    ensures Norm(p) == Norm(q) <==> Follow(Walk(0, []), p) == Follow(Walk(0, []), q)
  {
    assert Spell(Walk(0, [])) == [];
    CollapseSpells(Walk(0, []), p);
    CollapseSpells(Walk(0, []), q);
    if Norm(p) == Norm(q) {
      SpellInjective(Follow(Walk(0, []), p), Follow(Walk(0, []), q));
    }
  }

  /** A normal form is the spelling of the place it leads to: ups first, then names. */
  lemma NormSpells(parts: seq<string>)
    ensures Norm(parts) == Spell(Follow(Walk(0, []), parts)) && Clean(Follow(Walk(0, []), parts))
  {
    assert Spell(Walk(0, [])) == [];
    CollapseSpells(Walk(0, []), parts);
  }

  lemma {:induction false} FollowConcat(w: Walk, p: seq<string>, q: seq<string>)
    ensures Follow(w, p + q) == Follow(Follow(w, p), q)
    decreases |p|
  {
    if p == [] {
      assert p + q == q;
    } else {
      assert (p + q)[1..] == p[1..] + q;
      FollowConcat(Go(w, p[0]), p[1..], q);
    }
  }

  // ---- Strings --------------------------------------------------------------------------------

  /** `s.split("/")`. */
  function Split(s: string): (r: seq<string>)
    ensures |r| >= 1 && forall i :: 0 <= i < |r| ==> '/' !in r[i]
  {
    if s == "" then [""]
    else if s[0] == '/' then [""] + Split(s[1..])
    else
      var r := Split(s[1..]);
      [[s[0]] + r[0]] + r[1..]
  }

  /** `parts.join("/")`. */
  function Join(parts: seq<string>): string {
    if parts == [] then ""
    else if |parts| == 1 then parts[0]
    else parts[0] + "/" + Join(parts[1..])
  }

  lemma {:induction false} SplitConcat(a: string, b: string)
    ensures Split(a + "/" + b) == Split(a) + Split(b)
  {
    var s := a + "/" + b;
    if a == "" {
      assert s[1..] == b;
    } else {
      assert s[0] == a[0] && s[1..] == a[1..] + "/" + b;
      SplitConcat(a[1..], b);
    }
  }

  lemma {:induction false} SplitOne(s: string)
    requires '/' !in s
    ensures Split(s) == [s]
  {
    if s != "" {
      SplitOne(s[1..]);
      assert [s[0]] + s[1..] == s;
    }
  }

  lemma {:induction false} SplitJoin(parts: seq<string>)
    requires parts != [] && forall i :: 0 <= i < |parts| ==> '/' !in parts[i]
    ensures Split(Join(parts)) == parts
  {
    SplitOne(parts[0]);
    if |parts| > 1 {
      SplitConcat(parts[0], Join(parts[1..]));
      SplitJoin(parts[1..]);
    }
  }

  predicate Absolute(s: string) {
    s != "" && s[0] == '/'
  }

  /** The key of a joined path: its segments collapsed, the leading slash kept. */
  function Key(joined: string): string {
    (if Absolute(joined) then "/" else "") + Join(Norm(Split(joined)))
  }

  /** A key spells the place its path leads to: the slash of an absolute path, so many "..", then names. */
  lemma KeySpells(s: string)
    ensures Key(s) == (if Absolute(s) then "/" else "") + Join(Spell(Follow(Walk(0, []), Split(s))))
    ensures Follow(Walk(0, []), Split(Key(s))) == Follow(Walk(0, []), Split(s)) && (Absolute(Key(s)) <==> Absolute(s))
  {
    NormSpells(Split(s));
    KeyParts(s);
    SameNormIffSameWalk(Split(Key(s)), Split(s));
  }

  lemma {:induction false} JoinSnoc(parts: seq<string>, last: string)
    requires parts != []
    ensures Join(parts + [last]) == Join(parts) + "/" + last
  {
    assert (parts + [last])[1..] == parts[1..] + [last];
    if |parts| > 1 {
      JoinSnoc(parts[1..], last);
      assert parts[0] + "/" + (Join(parts[1..]) + "/" + last) == parts[0] + "/" + Join(parts[1..]) + "/" + last;
    } else {
      assert (parts + [last])[1..] == [last];
    }
  }

  lemma {:induction false} CollapseNoSlash(at: seq<string>, parts: seq<string>)
    requires forall i :: 0 <= i < |at| ==> '/' !in at[i]
    requires forall i :: 0 <= i < |parts| ==> '/' !in parts[i]
    ensures forall i :: 0 <= i < |Collapse(at, parts)| ==> '/' !in Collapse(at, parts)[i]
    decreases |parts|
  {
    if parts != [] {
      CollapseNoSlash(Enter(at, parts[0]), parts[1..]);
    }
  }

  lemma JoinStart(parts: seq<string>)
    requires parts != [] && parts[0] != ""
    ensures Join(parts) != "" && Join(parts)[0] == parts[0][0]
  {
  }

  /** A key still says whether the path was absolute, and still has the same segments. */
  lemma KeyParts(s: string)
    ensures Absolute(Key(s)) <==> Absolute(s)
    ensures Norm(Split(Key(s))) == Norm(Split(s))
  {
    var parts := Norm(Split(s));
    CollapseNormal([], Split(s));
    CollapseNoSlash([], Split(s));
    NormIdempotent(Split(s), []);
    if parts == [] {
      assert Key(s) == "" || Key(s) == "/";
      assert Split("") == [""] && Norm([""]) == [];
      assert Split("/") == ["", ""] && ["", ""][1..] == [""] && Norm(["", ""]) == [];
    } else {
      JoinStart(parts);
      SplitJoin(parts);
      assert '/' !in parts[0] && parts[0][0] in parts[0];
      if Absolute(s) {
        SplitConcat("", Join(parts));
        assert Key(s) == "" + "/" + Join(parts);
        assert Split("") + parts == [""] + parts;
        assert ([""] + parts)[0] == "" && ([""] + parts)[1..] == parts;
      } else {
        assert Key(s) == Join(parts);
      }
    }
  }

  /** Two joined paths get one key exactly when both or neither is absolute and they lead to one place. */
  lemma SameKeyIff(s: string, t: string)
    ensures Key(s) == Key(t) <==>
      (Absolute(s) <==> Absolute(t)) && Follow(Walk(0, []), Split(s)) == Follow(Walk(0, []), Split(t))
  {
    SameNormIffSameWalk(Split(s), Split(t));
    if Key(s) == Key(t) {
      KeyParts(s);
      KeyParts(t);
    }
  }

  lemma SameKeyParts(s: string, t: string)
    requires Key(s) == Key(t)
    ensures Norm(Split(s)) == Norm(Split(t)) && (Absolute(s) <==> Absolute(t))
  {
    KeyParts(s);
    KeyParts(t);
  }

  lemma KeyIdempotent(s: string)
    ensures Key(Key(s)) == Key(s)
  {
    KeyParts(s);
  }

  /** Keying the front of a path first changes nothing, exactly when that does not lose the front: the
      key of a relative front that leads nowhere is empty, and what follows would become absolute. */
  lemma KeyOfFront(p: string, q: string)
    ensures Key(p + "/" + q) == Key(Key(p) + "/" + q) <==> (Key(p) == "" ==> p == "")
  {
    var s, t := p + "/" + q, Key(p) + "/" + q;
    KeyParts(p);
    SplitConcat(p, q);
    SplitConcat(Key(p), q);
    NormIdempotent(Split(p), Split(q));
    NormIdempotent(Split(Key(p)), Split(q));
    assert Absolute(s) <==> p == "" || Absolute(p);
    assert Absolute(t) <==> Key(p) == "" || Absolute(Key(p));
    assert Norm(Split(s)) == Norm(Split(t));
    KeyParts(s);
    KeyParts(t);
  }

  // ---- Above the root -------------------------------------------------------------------------

  /** Where an absolute path leads: the root is its own parent. */
  function FromRoot(at: seq<string>, parts: seq<string>): seq<string>
    decreases |parts|
  {
    if parts == [] then at
    else FromRoot(Go(Walk(0, at), parts[0]).names, parts[1..])
  }

  lemma {:induction false} FromRootIsFollow(w: Walk, parts: seq<string>)
    ensures FromRoot(w.names, parts) == Follow(w, parts).names
    decreases |parts|
  {
    if parts != [] {
      FromRootIsFollow(Go(w, parts[0]), parts[1..]);
    }
  }

  /** An absolute path gets the plain spelling of the place it leads to exactly when it never climbs
      above the root; one that does is keyed apart from the file it names. */
  lemma KeyOfAbsolute(s: string)
    requires Absolute(s)
    ensures Key(s) == "/" + Join(FromRoot([], Split(s))) <==> Follow(Walk(0, []), Split(s)).ups == 0
  {
    var w := Follow(Walk(0, []), Split(s));
    assert Spell(Walk(0, [])) == [];
    CollapseSpells(Walk(0, []), Split(s));
    FromRootIsFollow(Walk(0, []), Split(s));
    if w.ups == 0 {
      assert Spell(w) == w.names;
    } else {
      CollapseNoSlash([], Split(s));
      var up := Spell(w);
      assert up[0] == "..";
      assert w.names == up[w.ups..];
      assert Join(up) != Join(w.names) by {
        SplitJoin(up);
        if w.names != [] {
          SplitJoin(w.names);
          assert |up| != |w.names|;
        }
      }
      assert Key(s) == "/" + Join(up);
      assert ("/" + Join(up))[1..] == Join(up) && ("/" + Join(w.names))[1..] == Join(w.names);
    }
  }

  lemma SplitTwo(a: string, b: string)
    requires '/' !in a && '/' !in b
    ensures Split(a + "/" + b) == [a, b]
  {
    SplitConcat(a, b);
    SplitOne(a);
    SplitOne(b);
  }

  /** As here: one file at the root, two keys. */
  lemma KeyedApart(name: string)
    requires Name(name) && '/' !in name
    ensures var up, plain := "" + "/" + (".." + "/" + name), "" + "/" + name;
      FromRoot([], Split(up)) == FromRoot([], Split(plain)) == [name] && Key(up) != Key(plain)
  {
    var up, plain := "" + "/" + (".." + "/" + name), "" + "/" + name;
    SplitTwo("", name);
    SplitTwo("..", name);
    SplitConcat("", ".." + "/" + name);
    SplitOne("");
    assert Split(up) == ["", "..", name];
    TwoWalks(name);
    SameKeyIff(up, plain);
  }

  lemma TwoWalks(name: string)
    requires Name(name)
    ensures FromRoot([], ["", "..", name]) == [name] && FromRoot([], ["", name]) == [name]
    ensures Follow(Walk(0, []), ["", "..", name]) == Walk(1, [name]) &&
      Follow(Walk(0, []), ["", name]) == Walk(0, [name])
  {
    assert ["", "..", name][1..] == ["..", name] && ["..", name][1..] == [name] && ["", name][1..] == [name] &&
      [name][1..] == [];
    var root, above := Walk(0, []), Walk(1, []);
    assert forall w: Walk :: Follow(w, [name]) == Follow(Go(w, name), []) == w.(names := w.names + [name]);
    assert Follow(root, ["", name]) == Follow(root, [name]);
    assert Follow(root, ["", "..", name]) == Follow(root, ["..", name]);
    assert Follow(root, ["..", name]) == Follow(above, [name]);
    FromRootIsFollow(root, ["", "..", name]);
    FromRootIsFollow(root, ["", name]);
  }
}
