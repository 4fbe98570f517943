/** `resolveFrom` and `wacFilesIn` (`harness/wacFiles.ts`): which files an entry reaches through its
    imports. What a source imports is a parameter: any function from source to specifiers. */
module WacFiles {
  import opened Paths

  // ---- Resolving one import -------------------------------------------------------------------

  function LastSlash(s: string): (k: int)
    ensures -1 <= k < |s| && (k >= 0 ==> s[k] == '/') && forall j :: k < j < |s| ==> s[j] != '/'
  {
    if s == "" then -1 else if s[|s| - 1] == '/' then |s| - 1 else LastSlash(s[..|s| - 1])
  }

  /** The directory of a path, "." when it has none. */
  function Dir(path: string): string {
    if LastSlash(path) >= 0 then path[..LastSlash(path)] else "."
  }

  function Base(path: string): string {
    path[LastSlash(path) + 1..]
  }

  function Resolve(from: string, spec: string): string {
    Key(Dir(from) + "/" + spec)
  }

  /** The loop in `resolveFrom`. */
  method ResolveFrom(from: string, spec: string) returns (r: string)
    ensures r == Resolve(from, spec)
  {
    var joined := Dir(from) + "/" + spec;
    var segments := Split(joined);
    var parts: seq<string> := [];
    for i := 0 to |segments|
      invariant Collapse(parts, segments[i..]) == Norm(segments)
    {
      var part := segments[i];
      assert segments[i..][0] == part && segments[i..][1..] == segments[i + 1..];
      if part == "." || part == "" { continue; }
      if part == ".." && |parts| > 0 && parts[|parts| - 1] != ".." {
        parts := parts[..|parts| - 1];
      } else {
        parts := parts + [part];
      }
    }
    return (if Absolute(joined) then "/" else "") + Join(parts);
  }

  lemma DirAndBase(path: string)
    ensures '/' !in Base(path)
    ensures path == if LastSlash(path) >= 0 then Dir(path) + "/" + Base(path) else Base(path)
    ensures Absolute(path) <==> Dir(path) == "" || Absolute(Dir(path))
  {
    CutAt(path, LastSlash(path));
  }

  lemma AbsoluteDir(path: string)
    ensures Absolute(path) <==> Dir(path) == "" || Absolute(Dir(path))
  {
    DirAndBase(path);
  }

  lemma CutAt(path: string, k: int)
    requires -1 <= k < |path| && (k >= 0 ==> path[k] == '/') && forall j :: k < j < |path| ==> path[j] != '/'
    ensures '/' !in path[k + 1..]
    ensures if k >= 0 then path == path[..k] + "/" + path[k + 1..] else path == path[k + 1..]
    ensures Absolute(path) <==> k >= 0 && (k == 0 || path[0] == '/')
  {
  }

  /** An import leads where the importing file's directory followed by the specifier leads, and its key is
      the spelling of that place, absolute when the importing file is. */
  lemma ResolveLeads(from: string, spec: string)
    ensures var w := Follow(Follow(Walk(0, []), Split(Dir(from))), Split(spec));
      Resolve(from, spec) == (if Absolute(from) then "/" else "") + Join(Spell(w)) &&
      Follow(Walk(0, []), Split(Resolve(from, spec))) == w
    ensures Absolute(Resolve(from, spec)) <==> Absolute(from)
  {
    var dir := Dir(from);
    KeySpells(dir + "/" + spec);
    SplitConcat(dir, spec);
    FollowConcat(Walk(0, []), Split(dir), Split(spec));
    Below(dir, spec);
    AbsoluteDir(from);
  }

  /** The same without the directory: the place of the importing file, its last name dropped, and then
      the specifier. */
  lemma ResolveFromPlace(from: string, spec: string)
    requires Name(Base(from))
    ensures var w := Follow(Walk(0, []), Split(from));
      w.names != [] && w.names[|w.names| - 1] == Base(from) &&
      Follow(Walk(0, []), Split(Resolve(from, spec))) == Follow(w.(names := w.names[..|w.names| - 1]), Split(spec))
  {
    var dir, base := Dir(from), Base(from);
    ResolveLeads(from, spec);
    DirAndBase(from);
    SplitOne(base);
    var d := Follow(Walk(0, []), Split(dir));
    assert [base][1..] == [];
    assert Follow(d, [base]) == Follow(Go(d, base), []);
    if LastSlash(from) >= 0 {
      SplitConcat(dir, base);
      FollowConcat(Walk(0, []), Split(dir), Split(base));
    } else {
      SplitOne(".");
      assert ["."][1..] == [];
      assert Follow(Walk(0, []), ["."]) == Follow(Go(Walk(0, []), "."), []);
    }
    assert (d.names + [base])[..|d.names|] == d.names;
  }

  /** In the plain case: a file imported from beside it, and from the directory above. */
  lemma ResolvePlain(d: string, x: string, m: string, n: string)
    requires Key(d) == d && d != "" && d != "/"
    requires Name(x) && Name(m) && Name(n) && '/' !in x && '/' !in m && '/' !in n
    ensures Resolve(d + "/" + m, "." + "/" + n) == d + "/" + n
    ensures Resolve(d + "/" + x + "/" + m, ".." + "/" + n) == d + "/" + n
  {
    DirOf(d, m);
    DirOf(d + "/" + x, m);
    SmallDetours(Norm(Split(d)), x);
    PlainKey(d, ".", n);
    PlainKey(d, x + "/" + "..", n);
    Regroup(d, x, n);
  }

  /** And beside a file with no directory, or in the root. */
  lemma ResolveBeside(m: string, n: string)
    requires Name(n) && '/' !in m && '/' !in n
    ensures Resolve(m, "." + "/" + n) == n && Resolve("" + "/" + m, "." + "/" + n) == "" + "/" + n
  {
    DirOf("", m);
    CutAt(m, -1);
    DotIsNowhere();
    SmallDetours([], n);
    DownTo([], ".", n);
    Below(".", "." + "/" + n);
    SplitOne("");
    assert [""][1..] == [];
    Below("", "." + "/" + n);
    assert Dir(m) == ".";
  }

  lemma Regroup(d: string, x: string, n: string)
    ensures d + "/" + x + "/" + (".." + "/" + n) == d + "/" + (x + "/" + ".." + "/" + n)
  {
  }

  lemma DirOf(d: string, m: string)
    requires '/' !in m
    ensures Dir(d + "/" + m) == d && Base(d + "/" + m) == m
  {
    var s := d + "/" + m;
    assert s[|d|] == '/' && forall j :: |d| < j < |s| ==> s[j] == m[j - |d| - 1];
  }

  lemma DownTo(at: seq<string>, detour: string, n: string)
    requires Collapse(at, Split(detour)) == at && Name(n) && '/' !in n
    ensures Collapse(at, Split(detour + "/" + n)) == at + [n]
  {
    SplitConcat(detour, n);
    CollapseConcat(at, Split(detour), Split(n));
    NormAppends(at, n);
  }

  /** What leads to a name below a normal directory is keyed as that name below it. */
  lemma PlainKey(d: string, detour: string, n: string)
    requires Key(d) == d && d != "" && d != "/" && Name(n) && '/' !in n
    requires Collapse(Norm(Split(d)), Split(detour)) == Norm(Split(d))
    ensures Key(d + "/" + (detour + "/" + n)) == d + "/" + n
  {
    DownTo(Norm(Split(d)), detour, n);
    Below(d, detour + "/" + n);
    Beneath(if Absolute(d) then "/" else "", Norm(Split(d)), n);
  }

  lemma Beneath(slash: string, parts: seq<string>, n: string)
    requires slash == "" || slash == "/"
    requires slash + Join(parts) != "" && slash + Join(parts) != "/"
    ensures slash + Join(parts + [n]) == slash + Join(parts) + "/" + n
  {
    assert parts != [] by {
      assert Join([]) == "" && slash + "" == slash;
    }
    JoinSnoc(parts, n);
  }

  lemma DotIsNowhere()
    ensures Norm(Split(".")) == []
  {
    SplitOne(".");
    assert ["."][1..] == [];
  }

  lemma NormAppends(at: seq<string>, base: string)
    requires Name(base) && '/' !in base
    ensures Collapse(at, Split(base)) == at + [base]
  {
    SplitOne(base);
    assert [base][1..] == [];
  }

  lemma NormOfNamed(path: string)
    requires Name(Base(path))
    ensures Norm(Split(path)) == Norm(Split(Dir(path))) + [Base(path)]
  {
    var dir, base := Dir(path), Base(path);
    DirAndBase(path);
    NormAppends(Norm(Split(dir)), base);
    if LastSlash(path) >= 0 {
      Below(dir, base);
    } else {
      DotIsNowhere();
    }
  }

  /** A path below a directory is absolute when the directory is, and its segments are appended. */
  lemma Below(dir: string, spec: string)
    ensures Norm(Split(dir + "/" + spec)) == Collapse(Norm(Split(dir)), Split(spec))
    ensures Absolute(dir + "/" + spec) <==> dir == "" || Absolute(dir)
  {
    SplitConcat(dir, spec);
    CollapseConcat([], Split(dir), Split(spec));
  }

  /** However the importing file is spelled, its imports get the same keys. */
  lemma ResolveFromRespelled(f: string, g: string, spec: string)
    requires Name(Base(f)) && Name(Base(g)) && Key(f) == Key(g)
    ensures Resolve(f, spec) == Resolve(g, spec)
  {
    SameDir(f, g);
    Below(Dir(f), spec);
    Below(Dir(g), spec);
  }

  lemma SameDir(f: string, g: string)
    requires Name(Base(f)) && Name(Base(g)) && Key(f) == Key(g)
    ensures Norm(Split(Dir(f))) == Norm(Split(Dir(g)))
    ensures Dir(f) == "" || Absolute(Dir(f)) <==> Dir(g) == "" || Absolute(Dir(g))
  {
    SameKeyParts(f, g);
    AbsoluteDir(f);
    AbsoluteDir(g);
    NormOfNamed(f);
    NormOfNamed(g);
    SameFront(Norm(Split(Dir(f))), Base(f), Norm(Split(Dir(g))), Base(g));
  }

  lemma SameFront(a: seq<string>, x: string, b: seq<string>, y: string)
    requires a + [x] == b + [y]
    ensures a == b
  {
    assert a == (a + [x])[..|a|] && b == (b + [y])[..|b|];
  }

  /** A detour that comes back to where it started may stand in front of a specifier. */
  lemma ResolveDetour(from: string, detour: string, spec: string)
    requires Collapse(Norm(Split(Dir(from))), Split(detour)) == Norm(Split(Dir(from)))
    ensures Resolve(from, detour + "/" + spec) == Resolve(from, spec)
  {
    var dir := Dir(from);
    Below(dir, detour + "/" + spec);
    Below(dir, spec);
    SplitConcat(detour, spec);
    CollapseConcat(Norm(Split(dir)), Split(detour), Split(spec));
  }

  /** So a specifier may be respelled with "./" in front, a doubled slash, or a way into any directory
      and out again; and a key is its own key. */
  lemma ResolveRespelled(from: string, x: string, spec: string)
    requires Name(x) && '/' !in x
    ensures Resolve(from, "." + "/" + spec) == Resolve(from, spec)
    ensures Resolve(from, "" + "/" + spec) == Resolve(from, spec)
    ensures Resolve(from, x + "/" + ".." + "/" + spec) == Resolve(from, spec)
    ensures Key(Resolve(from, spec)) == Resolve(from, spec)
  {
    var at := Norm(Split(Dir(from)));
    SmallDetours(at, x);
    ResolveDetour(from, ".", spec);
    ResolveDetour(from, "", spec);
    ResolveDetour(from, x + "/" + "..", spec);
    KeyIdempotent(Dir(from) + "/" + spec);
  }

  lemma SmallDetours(at: seq<string>, x: string)
    requires Name(x) && '/' !in x
    ensures Collapse(at, Split(".")) == at && Collapse(at, Split("")) == at && Collapse(at, Split(x + "/" + "..")) == at
  {
    SplitOne(".");
    SplitOne("");
    SplitTwo(x, "..");
    assert ["."][1..] == [] && [""][1..] == [] && [x, ".."][1..] == [".."] && [".."][1..] == [];
    var down := Enter(at, x);
    assert Enter(down, "..") == at;
    assert Collapse(down, [".."]) == Collapse(at, []);
    assert Collapse(at, [x, ".."]) == Collapse(down, [".."]);
  }

  // ---- The import graph -----------------------------------------------------------------------

  type Imports = string -> seq<string>

  /** The keys `path`, holding `source`, imports. */
  function Targets(imports: Imports, path: string, source: string): (r: seq<string>)
    ensures |r| == |imports(source)| && forall i :: 0 <= i < |r| ==> r[i] == Resolve(path, imports(source)[i])
  {
    seq(|imports(source)|, i requires 0 <= i < |imports(source)| => Resolve(path, imports(source)[i]))
  }

  /** A chain of imports through files that are present; its last path may be missing. */
  ghost predicate Chain(all: map<string, string>, imports: Imports, entry: string, chain: seq<string>) {
    chain != [] && chain[0] == entry && forall i :: 0 <= i < |chain| - 1 ==> Link(all, imports, chain, i)
  }

  ghost predicate Link(all: map<string, string>, imports: Imports, chain: seq<string>, i: nat)
    requires i < |chain| - 1
  {
    chain[i] in all && chain[i + 1] in Targets(imports, chain[i], all[chain[i]])
  }

  ghost predicate Asked(all: map<string, string>, imports: Imports, entry: string, path: string) {
    exists chain :: Chain(all, imports, entry, chain) && chain[|chain| - 1] == path
  }

  /** Exactly the present files some chain of imports leads to. */
  ghost function Closure(all: map<string, string>, imports: Imports, entry: string): map<string, string> {
    map p | p in all && Asked(all, imports, entry, p) :: all[p]
  }

  lemma AskedEntry(all: map<string, string>, imports: Imports, entry: string)
    ensures Asked(all, imports, entry, entry)
  {
    assert Chain(all, imports, entry, [entry]);
  }

  lemma AskedNext(all: map<string, string>, imports: Imports, entry: string, p: string, q: string)
    requires Asked(all, imports, entry, p) && p in all && q in Targets(imports, p, all[p])
    ensures Asked(all, imports, entry, q)
  {
    var chain :| Chain(all, imports, entry, chain) && chain[|chain| - 1] == p;
    var longer := chain + [q];
    forall i | 0 <= i < |longer| - 1
      ensures Link(all, imports, longer, i)
    {
      assert i < |chain| - 1 ==> Link(all, imports, chain, i);
    }
    assert longer[|longer| - 1] == q;
  }

  /** What the walk has read and has still to read covers everything its files import. */
  ghost predicate Covered(all: map<string, string>, imports: Imports, files: map<string, string>, queue: seq<string>) {
    forall p, q :: p in files && p in all && q in Targets(imports, p, all[p]) && q in all ==> q in files || q in queue
  }

  lemma {:induction false} ChainCovered(all: map<string, string>, imports: Imports, entry: string,
                                        files: map<string, string>,
                                        chain: seq<string>, k: nat)
    requires Chain(all, imports, entry, chain) && k < |chain| && Covered(all, imports, files, [])
    requires entry in all ==> entry in files
    ensures chain[k] in all ==> chain[k] in files
  {
    if k > 0 {
      ChainCovered(all, imports, entry, files, chain, k - 1);
      assert Link(all, imports, chain, k - 1);
    }
  }

  /** What holds whenever the walk looks at its queue. */
  ghost predicate Walking(all: map<string, string>, imports: Imports, entry: string, files: map<string, string>,
                          queue: seq<string>) {
    (forall p :: p in files ==> p in all && files[p] == all[p] && Asked(all, imports, entry, p)) &&
    (forall i :: 0 <= i < |queue| ==> Asked(all, imports, entry, queue[i])) &&
    (entry in all ==> entry in files || entry in queue) && Covered(all, imports, files, queue)
  }

  lemma Skipped(all: map<string, string>, imports: Imports, entry: string, files: map<string, string>,
                queue: seq<string>)
    requires queue != [] && Walking(all, imports, entry, files, queue) && (queue[0] in files || queue[0] !in all)
    ensures Walking(all, imports, entry, files, queue[1..])
  {
    assert forall q :: q in queue ==> q == queue[0] || q in queue[1..];
  }

  lemma Visited(all: map<string, string>, imports: Imports, entry: string, files: map<string, string>,
                queue: seq<string>)
    requires queue != [] && Walking(all, imports, entry, files, queue) && queue[0] in all && queue[0] !in files
    ensures var p := queue[0];
      Walking(all, imports, entry, files[p := all[p]], queue[1..] + Targets(imports, p, all[p]))
  {
    var p := queue[0];
    var rest := queue[1..];
    assert forall q :: q in queue ==> q == p || q in rest;
    Enqueued(all, imports, entry, p, rest, rest + Targets(imports, p, all[p]));
  }

  /** Once nothing is queued, everything asked for and present has been read. */
  lemma Finished(all: map<string, string>, imports: Imports, entry: string, files: map<string, string>)
    requires Walking(all, imports, entry, files, [])
    ensures files == Closure(all, imports, entry)
  {
    forall p | p in all && Asked(all, imports, entry, p)
      ensures p in files
    {
      var chain :| Chain(all, imports, entry, chain) && chain[|chain| - 1] == p;
      ChainCovered(all, imports, entry, files, chain, |chain| - 1);
    }
    assert files.Keys == Closure(all, imports, entry).Keys;
  }

  lemma Shrinks(all: map<string, string>, files: map<string, string>, path: string)
    requires path in all && path !in files
    ensures |all.Keys - files[path := all[path]].Keys| < |all.Keys - files.Keys|
  {
    assert all.Keys - files[path := all[path]].Keys == all.Keys - files.Keys - {path};
  }

  /** The walk. It ends on every graph, cyclic or not, and returns exactly the closure. */
  method WacFilesIn(all: map<string, string>, entry: string, imports: Imports) returns (files: map<string, string>)
    ensures files == Closure(all, imports, entry)
  {
    files := map[];
    var queue := [entry];
    AskedEntry(all, imports, entry);
    while queue != []
      invariant Walking(all, imports, entry, files, queue)
      decreases |all.Keys - files.Keys|, |queue|
    {
      var path := queue[0];
      if path in files || path !in all {
        Skipped(all, imports, entry, files, queue);
        queue := queue[1..];
        continue;
      }
      Visited(all, imports, entry, files, queue);
      var source := all[path];
      Shrinks(all, files, path);
      files := files[path := source];
      queue := Enqueue(queue[1..], path, source, imports);
    }
    Finished(all, imports, entry, files);
  }

  /** The inner loop: one path per import, at the back of the queue. */
  method Enqueue(queue: seq<string>, path: string, source: string, imports: Imports) returns (longer: seq<string>)
    ensures longer == queue + Targets(imports, path, source)
  {
    var specs := imports(source);
    ghost var targets := Targets(imports, path, source);
    longer := queue;
    for i := 0 to |specs|
      invariant longer == queue + targets[..i]
    {
      var target := ResolveFrom(path, specs[i]);
      assert targets[..i + 1] == targets[..i] + [target];
      longer := longer + [target];
    }
    assert targets[..|specs|] == targets;
  }

  lemma Enqueued(all: map<string, string>, imports: Imports, entry: string, path: string, rest: seq<string>,
                 queue: seq<string>)
    requires path in all && Asked(all, imports, entry, path) && queue == rest + Targets(imports, path, all[path])
    requires forall i :: 0 <= i < |rest| ==> Asked(all, imports, entry, rest[i])
    ensures forall i :: 0 <= i < |queue| ==> Asked(all, imports, entry, queue[i])
  {
    forall i | 0 <= i < |queue|
      ensures Asked(all, imports, entry, queue[i])
    {
      if i >= |rest| {
        AskedNext(all, imports, entry, path, queue[i]);
      }
    }
  }

  /** Every key but the entry's own spelling is in normal form, so a file is asked for under two keys
      only if the entry was spelled otherwise. */
  lemma AskedAreKeys(all: map<string, string>, imports: Imports, entry: string, p: string)
    requires Asked(all, imports, entry, p)
    ensures p == entry || Key(p) == p
  {
    var chain :| Chain(all, imports, entry, chain) && chain[|chain| - 1] == p;
    ChainEndsInKey(all, imports, entry, chain);
  }

  lemma ChainEndsInKey(all: map<string, string>, imports: Imports, entry: string, chain: seq<string>)
    requires Chain(all, imports, entry, chain)
    ensures var p := chain[|chain| - 1]; p == entry || Key(p) == p
  {
    if |chain| > 1 {
      var k := |chain| - 2;
      assert Link(all, imports, chain, k);
      TargetsAreKeys(imports, chain[k], all[chain[k]], chain[k + 1]);
    }
  }

  lemma TargetsAreKeys(imports: Imports, path: string, source: string, p: string)
    requires p in Targets(imports, path, source)
    ensures Key(p) == p
  {
    var targets := Targets(imports, path, source);
    var i :| 0 <= i < |targets| && p == targets[i];
    KeyIdempotent(Dir(path) + "/" + imports(source)[i]);
  }

  // ---- What does not matter -------------------------------------------------------------------

  /** The two trees agree on every path the entry asks for. */
  ghost predicate AgreeWhereAsked(a: map<string, string>, b: map<string, string>, imports: Imports, entry: string) {
    forall p :: Asked(a, imports, entry, p) ==> (p in a <==> p in b) && (p in a ==> a[p] == b[p])
  }

  lemma {:induction false} ChainCarries(a: map<string, string>, b: map<string, string>, imports: Imports, entry: string,
                                        chain: seq<string>)
    requires AgreeWhereAsked(a, b, imports, entry) && Chain(b, imports, entry, chain)
    ensures Chain(a, imports, entry, chain)
    decreases |chain|
  {
    if |chain| > 1 {
      var n := |chain| - 1;
      ChainFront(b, imports, entry, chain, n);
      ChainCarries(a, b, imports, entry, chain[..n]);
      assert Asked(a, imports, entry, chain[n - 1]) by { assert chain[..n][n - 1] == chain[n - 1]; }
      forall i | 0 <= i < n
        ensures Link(a, imports, chain, i)
      {
        assert Link(b, imports, chain, i);
        assert i < n - 1 ==> Link(a, imports, chain[..n], i);
      }
    }
  }

  lemma ChainFront(all: map<string, string>, imports: Imports, entry: string, chain: seq<string>, n: nat)
    requires Chain(all, imports, entry, chain) && 0 < n <= |chain|
    ensures Chain(all, imports, entry, chain[..n])
  {
    forall i | 0 <= i < n - 1
      ensures Link(all, imports, chain[..n], i)
    {
      assert Link(all, imports, chain, i);
    }
  }

  lemma ChainCarriesBack(a: map<string, string>, b: map<string, string>, imports: Imports, entry: string,
                         chain: seq<string>)
    requires AgreeWhereAsked(a, b, imports, entry) && Chain(a, imports, entry, chain)
    ensures Chain(b, imports, entry, chain)
  {
    forall i | 0 <= i < |chain| - 1
      ensures Link(b, imports, chain, i)
    {
      ChainFront(a, imports, entry, chain, i + 1);
      assert Asked(a, imports, entry, chain[i]) by { assert chain[..i + 1][i] == chain[i]; }
      assert Link(a, imports, chain, i);
    }
  }

  /** Files the entry does not ask for do not matter: added, removed or broken, the result is the same. */
  lemma UnaskedDoNotMatter(a: map<string, string>, b: map<string, string>, imports: Imports, entry: string)
    requires AgreeWhereAsked(a, b, imports, entry)
    ensures Closure(a, imports, entry) == Closure(b, imports, entry)
  {
    forall p
      ensures Asked(a, imports, entry, p) <==> Asked(b, imports, entry, p)
    {
      if Asked(a, imports, entry, p) {
        var chain :| Chain(a, imports, entry, chain) && chain[|chain| - 1] == p;
        ChainCarriesBack(a, b, imports, entry, chain);
      }
      if Asked(b, imports, entry, p) {
        var chain :| Chain(b, imports, entry, chain) && chain[|chain| - 1] == p;
        ChainCarries(a, b, imports, entry, chain);
      }
    }
  }

  /** Walking the result again gives the result: everything an included file reaches is included. */
  lemma ClosureIdempotent(all: map<string, string>, imports: Imports, entry: string)
    ensures Closure(Closure(all, imports, entry), imports, entry) == Closure(all, imports, entry)
  {
    UnaskedDoNotMatter(all, Closure(all, imports, entry), imports, entry);
  }
}
