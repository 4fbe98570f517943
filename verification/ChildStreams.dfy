/** The world of a child running inside its parent (`child.ts`), as a function of what is done to it: a
    stack of frames, each with its input, how far that has been read, and what has been kept. */
module ChildStreams {
  type Byte = bv8
  type Bytes = seq<Byte>

  const CHUNK: nat := 0x1_0000
  const CAP: nat := 0x80_0000

  datatype Frame = Frame(argv: seq<string>, stdin: Bytes, at: nat, cwd: string, out: Bytes, err: Bytes)

  type Stack = seq<Frame>

  datatype Op =
    | Push(argv: seq<string>, stdin: Bytes, cwd: string)
    | Pop
    | ReadChunk
    | ReadAll
    | Write(bytes: Bytes)
    | Warn(bytes: Bytes)

  datatype Answer =
    | Done
    | Captured(out: Bytes, err: Bytes)
    | NoChild
    | Read(bytes: Bytes)
    | Kept(ok: bool)

  /** No frame has read past its input or kept more than the cap. */
  predicate Sane(s: Stack) {
    forall i :: 0 <= i < |s| ==> s[i].at <= |s[i].stdin| && |s[i].out| <= CAP
  }

  function Top(s: Stack): Frame
    requires s != []
  {
    s[|s| - 1]
  }

  function WithTop(s: Stack, f: Frame): Stack
    requires s != []
  {
    s[|s| - 1 := f]
  }

  function ChunkEnd(f: Frame): nat {
    if f.at + CHUNK <= |f.stdin| then f.at + CHUNK else |f.stdin|
  }

  function After(s: Stack, op: Op): Stack {
    match op
    case Push(argv, stdin, cwd) => s + [Frame(argv, stdin, 0, cwd, [], [])]
    case Pop => if s == [] then s else s[..|s| - 1]
    case ReadChunk => if s == [] then s else WithTop(s, Top(s).(at := ChunkEnd(Top(s))))
    case ReadAll => if s == [] then s else WithTop(s, Top(s).(at := |Top(s).stdin|))
    case Write(bytes) =>
      if s == [] || |Top(s).out| + |bytes| > CAP then s else WithTop(s, Top(s).(out := Top(s).out + bytes))
    case Warn(bytes) => if s == [] then s else WithTop(s, Top(s).(err := Top(s).err + bytes))
  }

  function AnswerTo(s: Stack, op: Op): Answer
    requires Sane(s)
  {
    match op
    case Push(_, _, _) => Done
    case Pop => if s == [] then Captured([], []) else Captured(Top(s).out, Top(s).err)
    case ReadChunk => if s == [] then NoChild else Read(Top(s).stdin[Top(s).at..ChunkEnd(Top(s))])
    case ReadAll => if s == [] then NoChild else Read(Top(s).stdin[Top(s).at..])
    case Write(bytes) => Kept(s != [] && |Top(s).out| + |bytes| <= CAP)
    case Warn(_) => Kept(s != [])
  }

  lemma StaysSane(s: Stack, op: Op)
    requires Sane(s)
    ensures Sane(After(s, op))
  {
  }

  // ---- Sequences of operations ----------------------------------------------------------------

  function Run(s: Stack, ops: seq<Op>): Stack
    decreases |ops|
  {
    if ops == [] then s else Run(After(s, ops[0]), ops[1..])
  }

  /** What each operation answers. */
  function Answers(s: Stack, ops: seq<Op>): seq<Answer>
    requires Sane(s)
    decreases |ops|
  {
    if ops == [] then []
    else
      StaysSane(s, ops[0]);
      [AnswerTo(s, ops[0])] + Answers(After(s, ops[0]), ops[1..])
  }

  /** Where a run has got to, after one more operation. */
  lemma OneMore(s: Stack, ops: seq<Op>, i: nat, answers: seq<Answer>)
    requires Sane(s) && i < |ops|
    ensures Sane(After(s, ops[i])) && Run(s, ops[i..]) == Run(After(s, ops[i]), ops[i + 1..])
    ensures answers + Answers(s, ops[i..]) == answers + [AnswerTo(s, ops[i])] + Answers(After(s, ops[i]), ops[i + 1..])
  {
    StaysSane(s, ops[i]);
    assert ops[i..][0] == ops[i] && ops[i..][1..] == ops[i + 1..];
  }

  /** Frame d is there before, between and after the operations: nothing pops it. */
  predicate Outlives(s: Stack, ops: seq<Op>, d: nat)
    decreases |ops|
  {
    d < |s| && (ops == [] || Outlives(After(s, ops[0]), ops[1..], d))
  }

  /** Everything read while frame d is innermost, in order. */
  function ReadBy(s: Stack, ops: seq<Op>, d: nat): Bytes
    requires Sane(s)
    decreases |ops|
  {
    if ops == [] then []
    else
      StaysSane(s, ops[0]);
      var a := AnswerTo(s, ops[0]);
      (if |s| == d + 1 && a.Read? then a.bytes else []) + ReadBy(After(s, ops[0]), ops[1..], d)
  }

  /** Everything frame d tried to write while innermost, in order, write by write. */
  function WrittenBy(s: Stack, ops: seq<Op>, d: nat): seq<Bytes>
    decreases |ops|
  {
    if ops == [] then []
    else
      (if |s| == d + 1 && ops[0].Write? then [ops[0].bytes] else []) + WrittenBy(After(s, ops[0]), ops[1..], d)
  }

  function WarnedBy(s: Stack, ops: seq<Op>, d: nat): seq<Bytes>
    decreases |ops|
  {
    if ops == [] then []
    else
      (if |s| == d + 1 && ops[0].Warn? then [ops[0].bytes] else []) + WarnedBy(After(s, ops[0]), ops[1..], d)
  }

  function Flatten(parts: seq<Bytes>): Bytes {
    if parts == [] then [] else parts[0] + Flatten(parts[1..])
  }

  /** Of these writes, each is kept whole if it fits under the cap beside those kept before it. */
  function Accept(kept: Bytes, writes: seq<Bytes>): Bytes
    decreases |writes|
  {
    if writes == [] then kept
    else Accept(if |kept| + |writes[0]| <= CAP then kept + writes[0] else kept, writes[1..])
  }

  lemma {:induction false} AcceptWithinCap(kept: Bytes, writes: seq<Bytes>)
    requires |kept| <= CAP
    ensures |Accept(kept, writes)| <= CAP && kept <= Accept(kept, writes)
    decreases |writes|
  {
    if writes != [] {
      AcceptWithinCap(if |kept| + |writes[0]| <= CAP then kept + writes[0] else kept, writes[1..]);
    }
  }

  /** Writes that fit all together are all kept. */
  lemma {:induction false} AcceptAll(kept: Bytes, writes: seq<Bytes>)
    requires |kept| + |Flatten(writes)| <= CAP
    ensures Accept(kept, writes) == kept + Flatten(writes)
    decreases |writes|
  {
    if writes != [] {
      AcceptAll(kept + writes[0], writes[1..]);
      assert kept + (writes[0] + Flatten(writes[1..])) == kept + writes[0] + Flatten(writes[1..]);
    }
  }

  /** From f to g a frame has read just these bytes of its input, from where it stood, and has kept those of
      these writes that it accepts, and these warnings. */
  predicate Lived(f: Frame, g: Frame, read: Bytes, written: seq<Bytes>, warned: Bytes) {
    g.argv == f.argv && g.cwd == f.cwd && g.stdin == f.stdin &&
    f.at <= g.at <= |f.stdin| && read == f.stdin[f.at..g.at] &&
    g.out == Accept(f.out, written) && g.err == f.err + warned
  }

  /** What one operation does to a frame that outlives it, and to the frames beneath. */
  lemma OneOp(s: Stack, op: Op, d: nat)
    requires Sane(s) && d < |s| && d < |After(s, op)|
    ensures var t := After(s, op);
      t[..d] == s[..d] && (|s| > d + 1 ==> t[d] == s[d]) &&
      Lived(s[d], t[d], if |s| == d + 1 && AnswerTo(s, op).Read? then AnswerTo(s, op).bytes else [],
            if |s| == d + 1 && op.Write? then [op.bytes] else [], if |s| == d + 1 && op.Warn? then op.bytes else [])
  {
    if |s| == d + 1 && op.Write? {
      assert [op.bytes][1..] == [];
    }
  }

  lemma LivedOn(f: Frame, g: Frame, h: Frame, r: Bytes, w: seq<Bytes>, e: Bytes, r': Bytes, w': seq<Bytes>, e': Bytes)
    requires Lived(f, g, r, w, e) && Lived(g, h, r', w', e')
    ensures Lived(f, h, r + r', w + w', e + e')
  {
    SlicesJoin(f.stdin, f.at, g.at, h.at);
    AcceptSplit(f.out, w, w');
  }

  lemma {:induction false} AcceptSplit(kept: Bytes, a: seq<Bytes>, b: seq<Bytes>)
    ensures Accept(kept, a + b) == Accept(Accept(kept, a), b)
    decreases |a|
  {
    if a == [] {
      assert a + b == b;
    } else {
      assert (a + b)[1..] == a[1..] + b;
      AcceptSplit(if |kept| + |a[0]| <= CAP then kept + a[0] else kept, a[1..], b);
    }
  }

  /** Whatever else happens above it, a frame reads a contiguous stretch of its own input from where it
      stood, keeps exactly its own accepted writes and warnings in order, and the frames beneath it do
      not change. */
  lemma FrameHistory(s: Stack, ops: seq<Op>, d: nat)
    requires Sane(s) && Outlives(s, ops, d)
    ensures var t := Run(s, ops);
      d < |t| && Sane(t) && t[..d] == s[..d] &&
      t[d].argv == s[d].argv && t[d].cwd == s[d].cwd && t[d].stdin == s[d].stdin &&
      s[d].at <= t[d].at <= |s[d].stdin| && ReadBy(s, ops, d) == s[d].stdin[s[d].at..t[d].at] &&
      t[d].out == Accept(s[d].out, WrittenBy(s, ops, d)) &&
      t[d].err == s[d].err + Flatten(WarnedBy(s, ops, d))
  {
    FrameLives(s, ops, d);
  }

  lemma {:induction false} FrameLives(s: Stack, ops: seq<Op>, d: nat)
    requires Sane(s) && Outlives(s, ops, d)
    ensures var t := Run(s, ops);
      d < |t| && Sane(t) && t[..d] == s[..d] &&
      Lived(s[d], t[d], ReadBy(s, ops, d), WrittenBy(s, ops, d), Flatten(WarnedBy(s, ops, d)))
    decreases |ops|
  {
    if ops != [] {
      var u, rest := After(s, ops[0]), ops[1..];
      StaysSane(s, ops[0]);
      OneOp(s, ops[0], d);
      FrameLives(u, rest, d);
      FlattenWarned(s, ops, d);
      LivedOn(s[d], u[d], Run(u, rest)[d],
              if |s| == d + 1 && AnswerTo(s, ops[0]).Read? then AnswerTo(s, ops[0]).bytes else [],
              if |s| == d + 1 && ops[0].Write? then [ops[0].bytes] else [],
              if |s| == d + 1 && ops[0].Warn? then ops[0].bytes else [],
              ReadBy(u, rest, d), WrittenBy(u, rest, d), Flatten(WarnedBy(u, rest, d)));
    }
  }

  lemma SlicesJoin(b: Bytes, i: nat, j: nat, k: nat)
    requires i <= j <= k <= |b|
    ensures b[i..j] + b[j..k] == b[i..k]
  {
  }

  lemma FlattenWarned(s: Stack, ops: seq<Op>, d: nat)
    requires ops != []
    ensures Flatten(WarnedBy(s, ops, d)) ==
      (if |s| == d + 1 && ops[0].Warn? then ops[0].bytes else []) + Flatten(WarnedBy(After(s, ops[0]), ops[1..], d))
  {
    var rest := WarnedBy(After(s, ops[0]), ops[1..], d);
    if |s| == d + 1 && ops[0].Warn? {
      assert ([ops[0].bytes] + rest)[1..] == rest;
    } else {
      assert WarnedBy(s, ops, d) == rest;
    }
  }

  /** A whole child: pushed, run with any operations that leave it innermost again, and popped. Its
      parent gets exactly the child's accepted writes and its warnings; what the child read is a prefix
      of its input; and the stack is what it was. */
  lemma ChildIsContained(s: Stack, argv: seq<string>, stdin: Bytes, cwd: string, ops: seq<Op>)
    requires Sane(s)
    requires var p := After(s, Push(argv, stdin, cwd)); Outlives(p, ops, |s|) && |Run(p, ops)| == |s| + 1
    ensures var p := After(s, Push(argv, stdin, cwd));
      var t := Run(p, ops);
      Sane(p) && Sane(t) && After(t, Pop) == s && ReadBy(p, ops, |s|) <= stdin &&
      AnswerTo(t, Pop) == Captured(Accept([], WrittenBy(p, ops, |s|)), Flatten(WarnedBy(p, ops, |s|)))
  {
    var p := After(s, Push(argv, stdin, cwd));
    FrameHistory(p, ops, |s|);
    assert p[..|s|] == s;
  }

  /** A write is kept exactly when the frame's output grows by just these bytes and stays within the cap;
      a write that is refused changes nothing, and so does one with no child running. */
  lemma KeptMeansKept(s: Stack, bytes: Bytes)
    requires Sane(s)
    ensures var t := After(s, Write(bytes));
      (AnswerTo(s, Write(bytes)) == Kept(true) <==>
        s != [] && |Top(s).out| + |bytes| <= CAP && t == s[..|s| - 1] + [Top(s).(out := Top(s).out + bytes)]) &&
      (AnswerTo(s, Write(bytes)) == Kept(true) || (AnswerTo(s, Write(bytes)) == Kept(false) && t == s)) &&
      (AnswerTo(s, Write(bytes)) == Kept(false) <==> s == [] || |Top(s).out| + |bytes| > CAP)
    ensures var t := After(s, Warn(bytes));
      if s == [] then t == s && AnswerTo(s, Warn(bytes)) == Kept(false)
      else t == s[..|s| - 1] + [Top(s).(err := Top(s).err + bytes)] && AnswerTo(s, Warn(bytes)) == Kept(true)
  {
    if s != [] {
      assert forall f :: WithTop(s, f) == s[..|s| - 1] + [f];
    }
  }

  /** Reading all gets everything that is left, and leaves nothing. */
  lemma ReadAllReadsAll(s: Stack)
    requires Sane(s) && s != []
    ensures AnswerTo(s, ReadAll) == Read(Top(s).stdin[Top(s).at..])
    ensures AnswerTo(After(s, ReadAll), ReadAll) == Read([]) && Sane(After(s, ReadAll))
  {
    StaysSane(s, ReadAll);
  }

  /** A read answers with nothing exactly when everything has been read, and a child that is running is
      never told to ask the host instead. */
  lemma EmptyReadMeansEnd(s: Stack)
    requires Sane(s)
    ensures AnswerTo(s, ReadChunk) == NoChild <==> s == []
    ensures s != [] ==> (AnswerTo(s, ReadChunk) == Read([]) <==> Top(s).at == |Top(s).stdin|)
    ensures s != [] ==> (AnswerTo(s, ReadAll) == Read([]) <==> Top(s).at == |Top(s).stdin|)
    ensures s != [] ==> |AnswerTo(s, ReadChunk).bytes| <= CHUNK
  {
    if s != [] {
      var f := Top(s);
      assert |f.stdin[f.at..ChunkEnd(f)]| == ChunkEnd(f) - f.at;
      assert |f.stdin[f.at..]| == |f.stdin| - f.at;
    }
  }

  /** Reading chunk by chunk gets everything: n reads reach the end as soon as n chunks would cover it. */
  lemma {:induction false} ReadsReachTheEnd(s: Stack, n: nat)
    requires Sane(s) && s != [] && |Top(s).stdin| - Top(s).at <= n * CHUNK
    ensures var ops := seq(n, _ => ReadChunk);
      ReadBy(s, ops, |s| - 1) == Top(s).stdin[Top(s).at..]
    decreases n
  {
    if n > 0 {
      var ops := seq(n, _ => ReadChunk);
      assert ops[0] == ReadChunk && ops[1..] == seq(n - 1, _ => ReadChunk);
      StaysSane(s, ReadChunk);
      ReadsReachTheEnd(After(s, ReadChunk), n - 1);
      FirstChunk(s, ops);
    }
  }

  lemma FirstChunk(s: Stack, ops: seq<Op>)
    requires Sane(s) && s != [] && ops != [] && ops[0] == ReadChunk && Sane(After(s, ReadChunk))
    requires ReadBy(After(s, ReadChunk), ops[1..], |s| - 1) == Top(s).stdin[ChunkEnd(Top(s))..]
    ensures ReadBy(s, ops, |s| - 1) == Top(s).stdin[Top(s).at..]
  {
    var f := Top(s);
    assert f.stdin[f.at..ChunkEnd(f)] + f.stdin[ChunkEnd(f)..] == f.stdin[f.at..];
  }

  // ---- Paths ----------------------------------------------------------------------------------

  function JoinPath(cwd: string, path: string): string {
    if cwd == "" || (path != "" && path[0] == '/') then path
    else if path == "" then cwd
    else if cwd[|cwd| - 1] == '/' then cwd + path
    else cwd + "/" + path
  }

  /** Standing in a directory and then in one beneath it is standing in the joined directory, for all
      strings: empty, absolute or with trailing slashes. */
  lemma JoinAssociates(a: string, b: string, c: string)
    ensures JoinPath(JoinPath(a, b), c) == JoinPath(a, JoinPath(b, c))
  {
    if a != "" && b != "" && b[0] != '/' && c != "" && c[0] != '/' {
      JoinIs(a, b);
      JoinIs(b, c);
      JoinIs(JoinPath(a, b), c);
      JoinIs(a, JoinPath(b, c));
      assert a + Slash(a) + b + Slash(b) + c == a + Slash(a) + (b + Slash(b) + c);
    }
  }

  /** Absolute paths are left alone, so is everything when there is no directory, and the empty path is the
      directory; any other path stands beneath it, behind one slash. */
  lemma JoinCases(cwd: string, path: string)
    ensures path != "" && path[0] == '/' ==> JoinPath(cwd, path) == path
    ensures JoinPath("", path) == path && JoinPath(cwd, "") == cwd
    ensures cwd != "" && cwd[|cwd| - 1] != '/' && path != "" && path[0] != '/' ==>
      JoinPath(cwd, path) == JoinPath(cwd + "/", path) == cwd + "/" + path
  {
  }

  function Slash(dir: string): string {
    if dir != "" && dir[|dir| - 1] == '/' then "" else "/"
  }

  lemma JoinIs(a: string, b: string)
    requires a != "" && b != "" && b[0] != '/'
    ensures JoinPath(a, b) == a + Slash(a) + b && JoinPath(a, b)[0] == a[0] && Slash(JoinPath(a, b)) == Slash(b)
  {
    assert a + "" + b == a + b;
  }
}
