/** `ChildStack` (`child.ts`) on real arrays: what a child writes is copied, because the caller's array
    is a view of shared memory that the next call overwrites. Every method is proved against the stack
    of values in `ChildStreams`. */
module ChildStack {
  import opened Options
  import opened ChildStreams

  /** `subarray`: a window on somebody's array, not a copy. */
  datatype View = View(of: array<Byte>, lo: nat, hi: nat)

  /** The bytes of these parts, one after the other. */
  ghost function Contents(parts: seq<array<Byte>>): Bytes
    reads parts
  {
    if parts == [] then [] else Contents(parts[..|parts| - 1]) + parts[|parts| - 1][..]
  }

  lemma {:induction false} ContentsLonger(parts: seq<array<Byte>>, k: nat)
    requires k <= |parts|
    ensures |Contents(parts[..k])| <= |Contents(parts)|
  {
    if k < |parts| {
      ContentsLonger(parts[..|parts| - 1], k);
      assert parts[..|parts| - 1][..k] == parts[..k];
    } else {
      assert parts[..k] == parts;
    }
  }

  /** `out.set(part, at)`. */
  method SetAt(out: array<Byte>, part: array<Byte>, at: nat)
    requires out != part && at + part.Length <= out.Length
    modifies out
    ensures out[..at] == old(out[..at]) && out[..at + part.Length] == old(out[..at]) + part[..]
  {
    forall k | 0 <= k < part.Length { out[at + k] := part[k]; }
    assert out[at..at + part.Length] == part[..];
    assert out[..at] == old(out[..at]);
    assert out[..at + part.Length] == out[..at] + out[at..at + part.Length];
  }

  method Place(out: array<Byte>, parts: seq<array<Byte>>, i: nat, at: nat)
    requires i < |parts| && out !in parts && |Contents(parts[..i + 1])| <= out.Length
    requires at == |Contents(parts[..i])| && at <= out.Length && out[..at] == Contents(parts[..i])
    modifies out
    ensures at + parts[i].Length == |Contents(parts[..i + 1])| &&
      out[..at + parts[i].Length] == Contents(parts[..i + 1])
  {
    assert parts[..i + 1][..i] == parts[..i];
    SetAt(out, parts[i], at);
  }

  method TotalLength(parts: seq<array<Byte>>) returns (total: nat)
    ensures total == |Contents(parts)|
  {
    total := 0;
    for i := 0 to |parts|
      invariant total == |Contents(parts[..i])|
    {
      assert parts[..i + 1][..i] == parts[..i];
      total := total + parts[i].Length;
    }
    assert parts[..|parts|] == parts;
  }

  /** `concat`: one fresh array holding every part in order. */
  method Concat(parts: seq<array<Byte>>) returns (out: array<Byte>)
    ensures fresh(out) && out[..] == Contents(parts)
  {
    var total := TotalLength(parts);
    out := new Byte[total];
    var at := 0;
    for i := 0 to |parts|
      invariant at == |Contents(parts[..i])| <= total && out[..at] == Contents(parts[..i])
    {
      ContentsLonger(parts, i + 1);
      Place(out, parts, i, at);
      at := at + parts[i].Length;
    }
    assert parts[..|parts|] == parts;
    assert out[..at] == out[..];
  }

  method Copy(bytes: array<Byte>) returns (c: array<Byte>)
    ensures fresh(c) && c[..] == bytes[..]
  {
    c := new Byte[bytes.Length];
    forall k | 0 <= k < bytes.Length { c[k] := bytes[k]; }
  }

  /** The source's frame record. Only the stack holds it, so a changed record is a new value here; its
      arrays are shared and are not. */
  datatype Record = Record(
    argv: seq<string>, stdin: array<Byte>, at: nat, cwd: string,
    out: seq<array<Byte>>, err: seq<array<Byte>>, written: nat)

  /** This record holds what `f` says. */
  ghost predicate Holds(r: Record, f: Frame)
    reads r.stdin, r.out, r.err
  {
    r.argv == f.argv && r.cwd == f.cwd && r.stdin[..] == f.stdin && r.at == f.at &&
    Contents(r.out) == f.out && Contents(r.err) == f.err && r.written == |f.out|
  }

  /** Its copies belong to `owned`, and its input does not. */
  ghost predicate Within(r: Record, owned: set<array<Byte>>) {
    r.stdin !in owned && (forall k :: 0 <= k < |r.out| ==> r.out[k] in owned) &&
    (forall k :: 0 <= k < |r.err| ==> r.err[k] in owned)
  }

  /** The arrays the children read from. They are not copied here. */
  ghost function InputsOf(frames: seq<Record>): set<array<Byte>> {
    set i | 0 <= i < |frames| :: frames[i].stdin
  }

  lemma MoreInputs(a: seq<Record>, r: Record)
    ensures InputsOf(a + [r]) == InputsOf(a) + {r.stdin}
  {
    var b := a + [r];
    assert b[|a|] == r && forall i :: 0 <= i < |a| ==> b[i] == a[i];
  }

  lemma SameInputs(a: seq<Record>, k: nat, r: Record)
    requires k < |a| && r.stdin == a[k].stdin
    ensures InputsOf(a[k := r]) == InputsOf(a)
  {
    var b := a[k := r];
    assert forall i :: 0 <= i < |a| ==> b[i].stdin == a[i].stdin;
  }

  /** Keeps a copy of `bytes` in a record's output. */
  method KeepOut(r: Record, bytes: array<Byte>, ghost f: Frame) returns (kept: Record, c: array<Byte>)
    requires Holds(r, f)
    ensures fresh(c) && kept == r.(out := r.out + [c], written := r.written + bytes.Length)
    ensures Holds(kept, f.(out := f.out + bytes[..]))
  {
    c := Copy(bytes);
    assert (r.out + [c])[..|r.out|] == r.out;
    kept := r.(out := r.out + [c], written := r.written + bytes.Length);
  }

  method KeepErr(r: Record, bytes: array<Byte>, ghost f: Frame) returns (kept: Record, c: array<Byte>)
    requires Holds(r, f)
    ensures fresh(c) && kept == r.(err := r.err + [c])
    ensures Holds(kept, f.(err := f.err + bytes[..]))
  {
    c := Copy(bytes);
    assert (r.err + [c])[..|r.err|] == r.err;
    kept := r.(err := r.err + [c]);
  }

  class ChildStack {
    var frames: seq<Record>

    /** The kept copies: nobody else's arrays are ever among them. */
    ghost var owned: set<array<Byte>>
    /** The stack as values. */
    ghost var stack: Stack

    ghost function Inputs(): set<array<Byte>>
      reads this
    {
      InputsOf(frames)
    }

    ghost predicate Valid()
      reads this, owned, Inputs()
    {
      |stack| == |frames| && Sane(stack) &&
      forall i :: 0 <= i < |frames| ==> Within(frames[i], owned) && Holds(frames[i], stack[i])
    }

    constructor ()
      ensures Valid() && stack == [] && owned == {}
    {
      frames, owned, stack := [], {}, [];
    }

    /** Replaces the innermost frame; `copies` are new arrays it keeps. */
    method SetTop(r: Record, ghost f: Frame, ghost copies: set<array<Byte>>)
      requires Valid() && frames != [] && r.stdin == frames[|frames| - 1].stdin && Inputs() !! copies
      requires Holds(r, f) && Within(r, owned + copies) && Sane([f])
      modifies this
      ensures Valid() && owned == old(owned) + copies && stack == WithTop(old(stack), f) && Inputs() == old(Inputs())
    {
      SameInputs(frames, |frames| - 1, r);
      assert [f][0] == f;
      forall i | 0 <= i < |frames| - 1
        ensures Within(frames[i], owned + copies)
      {
        assert frames[i].stdin in Inputs();
      }
      frames := frames[|frames| - 1 := r];
      stack, owned := WithTop(stack, f), owned + copies;
    }

    method Push(argv: seq<string>, stdin: array<Byte>, cwd: string)
      requires Valid() && stdin !in owned
      modifies this
      ensures Valid() && owned == old(owned) && Inputs() == old(Inputs()) + {stdin}
      ensures stack == After(old(stack), Op.Push(argv, stdin[..], cwd))
    {
      MoreInputs(frames, Record(argv, stdin, 0, cwd, [], [], 0));
      frames := frames + [Record(argv, stdin, 0, cwd, [], [], 0)];
      stack := stack + [Frame(argv, stdin[..], 0, cwd, [], [])];
    }

    /** Both results are fresh arrays, and empty ones when nothing was pushed. */
    method Pop() returns (out: array<Byte>, err: array<Byte>)
      requires Valid()
      modifies this
      ensures Valid() && owned == old(owned) && Inputs() <= old(Inputs()) && fresh(out) && fresh(err)
      ensures Captured(out[..], err[..]) == AnswerTo(old(stack), Op.Pop) && stack == After(old(stack), Op.Pop)
    {
      if |frames| == 0 {
        out, err := new Byte[0], new Byte[0];
        return;
      }
      var frame := frames[|frames| - 1];
      out := Concat(frame.out);
      err := Concat(frame.err);
      frames := frames[..|frames| - 1];
      stack := stack[..|stack| - 1];
    }

    /** The child's arguments, or none when no child is running. */
    method Args() returns (r: Option<seq<string>>)
      requires Valid()
      ensures r == if stack == [] then None else Some(Top(stack).argv)
    {
      if |frames| == 0 { return None; }
      return Some(frames[|frames| - 1].argv);
    }

    method ReadChunk() returns (r: Option<View>)
      requires Valid()
      modifies this
      ensures Valid() && owned == old(owned) && Inputs() == old(Inputs()) && stack == After(old(stack), Op.ReadChunk)
      ensures r.None? <==> old(stack) == []
      ensures r.Some? ==> var v := r.value;
        v.lo <= v.hi <= v.of.Length && v.of !in owned && AnswerTo(old(stack), Op.ReadChunk) == Read(v.of[v.lo..v.hi])
    {
      if |frames| == 0 { return None; }
      var frame := frames[|frames| - 1];
      var end := if frame.at + CHUNK <= frame.stdin.Length then frame.at + CHUNK else frame.stdin.Length;
      r := Some(View(frame.stdin, frame.at, end));
      SetTop(frame.(at := end), Top(stack).(at := end), {});
    }

    method ReadAll() returns (r: Option<View>)
      requires Valid()
      modifies this
      ensures Valid() && owned == old(owned) && Inputs() == old(Inputs()) && stack == After(old(stack), Op.ReadAll)
      ensures r.None? <==> old(stack) == []
      ensures r.Some? ==> var v := r.value;
        v.lo <= v.hi <= v.of.Length && v.of !in owned && AnswerTo(old(stack), Op.ReadAll) == Read(v.of[v.lo..v.hi])
    {
      if |frames| == 0 { return None; }
      var frame := frames[|frames| - 1];
      r := Some(View(frame.stdin, frame.at, frame.stdin.Length));
      SetTop(frame.(at := frame.stdin.Length), Top(stack).(at := |Top(stack).stdin|), {});
    }

    /** Keeps a copy, or refuses what does not fit under the cap. */
    method Write(bytes: array<Byte>) returns (ok: bool)
      requires Valid()
      modifies this
      ensures Valid() && fresh(owned - old(owned)) && Inputs() == old(Inputs())
      ensures stack == After(old(stack), Op.Write(bytes[..])) && Kept(ok) == AnswerTo(old(stack), Op.Write(bytes[..]))
    {
      if |frames| == 0 { return false; }
      var frame := frames[|frames| - 1];
      if frame.written + bytes.Length > CAP { return false; }
      var kept, c := KeepOut(frame, bytes, Top(stack));
      ghost var f := Top(stack).(out := Top(stack).out + bytes[..]);
      assert |f.out| <= CAP && f.at <= |f.stdin|;
      assert Within(kept, owned + {c});
      SetTop(kept, f, {c});
      return true;
    }

    method Warn(bytes: array<Byte>) returns (ok: bool)
      requires Valid()
      modifies this
      ensures Valid() && fresh(owned - old(owned)) && Inputs() == old(Inputs())
      ensures stack == After(old(stack), Op.Warn(bytes[..])) && Kept(ok) == AnswerTo(old(stack), Op.Warn(bytes[..]))
    {
      if |frames| == 0 { return false; }
      var frame := frames[|frames| - 1];
      var kept, c := KeepErr(frame, bytes, Top(stack));
      ghost var f := Top(stack).(err := Top(stack).err + bytes[..]);
      assert |f.out| <= CAP && f.at <= |f.stdin|;
      assert Within(kept, owned + {c});
      SetTop(kept, f, {c});
      return true;
    }

    method Path(p: string) returns (r: string)
      requires Valid()
      ensures r == if stack == [] then p else JoinPath(Top(stack).cwd, p)
    {
      if |frames| == 0 { return p; }
      return JoinPath(frames[|frames| - 1].cwd, p);
    }
  }

  /** The hazard the copy is there for: a write, after which the caller's buffer holds something else. */
  method WriteThenOverwrite(s: ChildStack, buffer: array<Byte>, later: Bytes) returns (ok: bool)
    requires s.Valid() && buffer !in s.owned && buffer !in s.Inputs() && |later| == buffer.Length
    modifies s, buffer
    ensures s.Valid() && buffer !in s.owned && buffer !in s.Inputs() && buffer[..] == later
    ensures fresh(s.owned - old(s.owned)) && s.Inputs() == old(s.Inputs())
    ensures s.stack == After(old(s.stack), Write(old(buffer[..]))) &&
      Kept(ok) == AnswerTo(old(s.stack), Write(old(buffer[..])))
  {
    ok := s.Write(buffer);
    Overwrite(buffer, later);
  }

  method WarnThenOverwrite(s: ChildStack, buffer: array<Byte>, later: Bytes) returns (ok: bool)
    requires s.Valid() && buffer !in s.owned && buffer !in s.Inputs() && |later| == buffer.Length
    modifies s, buffer
    ensures s.Valid() && buffer !in s.owned && buffer !in s.Inputs() && buffer[..] == later
    ensures fresh(s.owned - old(s.owned)) && s.Inputs() == old(s.Inputs())
    ensures s.stack == After(old(s.stack), Warn(old(buffer[..]))) &&
      Kept(ok) == AnswerTo(old(s.stack), Warn(old(buffer[..])))
  {
    ok := s.Warn(buffer);
    Overwrite(buffer, later);
  }

  /** An array holding these bytes. */
  method Holding(bytes: Bytes) returns (a: array<Byte>)
    ensures fresh(a) && a[..] == bytes
  {
    a := new Byte[|bytes|](k requires 0 <= k < |bytes| => bytes[k]);
  }

  /** One operation, from a caller that scribbles over its buffer as soon as the call returns. */
  method Perform(s: ChildStack, op: Op) returns (a: Answer)
    requires s.Valid()
    modifies s
    ensures s.Valid() && fresh(s.owned - old(s.owned)) && fresh(s.Inputs() - old(s.Inputs()))
    ensures s.stack == After(old(s.stack), op) && a == AnswerTo(old(s.stack), op)
  {
    match op
    case Push(argv, stdin, cwd) =>
      var input := Holding(stdin);
      s.Push(argv, input, cwd);
      a := Done;
    case Pop =>
      var out, err := s.Pop();
      a := Captured(out[..], err[..]);
    case ReadChunk =>
      var r := s.ReadChunk();
      a := if r.None? then NoChild else Read(r.value.of[r.value.lo..r.value.hi]);
    case ReadAll =>
      var r := s.ReadAll();
      a := if r.None? then NoChild else Read(r.value.of[r.value.lo..r.value.hi]);
    case Write(bytes) =>
      var buffer := Holding(bytes);
      var ok := WriteThenOverwrite(s, buffer, seq(|bytes|, _ => 0));
      a := Kept(ok);
    case Warn(bytes) =>
      var buffer := Holding(bytes);
      var ok := WarnThenOverwrite(s, buffer, seq(|bytes|, _ => 0));
      a := Kept(ok);
  }

  /** Any operations at all, each write's buffer overwritten after the call: the stack and every answer
      are what the operations say, so nothing that was kept was ever a caller's buffer. */
  method Drive(s: ChildStack, ops: seq<Op>) returns (answers: seq<Answer>)
    requires s.Valid()
    modifies s
    ensures s.Valid() && s.stack == Run(old(s.stack), ops) && answers == Answers(old(s.stack), ops)
  {
    answers := [];
    ghost var start := s.stack;
    for i := 0 to |ops|
      invariant s.Valid() && fresh(s.owned - old(s.owned)) && fresh(s.Inputs() - old(s.Inputs()))
      invariant Run(s.stack, ops[i..]) == Run(start, ops)
      invariant answers + Answers(s.stack, ops[i..]) == Answers(start, ops)
    {
      OneMore(s.stack, ops, i, answers);
      var a := Perform(s, ops[i]);
      answers := answers + [a];
    }
  }

  /** Puts `bytes` at the front of the buffer. */
  method Overwrite(buffer: array<Byte>, bytes: Bytes)
    requires |bytes| <= buffer.Length
    modifies buffer
    ensures buffer[..] == bytes + old(buffer[|bytes|..])
  {
    forall k | 0 <= k < |bytes| { buffer[k] := bytes[k]; }
  }
}
