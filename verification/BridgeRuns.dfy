/** Runs of a bridge of any size, step by step: a failure too long for one piece, a success whose collect is
    cut short and repeated, and a handler that finishes after the responder has stopped. */
module BridgeRuns {
  import opened Options
  import opened BridgeModel

  /** A bridge whose first slot and first buffers are given and whose rest is untouched. */
  ghost function On(cfg: Config, sl: Slot, rq: Buf, rs: Buf, done: nat, w: Worker, h: Host, hs: map<nat, Handler>,
                    calls: seq<Call>): State
    requires cfg.Valid()
  {
    var z := Init(cfg);
    State(z.slots[0 := sl], z.req[0 := rq], z.res[0 := rs], done, false, 0, w, h, hs, calls)
  }

  lemma Twice<X>(s: seq<X>, x: X, y: X)
    requires 0 < |s|
    ensures s[0 := x][0 := y] == s[0 := y]
  {
  }

  /** A run, and the state it has reached. */
  ghost predicate Reaches(cfg: Config, labels: seq<Label>, trace: seq<State>, s: State) {
    IsRun(cfg, labels, trace) && trace[|labels|] == s
  }

  /** One more step of a run. */
  lemma Go(cfg: Config, labels: seq<Label>, trace: seq<State>, s: State, l: Label, t: State)
      returns (labels': seq<Label>, trace': seq<State>)
    requires Reaches(cfg, labels, trace, s) && Enabled(cfg, s, l) && t == Next(cfg, s, l)
    ensures Reaches(cfg, labels', trace', t) && labels' == labels + [l] && trace' == trace + [t]
  {
    labels', trace' := labels + [l], trace + [t];
    forall k | 0 <= k < |labels'|
      ensures StepAt(cfg, labels', trace', k)
    {
      if k < |labels| {
        assert StepAt(cfg, labels, trace, k);
        assert labels'[k] == labels[k] && trace'[k] == trace[k] && trace'[k + 1] == trace[k + 1];
      }
    }
  }

  function Bare(gen: nat, status: Status, stage: Stage, call: nat): Slot {
    Slot(status, gen, User(0), 0, 0, OK, -1, -1, [], [], OK, [], call, stage)
  }

  function Fresh(gen: nat, op: int): Call {
    Call(0, gen, op, [], 0, false, None, None, None, [], [], false, None, None)
  }

  const EMPTY: Buf := Buf(false, [], Nobody)
  const HELD: Buf := Buf(true, [], AtSlot(0))
  const IN_HAND: Buf := Buf(true, [], TheWorker)
  const HOST: Label := HostGo(Choice(true, [], 0))

  /** The first slot once an empty request has been published in it. */
  function Asking(sl: Slot, call: nat, op: int): Slot {
    sl.(status := Pending, call := call, stage := Asked, reqBuf := 0, op := User(op), reqLen := 0)
  }

  function Issued(gen: nat, op: int): Call {
    Fresh(gen, op).(issued := true)
  }

  /** A `submit` of an empty payload into a ring whose first slot and first buffer are free. */
  lemma SubmitEmpty(cfg: Config, labels: seq<Label>, trace: seq<State>, sl: Slot, done: nat, hs: map<nat, Handler>,
                    calls: seq<Call>, op: int)
      returns (labels': seq<Label>, trace': seq<State>)
    requires cfg.Valid() && sl.status == Free
    requires Reaches(cfg, labels, trace, On(cfg, sl, EMPTY, EMPTY, done, Idle, Watching, hs, calls))
    ensures Reaches(cfg, labels', trace',
      On(cfg, Asking(sl, |calls|, op), HELD, EMPTY, done, Idle, Watching, hs, calls + [Issued(sl.gen, op)]))
  {
    var z, f := Init(cfg), Fill(0, |calls|);
    var claimed := sl.(status := Claimed, call := |calls|, stage := Filling);
    var more := calls + [Fresh(sl.gen, op)];
    var s0 := On(cfg, sl, EMPTY, EMPTY, done, Idle, Watching, hs, calls);
    var s1 := s0.(worker := ClaimLoad(op, []));
    labels', trace' := Go(cfg, labels, trace, s0, Submit(op, []), s1);
    var s2 := s0.(worker := ClaimTry(op, [], done, 0, 0, -1));
    labels', trace' := Go(cfg, labels', trace', s1, WorkerGo, s2);
    Twice(z.slots, sl, claimed);
    var s3 := On(cfg, claimed, EMPTY, EMPTY, done, BufLoad(f), Watching, hs, more);
    labels', trace' := Go(cfg, labels', trace', s2, WorkerGo, s3);
    var s4 := s3.(worker := BufTry(f, done, 0));
    labels', trace' := Go(cfg, labels', trace', s3, WorkerGo, s4);
    Twice(z.req, EMPTY, IN_HAND);
    var s5 := On(cfg, claimed, IN_HAND, EMPTY, done, Publish(f, 0), Watching, hs, more);
    labels', trace' := Go(cfg, labels', trace', s4, WorkerGo, s5);
    PublishEmpty(cfg, sl, claimed, done, hs, calls, op);
    labels', trace' := Go(cfg, labels', trace', s5, WorkerGo,
      On(cfg, Asking(sl, |calls|, op), HELD, EMPTY, done, Idle, Watching, hs, calls + [Issued(sl.gen, op)]));
  }

  lemma PublishEmpty(cfg: Config, sl: Slot, claimed: Slot, done: nat, hs: map<nat, Handler>, calls: seq<Call>, op: int)
    requires cfg.Valid() && claimed == sl.(status := Claimed, call := |calls|, stage := Filling)
    ensures var f, more := Fill(0, |calls|), calls + [Fresh(sl.gen, op)];
      PublishStep(cfg, On(cfg, claimed, IN_HAND, EMPTY, done, Publish(f, 0), Watching, hs, more), f, 0) ==
      On(cfg, Asking(sl, |calls|, op), HELD, EMPTY, done, Idle, Watching, hs, calls + [Issued(sl.gen, op)])
  {
    var z, c, more := Init(cfg), |calls|, calls + [Fresh(sl.gen, op)];
    Twice(z.req, IN_HAND, HELD);
    Twice(z.slots, claimed, Asking(sl, c, op));
    assert more[c].payload[more[c].sent..] == [] && Overlay([], []) == [];
    assert more[c := more[c].(issued := true)] == calls + [Issued(sl.gen, op)];
  }

  /** The responder takes that request and starts its handler, at whatever generation the slot shows. */
  lemma TakeEmpty(cfg: Config, labels: seq<Label>, trace: seq<State>, sl: Slot, done: nat, w: Worker,
                  hs: map<nat, Handler>, calls: seq<Call>)
      returns (labels': seq<Label>, trace': seq<State>)
    requires cfg.Valid() && sl.status == Pending && sl.op.User? && sl.reqBuf == 0 && sl.reqLen == 0 && sl.partial == []
    requires sl.call < |calls|
    requires Reaches(cfg, labels, trace, On(cfg, sl, HELD, EMPTY, done, w, Watching, hs, calls))
    ensures Reaches(cfg, labels', trace',
      On(cfg, sl.(status := Running, reqBuf := -1, stage := Working), EMPTY, EMPTY, done + 1, w, Watching,
         hs[sl.call := Handler(0, sl.gen, sl.op.code, [])], calls[sl.call := calls[sl.call].(received := Some([]))]))
  {
    var z, taken := Init(cfg), sl.(reqBuf := -1);
    var s0 := On(cfg, sl, HELD, EMPTY, done, w, Watching, hs, calls);
    var s1 := s0.(host := At(0, Take));
    labels', trace' := Go(cfg, labels, trace, s0, See(0), s1);
    var s2 := s0.(host := At(0, Loaded(sl.gen, sl.op)));
    labels', trace' := Go(cfg, labels', trace', s1, HOST, s2);
    Twice(z.slots, sl, taken);
    Twice(z.req, HELD, EMPTY);
    var s3 := On(cfg, taken, EMPTY, EMPTY, done, w, At(0, Taken(sl.gen, sl.op, [], false)), hs, calls);
    labels', trace' := Go(cfg, labels', trace', s2, HOST, s3);
    var s4 := s3.(doneSeq := done + 1, host := At(0, Taken(sl.gen, sl.op, [], true)));
    labels', trace' := Go(cfg, labels', trace', s3, HOST, s4);
    var run := taken.(status := Running, stage := Working);
    Twice(z.slots, taken, run);
    assert sl.partial + [] == [];
    labels', trace' := Go(cfg, labels', trace', s4, HOST, On(cfg, run, EMPTY, EMPTY, done + 1, w, Watching,
      hs[sl.call := Handler(0, sl.gen, sl.op.code, [])], calls[sl.call := calls[sl.call].(received := Some([]))]));
  }

  /** The responder writes what it was about to reply into the first slot. */
  lemma WriteOut(cfg: Config, labels: seq<Label>, trace: seq<State>, s: State, status: ResStatus, body: Bytes)
      returns (labels': seq<Label>, trace': seq<State>)
    requires Reaches(cfg, labels, trace, s) && HostReady(cfg, s) && s.host == At(0, Reply(status, body))
    ensures Reaches(cfg, labels', trace', FillStep(cfg, s.(host := At(0, FillIn(status, body))), 0, status, body, 0))
  {
    var s1 := s.(host := At(0, Write(status, body, s.slots[0].gen)));
    labels', trace' := Go(cfg, labels, trace, s, HOST, s1);
    var s2 := s.(host := At(0, FillIn(status, body)));
    labels', trace' := Go(cfg, labels', trace', s1, HOST, s2);
    labels', trace' := Go(cfg, labels', trace', s2, HOST, FillStep(cfg, s2, 0, status, body, 0));
  }

  /** And publishes it, with the bump. */
  lemma PublishOut(cfg: Config, labels: seq<Label>, trace: seq<State>, s: State)
      returns (labels': seq<Label>, trace': seq<State>)
    requires Reaches(cfg, labels, trace, s) && HostReady(cfg, s) && s.host == At(0, PublishIt)
    requires s.slots[0].status == Running
    ensures Reaches(cfg, labels', trace',
      WithSlot(s, 0, s.slots[0].(status := Ready, stage := AfterPublish(s.slots[0].stage)))
        .(doneSeq := s.doneSeq + 1, host := Back(s)))
  {
    var ready := s.slots[0].(status := Ready, stage := AfterPublish(s.slots[0].stage));
    var s1 := WithSlot(s, 0, ready).(host := MustBump);
    labels', trace' := Go(cfg, labels, trace, s, HOST, s1);
    labels', trace' := Go(cfg, labels', trace', s1, HOST, s1.(doneSeq := s.doneSeq + 1, host := Back(s)));
  }

  /** A body that fits the inline area goes there. */
  lemma FillInline(cfg: Config, s: State, status: ResStatus, body: Bytes)
    requires 0 < |s.slots| && s.slots[0].call < |s.calls| && |body| <= cfg.inlineBytes
    requires s.calls[s.slots[0].call].answer.Some? ==> s.calls[s.slots[0].call].room.Some?
    ensures var sl := s.slots[0];
      FillStep(cfg, s, 0, status, body, 0) ==
      WithSlot(s, 0, sl.(resBuf := -1, inline := Overlay(sl.inline, body), resLen := |body|, resStatus := status))
        .(host := At(0, PublishIt))
  {
    assert body[..|body|] == body && s.calls[s.slots[0].call := s.calls[s.slots[0].call]] == s.calls;
  }

  // ---- An answer one byte longer than a buffer ------------------------------------------------

  function First(cfg: Config): Bytes {
    seq(cfg.bufBytes, _ => 7)
  }

  function Long(cfg: Config): Bytes {
    First(cfg) + [8]
  }

  /** The slot with the first piece ready, as the worker finds it. */
  function Piece(cfg: Config, st: ResStatus): Slot {
    Bare(0, Ready, Answered, 0)
      .(op := User(1), resBuf := 0, resLen := cfg.bufBytes, resStatus := MORE, tail := [8], finalStatus := st)
  }

  function Told(cfg: Config, st: ResStatus): Call {
    Issued(0, 1).(received := Some([]), answer := Some(Answer(st, Long(cfg))), room := Some(true))
  }

  /** The buffer that holds the first piece, and the same buffer once it has been read. */
  function Full(cfg: Config): Buf {
    Buf(true, First(cfg), AtSlot(0))
  }

  function Spent(cfg: Config): Buf {
    Buf(false, First(cfg), Nobody)
  }

  /** The first call of a fresh bridge, its handler running. */
  const WORKING: Slot := Bare(0, Running, Working, 0).(op := User(1))
  const HANDLERS: map<nat, Handler> := map[0 := Handler(0, 0, 1, [])]

  function Started(): Call {
    Issued(0, 1).(received := Some([]))
  }

  lemma StartOne(cfg: Config) returns (labels: seq<Label>, trace: seq<State>)
    requires cfg.Valid()
    ensures Reaches(cfg, labels, trace, On(cfg, WORKING, EMPTY, EMPTY, 1, Idle, Watching, HANDLERS, [Started()]))
  {
    var z, bare, c0 := Init(cfg), Bare(0, Free, Filling, 0), Issued(0, 1);
    labels, trace := [], [z];
    assert z.slots[0 := bare] == z.slots && z.req[0 := EMPTY] == z.req && z.res[0 := EMPTY] == z.res;
    labels, trace := SubmitEmpty(cfg, labels, trace, bare, 0, map[], [], 1);
    assert [] + [c0] == [c0];
    labels, trace := TakeEmpty(cfg, labels, trace, Asking(bare, 0, 1), 0, Idle, map[], [c0]);
    assert [c0][0 := Started()] == [Started()] && map[][0 := Handler(0, 0, 1, [])] == HANDLERS;
  }

  /** With a buffer free, the front of the answer fills it and the rest is kept for later. */
  lemma FillFirst(cfg: Config, st: ResStatus)
    requires cfg.Valid()
    ensures var call := Told(cfg, st).(room := None);
      var a := WORKING.(stage := Answering);
      FillStep(cfg, On(cfg, a, EMPTY, EMPTY, 1, Idle, At(0, FillIn(st, Long(cfg))), map[], [call]),
               0, st, Long(cfg), 0) ==
      On(cfg, Piece(cfg, st).(status := Running, stage := Answering), EMPTY, Full(cfg), 1, Idle, At(0, PublishIt),
         map[], [Told(cfg, st)])
  {
    var z, body, n, call := Init(cfg), Long(cfg), cfg.bufBytes, Told(cfg, st).(room := None);
    assert body[..n] == First(cfg) && body[n..] == [8] && Overlay([], First(cfg)) == First(cfg);
    Twice(z.slots, WORKING.(stage := Answering), Piece(cfg, st).(status := Running, stage := Answering));
    Twice(z.res, EMPTY, Full(cfg));
    assert !z.res[0 := EMPTY][0].held;
    assert [call][0 := Told(cfg, st)] == [Told(cfg, st)];
  }

  /** An empty request; its handler answers; the first piece is ready. */
  lemma FirstPiece(cfg: Config, st: ResStatus) returns (labels: seq<Label>, trace: seq<State>)
    requires cfg.Valid() && (st == OK || st == ERR)
    ensures Reaches(cfg, labels, trace,
      On(cfg, Piece(cfg, st), EMPTY, Full(cfg), 2, Idle, Watching, map[], [Told(cfg, st)]))
  {
    var z, a, call := Init(cfg), WORKING.(stage := Answering), Told(cfg, st).(room := None);
    labels, trace := StartOne(cfg);
    var s0 := On(cfg, WORKING, EMPTY, EMPTY, 1, Idle, Watching, HANDLERS, [Started()]);
    Twice(z.slots, WORKING, a);
    assert HANDLERS - {0} == map[] && [Started()][0 := call] == [call];
    var s1 := On(cfg, a, EMPTY, EMPTY, 1, Idle, At(0, Reply(st, Long(cfg))), map[], [call]);
    labels, trace := Go(cfg, labels, trace, s0, Finish(0, Answer(st, Long(cfg))), s1);
    labels, trace := WriteOut(cfg, labels, trace, s1, st, Long(cfg));
    FillFirst(cfg, st);
    var shown := Piece(cfg, st).(status := Running, stage := Answering);
    var s2 := On(cfg, shown, EMPTY, Full(cfg), 1, Idle, At(0, PublishIt), map[], [Told(cfg, st)]);
    labels, trace := PublishOut(cfg, labels, trace, s2);
    Twice(z.slots, shown, Piece(cfg, st));
  }

  /** The slot when the worker has read the first piece and asked for the rest. */
  function Next1(cfg: Config, st: ResStatus): Slot {
    Piece(cfg, st).(resBuf := -1, op := Continue, status := Pending, stage := Continuing)
  }

  function Read1(cfg: Config, st: ResStatus): Call {
    Told(cfg, st).(taken := First(cfg))
  }

  /** The worker is about to read the first piece. */
  lemma AboutToRead(cfg: Config, st: ResStatus) returns (labels: seq<Label>, trace: seq<State>)
    requires cfg.Valid() && (st == OK || st == ERR)
    ensures Reaches(cfg, labels, trace,
      On(cfg, Piece(cfg, st), EMPTY, Full(cfg), 2, Read(0, Collecting(0, [])), Watching, map[], [Told(cfg, st)]))
  {
    var calls, cont := [Told(cfg, st)], Collecting(0, []);
    labels, trace := FirstPiece(cfg, st);
    var s0 := On(cfg, Piece(cfg, st), EMPTY, Full(cfg), 2, Idle, Watching, map[], calls);
    assert calls[0 := calls[0].(lost := [])] == calls;
    var s1, s2, s3 := s0.(worker := AwaitLoad(0, cont)), s0.(worker := AwaitCheck(0, 2, cont)),
      s0.(worker := Read(0, cont));
    labels, trace := Go(cfg, labels, trace, s0, Collect(0), s1);
    labels, trace := Go(cfg, labels, trace, s1, WorkerGo, s2);
    labels, trace := Go(cfg, labels, trace, s2, WorkerGo, s3);
  }

  /** The worker takes that piece and asks for the rest. */
  lemma AskForMore(cfg: Config, st: ResStatus) returns (labels: seq<Label>, trace: seq<State>)
    requires cfg.Valid() && (st == OK || st == ERR)
    ensures Reaches(cfg, labels, trace, On(cfg, Next1(cfg, st), EMPTY, Spent(cfg), 2,
      AwaitLoad(0, Collecting(0, First(cfg))), Watching, map[], [Read1(cfg, st)]))
  {
    labels, trace := AboutToRead(cfg, st);
    ReadFirst(cfg, st);
    labels, trace := Go(cfg, labels, trace,
      On(cfg, Piece(cfg, st), EMPTY, Full(cfg), 2, Read(0, Collecting(0, [])), Watching, map[], [Told(cfg, st)]),
      WorkerGo, On(cfg, Next1(cfg, st), EMPTY, Spent(cfg), 2, AwaitLoad(0, Collecting(0, First(cfg))), Watching, map[],
                   [Read1(cfg, st)]));
  }

  lemma ReadFirst(cfg: Config, st: ResStatus)
    requires cfg.Valid()
    ensures var cont := Collecting(0, []);
      ReadStep(cfg, On(cfg, Piece(cfg, st), EMPTY, Full(cfg), 2, Read(0, cont), Watching, map[], [Told(cfg, st)]),
               0, cont) ==
      On(cfg, Next1(cfg, st), EMPTY, Spent(cfg), 2, AwaitLoad(0, Collecting(0, First(cfg))), Watching, map[],
         [Read1(cfg, st)])
  {
    var z, calls := Init(cfg), [Told(cfg, st)];
    Twice(z.slots, Piece(cfg, st), Next1(cfg, st));
    Twice(z.res, Full(cfg), Spent(cfg));
    assert Shown(Piece(cfg, st), z.res[0 := Full(cfg)]) == First(cfg) && [] + First(cfg) == First(cfg);
    assert calls[0 := calls[0].(taken := First(cfg))] == [Read1(cfg, st)];
  }

  function Rest(cfg: Config, st: ResStatus): Slot {
    Piece(cfg, st).(resBuf := -1, op := Continue, tail := [], inline := [8], resLen := 1, resStatus := st)
  }

  /** The responder takes that, whatever the worker is doing. */
  lemma TakeContinue(cfg: Config, st: ResStatus, labels: seq<Label>, trace: seq<State>, w: Worker)
      returns (labels': seq<Label>, trace': seq<State>)
    requires cfg.Valid()
    requires Reaches(cfg, labels, trace,
      On(cfg, Next1(cfg, st), EMPTY, Spent(cfg), 2, w, Watching, map[], [Read1(cfg, st)]))
    ensures Reaches(cfg, labels', trace',
      On(cfg, Next1(cfg, st).(status := Running, tail := [], stage := Answering), EMPTY, Spent(cfg), 3, w,
         At(0, Reply(st, [8])), map[], [Read1(cfg, st)]))
  {
    var z, sl := Init(cfg), Next1(cfg, st);
    var s0 := On(cfg, sl, EMPTY, Spent(cfg), 2, w, Watching, map[], [Read1(cfg, st)]);
    var s1, s2 := s0.(host := At(0, Take)), s0.(host := At(0, Loaded(0, Continue)));
    labels', trace' := Go(cfg, labels, trace, s0, See(0), s1);
    labels', trace' := Go(cfg, labels', trace', s1, HOST, s2);
    Twice(z.slots, sl, sl);
    var s3 := s0.(host := At(0, Taken(0, Continue, [], false)));
    labels', trace' := Go(cfg, labels', trace', s2, HOST, s3);
    var s4 := s0.(doneSeq := 3, host := At(0, Taken(0, Continue, [], true)));
    labels', trace' := Go(cfg, labels', trace', s3, HOST, s4);
    var a := sl.(status := Running, tail := [], stage := Answering);
    Twice(z.slots, sl, a);
    labels', trace' := Go(cfg, labels', trace', s4, HOST,
      On(cfg, a, EMPTY, Spent(cfg), 3, w, At(0, Reply(st, [8])), map[], [Read1(cfg, st)]));
  }

  /** And sends the rest. */
  lemma SendRest(cfg: Config, st: ResStatus, labels: seq<Label>, trace: seq<State>, w: Worker)
      returns (labels': seq<Label>, trace': seq<State>)
    requires cfg.Valid()
    requires Reaches(cfg, labels, trace,
      On(cfg, Next1(cfg, st), EMPTY, Spent(cfg), 2, w, Watching, map[], [Read1(cfg, st)]))
    ensures Reaches(cfg, labels', trace',
      On(cfg, Rest(cfg, st), EMPTY, Spent(cfg), 4, w, Watching, map[], [Read1(cfg, st)]))
  {
    var z, a := Init(cfg), Next1(cfg, st).(status := Running, tail := [], stage := Answering);
    labels', trace' := TakeContinue(cfg, st, labels, trace, w);
    var s1 := On(cfg, a, EMPTY, Spent(cfg), 3, w, At(0, Reply(st, [8])), map[], [Read1(cfg, st)]);
    labels', trace' := WriteOut(cfg, labels', trace', s1, st, [8]);
    FillInline(cfg, s1.(host := At(0, FillIn(st, [8]))), st, [8]);
    assert Overlay([], [8]) == [8];
    var shown := Rest(cfg, st).(status := Running, stage := Answering);
    Twice(z.slots, a, shown);
    var s2 := On(cfg, shown, EMPTY, Spent(cfg), 3, w, At(0, PublishIt), map[], [Read1(cfg, st)]);
    labels', trace' := PublishOut(cfg, labels', trace', s2);
    Twice(z.slots, shown, Rest(cfg, st));
  }

  /** A failure one byte longer than a buffer, with every buffer free, is raised as that byte. */
  lemma LongFailureCutShort(cfg: Config) returns (labels: seq<Label>, trace: seq<State>)
    requires cfg.Valid()
    ensures IsRun(cfg, labels, trace)
    ensures var calls := trace[|labels|].calls;
      |calls| == 1 && calls[0].answer == Some(Answer(ERR, Long(cfg))) && calls[0].outcome == Some(Answer(ERR, [8]))
  {
    var z, cont, sl := Init(cfg), Collecting(0, First(cfg)), Rest(cfg, ERR);
    labels, trace := AskForMore(cfg, ERR);
    labels, trace := SendRest(cfg, ERR, labels, trace, AwaitLoad(0, cont));
    var s0 := On(cfg, sl, EMPTY, Spent(cfg), 4, AwaitLoad(0, cont), Watching, map[], [Read1(cfg, ERR)]);
    var s1, s2 := s0.(worker := AwaitCheck(0, 4, cont)), s0.(worker := Read(0, cont));
    labels, trace := Go(cfg, labels, trace, s0, WorkerGo, s1);
    labels, trace := Go(cfg, labels, trace, s1, WorkerGo, s2);
    assert Shown(sl, z.res[0 := Spent(cfg)]) == [8];
    labels, trace := Go(cfg, labels, trace, s2, WorkerGo, Next(cfg, s2, WorkerGo));
  }

  // ---- The host goes --------------------------------------------------------------------------

  /** The worker has asked for the rest and is about to wait for it. */
  function Sleepy(cfg: Config): Worker {
    Park(2, ForReady(0, Collecting(0, First(cfg))), Before)
  }

  lemma AboutToSleep(cfg: Config) returns (labels: seq<Label>, trace: seq<State>)
    requires cfg.Valid()
    ensures Reaches(cfg, labels, trace,
      On(cfg, Next1(cfg, OK), EMPTY, Spent(cfg), 2, Sleepy(cfg), Watching, map[], [Read1(cfg, OK)]))
  {
    var cont := Collecting(0, First(cfg));
    labels, trace := AskForMore(cfg, OK);
    var s0 := On(cfg, Next1(cfg, OK), EMPTY, Spent(cfg), 2, AwaitLoad(0, cont), Watching, map[], [Read1(cfg, OK)]);
    var s1 := s0.(worker := AwaitCheck(0, 2, cont));
    labels, trace := Go(cfg, labels, trace, s0, WorkerGo, s1);
    labels, trace := Go(cfg, labels, trace, s1, WorkerGo, s0.(worker := Sleepy(cfg)));
  }

  /** A success of that length: the host goes after the first piece was read and the second announced, but
      before the worker sleeps. The collect throws; collected again, the call succeeds with the rest alone. */
  lemma SuccessCutShort(cfg: Config) returns (labels: seq<Label>, trace: seq<State>)
    requires cfg.Valid()
    ensures IsRun(cfg, labels, trace)
    ensures var calls := trace[|labels|].calls;
      |calls| == 1 && calls[0].answer == Some(Answer(OK, Long(cfg))) && calls[0].failed == None &&
      calls[0].lost == First(cfg) && calls[0].outcome == Some(Answer(OK, [8]))
  {
    var calls := [Read1(cfg, OK)];
    labels, trace := AboutToSleep(cfg);
    labels, trace := SendRest(cfg, OK, labels, trace, Sleepy(cfg));
    var s1 := On(cfg, Rest(cfg, OK), EMPTY, Spent(cfg), 4, Sleepy(cfg), Watching, map[], calls);
    var s2 := s1.(gone := true, host := Failing);
    labels, trace := Go(cfg, labels, trace, s1, Stop, s2);
    assert calls[0 := calls[0].(threw := true)] == [Read1(cfg, OK).(threw := true)];
    labels, trace := Go(cfg, labels, trace, s2, WorkerGo,
      s2.(worker := Idle, calls := [Read1(cfg, OK).(threw := true)]));
    labels, trace := CollectAgain(cfg, labels, trace);
  }

  lemma CollectAgain(cfg: Config, labels: seq<Label>, trace: seq<State>)
      returns (labels': seq<Label>, trace': seq<State>)
    requires cfg.Valid()
    requires Reaches(cfg, labels, trace,
      On(cfg, Rest(cfg, OK), EMPTY, Spent(cfg), 4, Idle, Failing, map[], [Read1(cfg, OK).(threw := true)])
        .(gone := true))
    ensures IsRun(cfg, labels', trace')
    ensures trace'[|labels'|].calls ==
      [Read1(cfg, OK).(threw := true, lost := First(cfg), outcome := Some(Answer(OK, [8])))]
  {
    var z, cont, call := Init(cfg), Collecting(0, []), Read1(cfg, OK).(threw := true);
    var again := [call.(lost := First(cfg))];
    var s0 := On(cfg, Rest(cfg, OK), EMPTY, Spent(cfg), 4, Idle, Failing, map[], [call]).(gone := true);
    assert [call][0 := call.(lost := First(cfg))] == again;
    var s1 := s0.(worker := AwaitLoad(0, cont), calls := again);
    labels', trace' := Go(cfg, labels, trace, s0, Collect(0), s1);
    var s2, s3 := s1.(worker := AwaitCheck(0, 4, cont)), s1.(worker := Read(0, cont));
    labels', trace' := Go(cfg, labels', trace', s1, WorkerGo, s2);
    labels', trace' := Go(cfg, labels', trace', s2, WorkerGo, s3);
    assert [] + Shown(Rest(cfg, OK), z.res[0 := Spent(cfg)]) == [8];
    labels', trace' := Go(cfg, labels', trace', s3, WorkerGo, Next(cfg, s3, WorkerGo));
    assert again[0 := again[0].(outcome := Some(Answer(OK, [8])))] == [again[0].(outcome := Some(Answer(OK, [8])))];
  }

  /** The sweep passes the free slots, and ends. */
  lemma {:induction false} SweepRest(cfg: Config, labels: seq<Label>, trace: seq<State>, s: State)
      returns (labels': seq<Label>, trace': seq<State>)
    requires Reaches(cfg, labels, trace, s) && HostReady(cfg, s) && s.host == Failing && s.sweep <= |s.slots|
    requires forall i :: s.sweep <= i < |s.slots| ==> s.slots[i].status == Free
    ensures Reaches(cfg, labels', trace', s.(doneSeq := s.doneSeq + 1, sweep := |s.slots| + 1, host := Gone))
    decreases |s.slots| - s.sweep
  {
    var t := FailStep(s, []);
    labels', trace' := Go(cfg, labels, trace, s, HOST, t);
    if s.sweep < |s.slots| {
      labels', trace' := SweepRest(cfg, labels', trace', t);
    }
  }

  /** The message the responder fails calls with, and an answer that does not fit the inline area. */
  const WHY: Bytes := [5]

  function Large(cfg: Config): Bytes {
    seq(cfg.inlineBytes + 1, _ => 9)
  }

  /** The slot that has been failed, and the record of its call. */
  function FailedSlot(): Slot {
    WORKING.(status := Ready, inline := WHY, resLen := 1, resStatus := ERR)
  }

  function FailedCall(): Call {
    Started().(failed := Some(WHY))
  }

  /** A bridge that has stopped, with the call failed and its handler still running. */
  ghost function Stopped(cfg: Config, sl: Slot, rs: Buf, w: Worker, h: Host, hs: map<nat, Handler>, call: Call): State
    requires cfg.Valid()
  {
    On(cfg, sl, EMPTY, rs, 3, w, h, hs, [call]).(gone := true, sweep := cfg.slots + 1)
  }

  lemma StopOne(cfg: Config) returns (labels: seq<Label>, trace: seq<State>)
    requires cfg.Valid()
    ensures Reaches(cfg, labels, trace, Stopped(cfg, FailedSlot(), EMPTY, Idle, Gone, HANDLERS, FailedCall()))
  {
    var z, fail := Init(cfg), HostGo(Choice(true, WHY, 0));
    labels, trace := StartOne(cfg);
    var s0 := On(cfg, WORKING, EMPTY, EMPTY, 1, Idle, Watching, HANDLERS, [Started()]);
    var s1 := s0.(gone := true, host := Failing);
    labels, trace := Go(cfg, labels, trace, s0, Stop, s1);
    assert [Started()][0 := FailedCall()] == [FailedCall()];
    var s2 := s1.(sweep := 1, calls := [FailedCall()], host := At(0, Reply(ERR, WHY)));
    labels, trace := Go(cfg, labels, trace, s1, fail, s2);
    labels, trace := WriteOut(cfg, labels, trace, s2, ERR, WHY);
    FillInline(cfg, s2.(host := At(0, FillIn(ERR, WHY))), ERR, WHY);
    assert Overlay([], WHY) == WHY;
    var shown := FailedSlot().(status := Running);
    Twice(z.slots, WORKING, shown);
    var s3 := s2.(slots := z.slots[0 := shown], host := At(0, PublishIt));
    labels, trace := PublishOut(cfg, labels, trace, s3);
    Twice(z.slots, shown, FailedSlot());
    var s4 := s3.(slots := z.slots[0 := FailedSlot()], doneSeq := 2, host := Failing);
    labels, trace := SweepRest(cfg, labels, trace, s4);
  }

  /** The slot the late answer was written over: its length and status, the failure's bytes. */
  function Mixed(cfg: Config): Slot {
    FailedSlot().(stage := Answering, resLen := cfg.inlineBytes + 1, resStatus := OK)
  }

  function LateCall(cfg: Config, room: Option<bool>): Call {
    FailedCall().(answer := Some(Answer(OK, Large(cfg))), room := room)
  }

  lemma FillLate(cfg: Config)
    requires cfg.Valid() && cfg.inlineBytes < cfg.bufBytes
    ensures var s := Stopped(cfg, FailedSlot().(stage := Answering), EMPTY, Idle, At(0, FillIn(OK, Large(cfg))), map[],
                             LateCall(cfg, None));
      FillStep(cfg, s, 0, OK, Large(cfg), 0) ==
      Stopped(cfg, Mixed(cfg).(resBuf := 0), Buf(true, Large(cfg), AtSlot(0)), Idle, At(0, PublishIt), map[],
              LateCall(cfg, Some(true)))
  {
    var z, body := Init(cfg), Large(cfg);
    assert body[..|body|] == body && Overlay([], body) == body;
    Twice(z.slots, FailedSlot().(stage := Answering), Mixed(cfg).(resBuf := 0));
    Twice(z.res, EMPTY, Buf(true, body, AtSlot(0)));
    assert !z.res[0 := EMPTY][0].held;
    assert [LateCall(cfg, None)][0 := LateCall(cfg, Some(true))] == [LateCall(cfg, Some(true))];
  }

  /** A handler that finishes after the responder has stopped and failed its call: a large success is written
      over the failure and then not published, and the worker reads the failure's bytes as a success. */
  lemma LateHandlerCorrupts(cfg: Config) returns (labels: seq<Label>, trace: seq<State>)
    requires cfg.Valid() && cfg.inlineBytes < cfg.bufBytes
    ensures IsRun(cfg, labels, trace)
    ensures var calls := trace[|labels|].calls;
      |calls| == 1 && calls[0].failed == Some(WHY) && calls[0].answer == Some(Answer(OK, Large(cfg))) &&
      calls[0].outcome == Some(Answer(OK, WHY))
  {
    var z, sl := Init(cfg), FailedSlot().(stage := Answering);
    labels, trace := StopOne(cfg);
    Twice(z.slots, FailedSlot(), sl);
    assert HANDLERS - {0} == map[] && [FailedCall()][0 := LateCall(cfg, None)] == [LateCall(cfg, None)];
    var s1 := Stopped(cfg, sl, EMPTY, Idle, At(0, Reply(OK, Large(cfg))), map[], LateCall(cfg, None));
    labels, trace := Go(cfg, labels, trace, Stopped(cfg, FailedSlot(), EMPTY, Idle, Gone, HANDLERS, FailedCall()),
      Finish(0, Answer(OK, Large(cfg))), s1);
    labels, trace := WriteOut(cfg, labels, trace, s1, OK, Large(cfg));
    FillLate(cfg);
    var full := Mixed(cfg).(resBuf := 0);
    var s2 := Stopped(cfg, full, Buf(true, Large(cfg), AtSlot(0)), Idle, At(0, PublishIt), map[],
      LateCall(cfg, Some(true)));
    Twice(z.slots, full, Mixed(cfg));
    Twice(z.res, Buf(true, Large(cfg), AtSlot(0)), Buf(false, Large(cfg), Nobody));
    var s3 := Stopped(cfg, Mixed(cfg), Buf(false, Large(cfg), Nobody), Idle, Gone, map[], LateCall(cfg, Some(true)));
    labels, trace := Go(cfg, labels, trace, s2, HOST, s3);
    labels, trace := CollectMixed(cfg, labels, trace);
  }

  lemma CollectMixed(cfg: Config, labels: seq<Label>, trace: seq<State>)
      returns (labels': seq<Label>, trace': seq<State>)
    requires cfg.Valid()
    requires Reaches(cfg, labels, trace,
      Stopped(cfg, Mixed(cfg), Buf(false, Large(cfg), Nobody), Idle, Gone, map[], LateCall(cfg, Some(true))))
    ensures IsRun(cfg, labels', trace')
    ensures trace'[|labels'|].calls == [LateCall(cfg, Some(true)).(outcome := Some(Answer(OK, WHY)))]
  {
    var z, cont, call, rs := Init(cfg), Collecting(0, []), LateCall(cfg, Some(true)), Buf(false, Large(cfg), Nobody);
    var s0 := Stopped(cfg, Mixed(cfg), rs, Idle, Gone, map[], call);
    assert [call][0 := call.(lost := [])] == [call];
    var s1, s2, s3 := s0.(worker := AwaitLoad(0, cont)), s0.(worker := AwaitCheck(0, 3, cont)),
      s0.(worker := Read(0, cont));
    labels', trace' := Go(cfg, labels, trace, s0, Collect(0), s1);
    labels', trace' := Go(cfg, labels', trace', s1, WorkerGo, s2);
    labels', trace' := Go(cfg, labels', trace', s2, WorkerGo, s3);
    assert [] + Shown(Mixed(cfg), z.res[0 := rs]) == WHY;
    labels', trace' := Go(cfg, labels', trace', s3, WorkerGo, Next(cfg, s3, WorkerGo));
    assert [call][0 := call.(outcome := Some(Answer(OK, WHY)))] == [call.(outcome := Some(Answer(OK, WHY)))];
  }
}
