/** What goes wrong between the two stores of `cancel`. It bumps the generation and then stores CANCELLED;
    a `take` that falls between the two starts a handler at the bumped generation, which the next call in
    the slot then shares, and the old handler's answer is accepted for the new call. */
module BridgeSplitCancel {
  import opened Options
  import opened BridgeModel
  import opened BridgeRuns
  import D = BridgeDeep
  import T = BridgeTheorems

  /** The slot after the first call is gone: free at generation 1, as the second call finds it. */
  function Freed(): Slot {
    Bare(1, Free, Working, 0).(op := User(1))
  }

  const STRAY: map<nat, Handler> := map[0 := Handler(0, 1, 1, [])]

  /** A call, cancelled; its request, taken between the two stores; the slot, handed back. */
  lemma FirstHalf(cfg: Config) returns (labels: seq<Label>, trace: seq<State>)
    requires cfg.Valid() && !cfg.atomicCancel
    ensures Reaches(cfg, labels, trace, On(cfg, Freed(), EMPTY, EMPTY, 2, Idle, Watching, STRAY, [Started()]))
  {
    var z, bare, c0 := Init(cfg), Bare(0, Free, Filling, 0), Issued(0, 1);
    labels, trace := [], [z];
    assert z.slots[0 := bare] == z.slots && z.req[0 := EMPTY] == z.req && z.res[0 := EMPTY] == z.res;
    labels, trace := SubmitEmpty(cfg, labels, trace, bare, 0, map[], [], 1);
    assert [] + [c0] == [c0];
    var asked := Asking(bare, 0, 1);
    var s0 := On(cfg, asked, HELD, EMPTY, 0, Idle, Watching, map[], [c0]);
    var s1 := s0.(worker := CancelStore(0));
    labels, trace := Go(cfg, labels, trace, s0, Cancel(0), s1);
    var moved := asked.(gen := 1);
    Twice(z.slots, asked, moved);
    labels, trace := Go(cfg, labels, trace, s1, WorkerGo,
      On(cfg, moved, HELD, EMPTY, 0, CancelMark(0), Watching, map[], [c0]));
    labels, trace := TakeEmpty(cfg, labels, trace, moved, 0, CancelMark(0), map[], [c0]);
    assert map[][0 := Handler(0, 1, 1, [])] == STRAY && [c0][0 := Started()] == [Started()];
    labels, trace := SecondStore(cfg, labels, trace);
  }

  lemma SecondStore(cfg: Config, labels: seq<Label>, trace: seq<State>)
      returns (labels': seq<Label>, trace': seq<State>)
    requires cfg.Valid() && !cfg.atomicCancel
    requires Reaches(cfg, labels, trace,
      On(cfg, Freed().(status := Running), EMPTY, EMPTY, 1, CancelMark(0), Watching, STRAY, [Started()]))
    ensures Reaches(cfg, labels', trace', On(cfg, Freed(), EMPTY, EMPTY, 2, Idle, Watching, STRAY, [Started()]))
  {
    var z, run, x := Init(cfg), Freed().(status := Running), Freed().(status := Cancelled);
    var s0 := On(cfg, run, EMPTY, EMPTY, 1, CancelMark(0), Watching, STRAY, [Started()]);
    Twice(z.slots, run, x);
    var s1 := On(cfg, x, EMPTY, EMPTY, 1, Idle, Watching, STRAY, [Started()]);
    labels', trace' := Go(cfg, labels, trace, s0, WorkerGo, s1);
    Twice(z.slots, x, x);
    var s2 := s1.(host := At(0, FreeIt));
    labels', trace' := Go(cfg, labels', trace', s1, Abandon(0), s2);
    Twice(z.slots, x, Freed());
    var s3 := On(cfg, Freed(), EMPTY, EMPTY, 1, Idle, MustBump, STRAY, [Started()]);
    labels', trace' := Go(cfg, labels', trace', s2, HOST, s3);
    labels', trace' := Go(cfg, labels', trace', s3, HOST, s3.(doneSeq := 2, host := Watching));
  }

  /** The second call's slot, its handler running beside the first call's. */
  function Second(): Slot {
    Freed().(status := Running, call := 1, stage := Working, op := User(2))
  }

  function Calls(): seq<Call> {
    [Started(), Issued(1, 2).(received := Some([]))]
  }

  function Both(): map<nat, Handler> {
    map[0 := Handler(0, 1, 1, []), 1 := Handler(0, 1, 2, [])]
  }

  /** The next call in the slot is taken too: two handlers run at one generation. */
  lemma TwoHandlers(cfg: Config) returns (labels: seq<Label>, trace: seq<State>)
    requires cfg.Valid() && !cfg.atomicCancel
    ensures Reaches(cfg, labels, trace, On(cfg, Second(), EMPTY, EMPTY, 3, Idle, Watching, Both(), Calls()))
  {
    labels, trace := FirstHalf(cfg);
    labels, trace := SubmitEmpty(cfg, labels, trace, Freed(), 2, STRAY, [Started()], 2);
    var calls := [Started()] + [Issued(1, 2)];
    labels, trace := TakeEmpty(cfg, labels, trace, Asking(Freed(), 1, 2), 2, Idle, STRAY, calls);
    assert STRAY[1 := Handler(0, 1, 2, [])] == Both();
    assert calls[1 := calls[1].(received := Some([]))] == Calls();
  }

  /** The calls once the first call's handler has answered. */
  function Told0(calls: seq<Call>): seq<Call>
    requires 0 < |calls|
  {
    calls[0 := calls[0].(answer := Some(Answer(OK, [7])))]
  }

  /** The first call's handler finishes, and its answer goes into the slot the second call is in. */
  lemma StaleFinish(cfg: Config, labels: seq<Label>, trace: seq<State>, sl: Slot, rs: Buf, done: nat,
                    hs: map<nat, Handler>, calls: seq<Call>)
      returns (labels': seq<Label>, trace': seq<State>)
    requires cfg.Valid() && sl.gen == 1 && sl.call == 1 && |calls| == 2 && sl.inline == []
    requires 0 in hs && hs[0] == Handler(0, 1, 1, []) && (calls[1].answer.Some? ==> calls[1].room.Some?)
    requires Reaches(cfg, labels, trace, On(cfg, sl, EMPTY, rs, done, Idle, Watching, hs, calls))
    ensures Reaches(cfg, labels', trace',
      On(cfg, sl.(stage := Answering, resBuf := -1, inline := [7], resLen := 1, resStatus := OK), EMPTY, rs, done, Idle,
         At(0, PublishIt), hs - {0}, Told0(calls)))
  {
    var z, a := Init(cfg), sl.(stage := Answering);
    Twice(z.slots, sl, a);
    var s1 := On(cfg, a, EMPTY, rs, done, Idle, At(0, Reply(OK, [7])), hs - {0}, Told0(calls));
    labels', trace' := Go(cfg, labels, trace, On(cfg, sl, EMPTY, rs, done, Idle, Watching, hs, calls),
      Finish(0, Answer(OK, [7])), s1);
    labels', trace' := WriteOut(cfg, labels', trace', s1, OK, [7]);
    FillInline(cfg, s1.(host := At(0, FillIn(OK, [7]))), OK, [7]);
    assert Overlay([], [7]) == [7];
    Twice(z.slots, a, a.(resBuf := -1, inline := [7], resLen := 1, resStatus := OK));
  }

  /** The second call's slot with the first call's answer ready in it. */
  function Taken1(): Slot {
    Second().(status := Ready, stage := Answered, inline := [7], resLen := 1, resStatus := OK)
  }

  /** With the two stores apart there is a run that gives one call another call's answer: the second
      call is collected, successfully, before its own handler has answered anything. */
  lemma SplitCancelMisdelivers(cfg: Config) returns (labels: seq<Label>, trace: seq<State>)
    requires cfg.Valid() && !cfg.atomicCancel
    ensures IsRun(cfg, labels, trace) && !trace[|labels|].gone
    ensures var calls := trace[|labels|].calls;
      |calls| == 2 && calls[0].answer == calls[1].outcome == Some(Answer(OK, [7])) && calls[1].answer == None
  {
    labels, trace := TwoHandlers(cfg);
    labels, trace := StaleFinish(cfg, labels, trace, Second(), EMPTY, 3, Both(), Calls());
    var shown := Taken1().(status := Running, stage := Answering);
    var s1 := On(cfg, shown, EMPTY, EMPTY, 3, Idle, At(0, PublishIt), Both() - {0}, Told0(Calls()));
    labels, trace := PublishOut(cfg, labels, trace, s1);
    Twice(Init(cfg).slots, shown, Taken1());
    labels, trace := CollectSecond(cfg, labels, trace);
  }

  lemma CollectSecond(cfg: Config, labels: seq<Label>, trace: seq<State>)
      returns (labels': seq<Label>, trace': seq<State>)
    requires cfg.Valid()
    requires Reaches(cfg, labels, trace,
      On(cfg, Taken1(), EMPTY, EMPTY, 4, Idle, Watching, Both() - {0}, Told0(Calls())))
    ensures IsRun(cfg, labels', trace') && !trace'[|labels'|].gone
    ensures var calls := Told0(Calls());
      trace'[|labels'|].calls == calls[1 := calls[1].(outcome := Some(Answer(OK, [7])))]
  {
    var z, cont, calls := Init(cfg), Collecting(1, []), Told0(Calls());
    var s0 := On(cfg, Taken1(), EMPTY, EMPTY, 4, Idle, Watching, Both() - {0}, calls);
    assert calls[1 := calls[1].(lost := [])] == calls;
    var s1, s2, s3 := s0.(worker := AwaitLoad(0, cont)), s0.(worker := AwaitCheck(0, 4, cont)),
      s0.(worker := Read(0, cont));
    labels', trace' := Go(cfg, labels, trace, s0, Collect(1), s1);
    labels', trace' := Go(cfg, labels', trace', s1, WorkerGo, s2);
    labels', trace' := Go(cfg, labels', trace', s2, WorkerGo, s3);
    assert [] + Shown(Taken1(), z.res[0 := EMPTY]) == [7];
    labels', trace' := Go(cfg, labels', trace', s3, WorkerGo, Next(cfg, s3, WorkerGo));
  }

  // ---- A buffer that nobody holds -------------------------------------------------------------

  /** How much of the second call's own answer goes into the first pooled buffer. */
  function Part(cfg: Config): nat {
    if |Large(cfg)| <= cfg.bufBytes then |Large(cfg)| else cfg.bufBytes
  }

  /** The second call's slot with that in it. */
  function Own(cfg: Config): Slot {
    var rest := Large(cfg)[Part(cfg)..];
    Second().(stage := Answering, resBuf := 0, resLen := Part(cfg), tail := rest,
              resStatus := if rest == [] then OK else MORE)
  }

  function Held(cfg: Config): Buf {
    Buf(true, Large(cfg)[..Part(cfg)], AtSlot(0))
  }

  function Told1(cfg: Config, room: Option<bool>): seq<Call> {
    Calls()[1 := Calls()[1].(answer := Some(Answer(OK, Large(cfg))), room := room)]
  }

  lemma FillLarge(cfg: Config, a: Slot, hs: map<nat, Handler>)
    requires cfg.Valid() && a == Second().(stage := Answering)
    ensures FillStep(cfg, On(cfg, a, EMPTY, EMPTY, 3, Idle, At(0, FillIn(OK, Large(cfg))), hs, Told1(cfg, None)),
                     0, OK, Large(cfg), 0) ==
      On(cfg, Own(cfg), EMPTY, Held(cfg), 3, Idle, At(0, PublishIt), hs, Told1(cfg, Some(true)))
  {
    var z, piece := Init(cfg), Large(cfg)[..Part(cfg)];
    assert Overlay([], piece) == piece;
    Twice(z.slots, a, Own(cfg));
    Twice(z.res, EMPTY, Held(cfg));
    assert !z.res[0 := EMPTY][0].held;
    assert Told1(cfg, None)[1 := Told1(cfg, None)[1].(room := Some(true))] == Told1(cfg, Some(true));
  }

  /** The second call's own answer, ready in a pooled buffer. */
  lemma OwnReady(cfg: Config) returns (labels: seq<Label>, trace: seq<State>)
    requires cfg.Valid() && !cfg.atomicCancel
    ensures Reaches(cfg, labels, trace,
      On(cfg, Own(cfg).(status := Ready, stage := Answered), EMPTY, Held(cfg), 4, Idle, Watching, Both() - {1},
         Told1(cfg, Some(true))))
  {
    var z, a, hs := Init(cfg), Second().(stage := Answering), Both() - {1};
    labels, trace := TwoHandlers(cfg);
    assert Calls()[1 := Calls()[1].(answer := Some(Answer(OK, Large(cfg))))] == Told1(cfg, None);
    Twice(z.slots, Second(), a);
    var s1 := On(cfg, a, EMPTY, EMPTY, 3, Idle, At(0, Reply(OK, Large(cfg))), hs, Told1(cfg, None));
    labels, trace := Go(cfg, labels, trace, On(cfg, Second(), EMPTY, EMPTY, 3, Idle, Watching, Both(), Calls()),
      Finish(1, Answer(OK, Large(cfg))), s1);
    labels, trace := WriteOut(cfg, labels, trace, s1, OK, Large(cfg));
    FillLarge(cfg, a, hs);
    var s2 := On(cfg, Own(cfg), EMPTY, Held(cfg), 3, Idle, At(0, PublishIt), hs, Told1(cfg, Some(true)));
    labels, trace := PublishOut(cfg, labels, trace, s2);
    Twice(z.slots, Own(cfg), Own(cfg).(status := Ready, stage := Answered));
  }

  /** A run after which a pooled buffer is held and attached to no slot: the second call's answer is ready
      in it when the first call's handler finishes, and the stale answer is written over it. */
  lemma StaleAnswerLeaks(cfg: Config) returns (labels: seq<Label>, trace: seq<State>)
    requires cfg.Valid() && !cfg.atomicCancel
    ensures IsRun(cfg, labels, trace)
    ensures var s := trace[|labels|];
      0 < |s.res| && s.res[0].held && s.host == Watching && !s.gone &&
      forall i :: 0 <= i < |s.slots| ==> s.slots[i].resBuf != 0
  {
    var sl, hs, calls := Own(cfg).(status := Ready, stage := Answered), Both() - {1}, Told1(cfg, Some(true));
    labels, trace := OwnReady(cfg);
    labels, trace := StaleFinish(cfg, labels, trace, sl, Held(cfg), 4, hs, calls);
    var over := sl.(stage := Answering, resBuf := -1, inline := [7], resLen := 1, resStatus := OK);
    var s1 := On(cfg, over, EMPTY, Held(cfg), 4, Idle, At(0, PublishIt), hs - {0}, Told0(calls));
    labels, trace := Go(cfg, labels, trace, s1, HOST, Next(cfg, s1, HOST));
  }

  // ---- One store in place of two --------------------------------------------------------------

  /** A run whose responder is still up at the end is in time. */
  lemma UpIsInTime(cfg: Config, labels: seq<Label>, trace: seq<State>)
    requires IsRun(cfg, labels, trace) && !trace[|labels|].gone
    ensures T.InTime(labels, trace)
  {
    forall k | 0 <= k < |labels|
      ensures labels[k] != Stop
    {
      if labels[k] == Stop {
        assert StepAt(cfg, labels, trace, k);
        GoneStays(cfg, labels, trace, k + 1, |labels|);
      }
    }
    T.NoStopIsInTime(cfg, labels, trace);
  }

  lemma {:induction false} GoneStays(cfg: Config, labels: seq<Label>, trace: seq<State>, j: nat, k: nat)
    requires IsRun(cfg, labels, trace) && j <= k <= |labels| && trace[j].gone
    ensures trace[k].gone
  {
    if j < k {
      GoneStays(cfg, labels, trace, j, k - 1);
      assert StepAt(cfg, labels, trace, k - 1);
    }
  }

  /** One store in place of the two would be enough, and nothing less: every call gets its own answer in
      every run that is in time exactly when `cancel` moves the generation and the status together. */
  lemma OwnAnswersIffAtomicCancel(cfg: Config)
    requires cfg.Valid()
    ensures cfg.atomicCancel <==>
      forall labels, trace :: IsRun(cfg, labels, trace) && T.InTime(labels, trace) ==>
        T.OwnAnswers(labels, trace, |labels|)
  {
    if cfg.atomicCancel {
      forall labels, trace | IsRun(cfg, labels, trace) && T.InTime(labels, trace)
        ensures T.OwnAnswers(labels, trace, |labels|)
      {
        T.OneStoreStartsWell(cfg, labels, trace);
        T.AnswersAreOwn(cfg, labels, trace, |labels|);
      }
    } else {
      var labels, trace := SplitCancelMisdelivers(cfg);
      UpIsInTime(cfg, labels, trace);
      assert !D.OutcomeOk(trace[|labels|].calls[1]);
      assert !T.AnswersItsSubmit(labels, trace, |labels|, 1);
    }
  }

  /** And the same for the pool: no response buffer is ever lost exactly when it does. */
  lemma ConservedIffAtomicCancel(cfg: Config)
    requires cfg.Valid()
    ensures cfg.atomicCancel <==>
      forall labels, trace :: IsRun(cfg, labels, trace) && T.InTime(labels, trace) ==>
        T.ResponsesConserved(trace[|labels|])
  {
    if cfg.atomicCancel {
      forall labels, trace | IsRun(cfg, labels, trace) && T.InTime(labels, trace)
        ensures T.ResponsesConserved(trace[|labels|])
      {
        T.OneStoreStartsWell(cfg, labels, trace);
        T.ResponseBuffersConserved(cfg, labels, trace, |labels|);
      }
    } else {
      var labels, trace := StaleAnswerLeaks(cfg);
      UpIsInTime(cfg, labels, trace);
      assert !T.ResponsesConserved(trace[|labels|]);
    }
  }
}
