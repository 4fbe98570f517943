/** What the bridge promises about answers: in every run in which no handler is started at a generation
    that is not its call's, and none finishes for a call that the stopping responder has failed. */
module BridgeTheorems {
  import opened Options
  import opened BridgeModel
  import opened BridgeBase
  import opened BridgeDeep
  import opened BridgeDeepHost
  import W = BridgeDeepWorker
  import A = BridgeAlways
  import O = BridgeOperations
  import N = BridgeAnswers

  /** No request of this run was taken between the two stores of a cancel and then handed to a handler. */
  ghost predicate WellStarted(labels: seq<Label>, trace: seq<State>) {
    forall k {:trigger labels[k]} :: 0 <= k < |labels| && k < |trace| ==> !Misdispatch(trace[k], labels[k])
  }

  /** No handler of this run finished for a call that the stopping responder had failed and whose failure
      the worker had not yet taken. */
  ghost predicate InTime(labels: seq<Label>, trace: seq<State>) {
    forall k {:trigger labels[k]} :: 0 <= k < |labels| && k < |trace| ==> !Late(trace[k], labels[k])
  }

  ghost predicate Proper(labels: seq<Label>, trace: seq<State>) {
    WellStarted(labels, trace) && InTime(labels, trace)
  }

  /** Every step but these two keeps the invariant. */
  lemma StepKeeps(cfg: Config, s: State, l: Label)
    requires cfg.Valid() && Inv(cfg, s) && Enabled(cfg, s, l) && !Misdispatch(s, l) && !Late(s, l)
    ensures Inv(cfg, Next(cfg, s, l))
  {
    A.StepBase(cfg, s, l);
    if A.ByHost(l) {
      HostKeeps(cfg, s, l);
    } else {
      WorkerKeeps(cfg, s, l);
    }
  }

  lemma WorkerKeeps(cfg: Config, s: State, l: Label)
    requires cfg.Valid() && Inv(cfg, s) && Enabled(cfg, s, l) && !A.ByHost(l)
    ensures Deep(cfg, Next(cfg, s, l))
  {
    match l
    case Collect(c) => W.CollectDeep(cfg, s, c);
    case Cancel(c) => W.CancelDeep(cfg, s, c);
    case WorkerGo => W.WorkerDeepKeeps(cfg, s);
    case _ => W.OtherDeep(cfg, s, l);
  }

  lemma HostKeeps(cfg: Config, s: State, l: Label)
    requires cfg.Valid() && Inv(cfg, s) && Enabled(cfg, s, l) && A.ByHost(l) && !Misdispatch(s, l) && !Late(s, l)
    ensures Deep(cfg, Next(cfg, s, l))
  {
    match l
    case HostGo(ch) => HostDeepKeeps(cfg, s, ch);
    case See(i) => SeeDeep(cfg, s, i);
    case Abandon(i) => AbandonDeep(cfg, s, i);
    case Finish(c, a) => FinishDeep(cfg, s, c, a);
    case Stop => StillDeep(cfg, s, Next(cfg, s, l));
  }

  lemma FinishDeep(cfg: Config, s: State, c: nat, a: Answer)
    requires Inv(cfg, s) && Enabled(cfg, s, Finish(c, a)) && !Late(s, Finish(c, a))
    ensures Deep(cfg, FinishStep(s, c, a))
  {
    if s.slots[s.handlers[c].slot].gen == s.handlers[c].gen {
      FinishAnswers(cfg, s, c, a);
    } else {
      FinishDropped(cfg, s, c, a);
    }
  }

  /** Every state of every proper run satisfies the invariant. */
  lemma {:induction false} RunInv(cfg: Config, labels: seq<Label>, trace: seq<State>, k: nat)
    requires cfg.Valid() && IsRun(cfg, labels, trace) && Proper(labels, trace) && k <= |labels|
    ensures Inv(cfg, trace[k])
  {
    if k == 0 {
      InitDeep(cfg);
    } else {
      RunInv(cfg, labels, trace, k - 1);
      assert !Misdispatch(trace[k - 1], labels[k - 1]) && !Late(trace[k - 1], labels[k - 1]);
      assert StepAt(cfg, labels, trace, k - 1);
      StepKeeps(cfg, trace[k - 1], labels[k - 1]);
    }
  }

  // ---- Which runs are proper ------------------------------------------------------------------

  /** A dispatch at the wrong generation is at a slot in the gap of a cancel: it is nowhere else that a
      pending slot's generation is not its call's. */
  lemma OnlyInTheGap(cfg: Config, labels: seq<Label>, trace: seq<State>, k: nat)
    requires IsRun(cfg, labels, trace) && k < |labels| && Misdispatch(trace[k], labels[k])
    ensures Gap(trace[k], trace[k].host.slot)
  {
    A.RunBase(cfg, labels, trace, k);
    assert SlotBase(trace[k], trace[k].host.slot);
  }

  /** A caller that cancels nothing has every handler started right. */
  lemma NoCancelStartsWell(cfg: Config, labels: seq<Label>, trace: seq<State>)
    requires IsRun(cfg, labels, trace) && forall k :: 0 <= k < |labels| ==> !labels[k].Cancel?
    ensures WellStarted(labels, trace)
  {
    forall k | 0 <= k < |labels|
      ensures !Misdispatch(trace[k], labels[k])
    {
      NeverCancelling(cfg, labels, trace, k);
      if Misdispatch(trace[k], labels[k]) {
        OnlyInTheGap(cfg, labels, trace, k);
      }
    }
  }

  lemma {:induction false} NeverCancelling(cfg: Config, labels: seq<Label>, trace: seq<State>, k: nat)
    requires IsRun(cfg, labels, trace) && k <= |labels| && forall k :: 0 <= k < |labels| ==> !labels[k].Cancel?
    ensures !trace[k].worker.CancelStore? && !trace[k].worker.CancelMark?
  {
    if k > 0 {
      NeverCancelling(cfg, labels, trace, k - 1);
      assert !labels[k - 1].Cancel?;
      assert StepAt(cfg, labels, trace, k - 1);
      StaysOffCancel(cfg, trace[k - 1], labels[k - 1]);
    }
  }

  lemma StaysOffCancel(cfg: Config, s: State, l: Label)
    requires Enabled(cfg, s, l) && !l.Cancel? && !s.worker.CancelStore? && !s.worker.CancelMark?
    ensures !Next(cfg, s, l).worker.CancelStore? && !Next(cfg, s, l).worker.CancelMark?
  {
    if l.HostGo? {
      HostLeavesWorker(cfg, s, l.choice);
    }
  }

  lemma HostLeavesWorker(cfg: Config, s: State, ch: Choice)
    requires HostReady(cfg, s)
    ensures HostStep(cfg, s, ch).worker == s.worker
  {
  }

  /** And so has any caller of a bridge whose `cancel` makes its two stores in one step. */
  lemma OneStoreStartsWell(cfg: Config, labels: seq<Label>, trace: seq<State>)
    requires cfg.atomicCancel && IsRun(cfg, labels, trace)
    ensures WellStarted(labels, trace)
  {
    forall k | 0 <= k < |labels|
      ensures !Misdispatch(trace[k], labels[k])
    {
      NoGap(cfg, labels, trace, k);
      if Misdispatch(trace[k], labels[k]) {
        OnlyInTheGap(cfg, labels, trace, k);
      }
    }
  }

  lemma {:induction false} NoGap(cfg: Config, labels: seq<Label>, trace: seq<State>, k: nat)
    requires cfg.atomicCancel && IsRun(cfg, labels, trace) && k <= |labels|
    ensures !trace[k].worker.CancelMark?
  {
    if k > 0 {
      NoGap(cfg, labels, trace, k - 1);
      assert StepAt(cfg, labels, trace, k - 1);
      StaysOffMark(cfg, trace[k - 1], labels[k - 1]);
    }
  }

  lemma StaysOffMark(cfg: Config, s: State, l: Label)
    requires cfg.atomicCancel && Enabled(cfg, s, l) && !s.worker.CancelMark?
    ensures !Next(cfg, s, l).worker.CancelMark?
  {
    if l.HostGo? {
      HostLeavesWorker(cfg, s, l.choice);
    }
  }

  /** While the responder has not stopped, no handler is late. */
  lemma NoStopIsInTime(cfg: Config, labels: seq<Label>, trace: seq<State>)
    requires IsRun(cfg, labels, trace) && forall k :: 0 <= k < |labels| ==> labels[k] != Stop
    ensures InTime(labels, trace)
  {
    forall k | 0 <= k < |labels|
      ensures !Late(trace[k], labels[k])
    {
      NothingFails(cfg, labels, trace, k);
    }
  }

  lemma {:induction false} NothingFails(cfg: Config, labels: seq<Label>, trace: seq<State>, k: nat)
    requires IsRun(cfg, labels, trace) && k <= |labels| && forall k :: 0 <= k < |labels| ==> labels[k] != Stop
    ensures !trace[k].gone && forall c :: 0 <= c < |trace[k].calls| ==> trace[k].calls[c].failed == None
  {
    if k > 0 {
      NothingFails(cfg, labels, trace, k - 1);
      A.RunBase(cfg, labels, trace, k - 1);
      assert labels[k - 1] != Stop;
      assert StepAt(cfg, labels, trace, k - 1);
      StaysUp(cfg, trace[k - 1], labels[k - 1]);
    }
  }

  lemma StaysUp(cfg: Config, s: State, l: Label)
    requires Base(cfg, s) && Enabled(cfg, s, l) && l != Stop && !s.gone
    requires forall c :: 0 <= c < |s.calls| ==> s.calls[c].failed == None
    ensures var t := Next(cfg, s, l); !t.gone && forall c :: 0 <= c < |t.calls| ==> t.calls[c].failed == None
  {
    match l
    case WorkerGo => WorkerStaysUp(cfg, s);
    case HostGo(ch) => HostStaysUp(cfg, s, ch);
    case _ =>
  }

  lemma WorkerStaysUp(cfg: Config, s: State)
    requires WorkerReady(cfg, s) && !s.gone && forall c :: 0 <= c < |s.calls| ==> s.calls[c].failed == None
    ensures var t := WorkerStep(cfg, s); !t.gone && forall c :: 0 <= c < |t.calls| ==> t.calls[c].failed == None
  {
    if s.worker.Read? {
      W.ReadOnly(cfg, s, s.worker.slot, s.worker.cont);
    }
  }

  lemma HostStaysUp(cfg: Config, s: State, ch: Choice)
    requires HostReady(cfg, s) && !s.gone && !s.host.Failing?
    requires forall c :: 0 <= c < |s.calls| ==> s.calls[c].failed == None
    ensures var t := HostStep(cfg, s, ch); !t.gone && forall c :: 0 <= c < |t.calls| ==> t.calls[c].failed == None
  {
  }

  // ---- Answers --------------------------------------------------------------------------------

  /** What the responder took for call c, and the handler that runs for it, are the opcode and the payload
      asked for; and the worker has the answer that handler gave. Of a success it has everything but what
      earlier collects of the same call had read, of a failure the last piece. If the responder stopped
      first, it has the failure the responder gave. */
  ghost predicate Answers(s: State, c: nat, op: int, payload: Bytes) {
    c < |s.calls| &&
    (s.calls[c].received.Some? ==> s.calls[c].received.value == payload) &&
    (c in s.handlers ==> s.handlers[c].op == op && s.handlers[c].whole == payload) &&
    OutcomeOk(s.calls[c])
  }

  /** Every call answers to the one submit that made it. */
  ghost predicate OwnAnswers(labels: seq<Label>, trace: seq<State>, k: nat)
    requires k < |trace|
  {
    forall c: nat :: c < |trace[k].calls| ==> AnswersItsSubmit(labels, trace, k, c)
  }

  ghost predicate AnswersItsSubmit(labels: seq<Label>, trace: seq<State>, k: nat, c: nat)
    requires k < |trace|
  {
    exists j: nat, m: nat ::
      m < k && O.MadeBy(labels, trace, c, j, m) && Answers(trace[k], c, labels[j].op, labels[j].payload) &&
      Given(labels, trace, k, c)
  }

  /** The answer of a call is one its handler finished with, or says that there is no handler; its failure
      is one the stopping responder gave. */
  ghost predicate Given(labels: seq<Label>, trace: seq<State>, k: nat, c: nat)
    requires k < |trace| && c < |trace[k].calls|
  {
    var call := trace[k].calls[c];
    (call.answer.Some? ==> exists n: nat :: n < k && GivesAt(labels, trace, n, c, call.answer.value)) &&
    (call.failed.Some? ==> exists n: nat :: n < k && FailsAt(labels, trace, n, c, call.failed.value))
  }

  ghost predicate GivesAt(labels: seq<Label>, trace: seq<State>, n: nat, c: nat, a: Answer) {
    n < |labels| && n < |trace| && N.Gives(trace[n], labels[n], c, a)
  }

  ghost predicate FailsAt(labels: seq<Label>, trace: seq<State>, n: nat, c: nat, why: Bytes) {
    n < |labels| && n < |trace| && N.Fails(trace[n], labels[n], c, why)
  }

  lemma AllGiven(cfg: Config, labels: seq<Label>, trace: seq<State>, k: nat, c: nat)
    requires IsRun(cfg, labels, trace) && k <= |labels| && c < |trace[k].calls|
    ensures Given(labels, trace, k, c)
  {
    var call := trace[k].calls[c];
    if call.answer.Some? {
      var n := N.AnswersAreGiven(cfg, labels, trace, k, c);
      assert GivesAt(labels, trace, n, c, call.answer.value);
    }
    if call.failed.Some? {
      var n := N.FailuresAreGiven(cfg, labels, trace, k, c);
      assert FailsAt(labels, trace, n, c, call.failed.value);
    }
  }

  lemma AnswersAreOwn(cfg: Config, labels: seq<Label>, trace: seq<State>, k: nat)
    requires cfg.Valid() && IsRun(cfg, labels, trace) && Proper(labels, trace) && k <= |labels|
    ensures OwnAnswers(labels, trace, k)
  {
    forall c: nat | c < |trace[k].calls|
      ensures AnswersItsSubmit(labels, trace, k, c)
    {
      var j, m := O.CallsAreSubmitted(cfg, labels, trace, k, c);
      AnswersToCall(cfg, labels, trace, k, c);
      AllGiven(cfg, labels, trace, k, c);
    }
  }

  lemma AnswersToCall(cfg: Config, labels: seq<Label>, trace: seq<State>, k: nat, c: nat)
    requires cfg.Valid() && IsRun(cfg, labels, trace) && Proper(labels, trace) && k <= |labels|
    requires c < |trace[k].calls|
    ensures Answers(trace[k], c, trace[k].calls[c].op, trace[k].calls[c].payload)
  {
    RunInv(cfg, labels, trace, k);
    var s := trace[k];
    assert CallOk(cfg, s.calls[c], s.gone);
    assert c in s.handlers ==> HandlerOk(s.slots, s.calls, s.handlers[c], c);
  }

  /** A success arrives whole exactly when no earlier `collect` of the call had read any of it; and one
      had only if it threw, which takes a host that has gone. */
  lemma SuccessIsWhole(cfg: Config, labels: seq<Label>, trace: seq<State>, k: nat, c: nat)
    requires cfg.Valid() && IsRun(cfg, labels, trace) && Proper(labels, trace) && k <= |labels|
    requires c < |trace[k].calls| && trace[k].calls[c].outcome.Some? && trace[k].calls[c].outcome.value.status == OK
    ensures var call := trace[k].calls[c];
      call.failed == None && call.answer.Some? && call.answer.value.status == OK &&
      call.lost + call.outcome.value.bytes == call.answer.value.bytes &&
      (call.outcome == call.answer <==> call.lost == []) && (call.lost != [] ==> call.threw && trace[k].gone)
  {
    RunInv(cfg, labels, trace, k);
    var call := trace[k].calls[c];
    assert CallOk(cfg, call, trace[k].gone);
    assert [] + call.outcome.value.bytes == call.outcome.value.bytes;
  }

  // ---- Where a record comes from --------------------------------------------------------------

  /** This step writes a piece of call c's answer into its slot. */
  ghost predicate Writes(s: State, l: Label, c: nat) {
    l.HostGo? && s.host.At? && s.host.job.FillIn? && s.host.slot < |s.slots| && s.slots[s.host.slot].call == c &&
    c < |s.calls| && s.calls[c].answer.Some?
  }

  /** This step is the throw of a `collect` of call c that the host's going cuts short. */
  ghost predicate Throws(s: State, l: Label, c: nat) {
    l.WorkerGo? && s.worker.Park? && s.gone && s.worker.why.ForReady? && s.worker.why.cont.Collecting? &&
    s.worker.why.cont.call == c
  }

  /** How one step changes what is remembered of a call. */
  ghost predicate Remembers(s: State, l: Label, k: Call, k': Call, c: nat) {
    (k'.threw ==> k.threw || Throws(s, l, c)) &&
    (k'.lost == k.lost || (l == Collect(c) && k'.lost == k.taken)) &&
    k'.room == if Writes(s, l, c) && k.room.None? then Some(HasFree(s.res)) else k.room
  }

  lemma StepRemembers(cfg: Config, s: State, l: Label, c: nat)
    requires Enabled(cfg, s, l) && c < |s.calls|
    ensures c < |Next(cfg, s, l).calls| && Remembers(s, l, s.calls[c], Next(cfg, s, l).calls[c], c)
  {
    match l
    case WorkerGo => WorkerRemembers(cfg, s, c);
    case HostGo(ch) => HostRemembers(cfg, s, ch, c);
    case _ =>
  }

  lemma WorkerRemembers(cfg: Config, s: State, c: nat)
    requires WorkerReady(cfg, s) && c < |s.calls|
    ensures c < |WorkerStep(cfg, s).calls| && Remembers(s, WorkerGo, s.calls[c], WorkerStep(cfg, s).calls[c], c)
  {
    match s.worker
    case Read(slot, cont) => ReadRemembers(cfg, s, slot, cont, c);
    case Publish(_, _) =>
    case ClaimTry(_, _, _, _, _, _) =>
    case Park(_, _, _) =>
    case _ =>
  }

  lemma ReadRemembers(cfg: Config, s: State, i: nat, cont: Cont, c: nat)
    requires i < |s.slots| && c < |s.calls|
    requires (match cont case SendNext(f) => f.call < |s.calls| case Collecting(c, _) => c < |s.calls|)
    ensures c < |ReadStep(cfg, s, i, cont).calls|
    ensures var k, k' := s.calls[c], ReadStep(cfg, s, i, cont).calls[c];
      k'.threw == k.threw && k'.lost == k.lost && k'.room == k.room
  {
  }

  lemma HostRemembers(cfg: Config, s: State, ch: Choice, c: nat)
    requires HostReady(cfg, s) && c < |s.calls|
    ensures c < |HostStep(cfg, s, ch).calls| && Remembers(s, HostGo(ch), s.calls[c], HostStep(cfg, s, ch).calls[c], c)
  {
    if s.host.At? && s.host.job.Taken? && s.host.job.bumped && s.slots[s.host.slot].status == Pending {
      DispatchRemembers(s, s.host.slot, s.host.job, ch, c);
    }
  }

  lemma DispatchRemembers(s: State, i: nat, t: Job, ch: Choice, c: nat)
    requires i < |s.slots| && t.Taken? && s.slots[i].call < |s.calls| && c < |s.calls|
    ensures var k, k' := s.calls[c], Dispatch(s, i, t, ch).calls[c];
      k'.threw == k.threw && k'.lost == k.lost && k'.room == k.room
  {
  }

  /** Step q writes the first piece of call c's answer. */
  ghost predicate FirstWrite(labels: seq<Label>, trace: seq<State>, q: nat, c: nat) {
    q < |labels| && q < |trace| && Writes(trace[q], labels[q], c) &&
    forall p {:trigger labels[p]} :: 0 <= p < q ==> !Writes(trace[p], labels[p], c)
  }

  /** `room` is what the first write found. */
  ghost predicate RoomIs(labels: seq<Label>, trace: seq<State>, k: nat, c: nat)
    requires k <= |labels| && k < |trace| && c < |trace[k].calls|
  {
    match trace[k].calls[c].room
    case None => forall p {:trigger labels[p]} :: 0 <= p < k ==> !Writes(trace[p], labels[p], c)
    case Some(free) => exists q :: 0 <= q < k && FirstWrite(labels, trace, q, c) && free == HasFree(trace[q].res)
  }

  lemma {:induction false} RoomRemembered(cfg: Config, labels: seq<Label>, trace: seq<State>, k: nat, c: nat)
    requires IsRun(cfg, labels, trace) && k <= |labels| && c < |trace[k].calls|
    ensures RoomIs(labels, trace, k, c)
  {
    if k > 0 && c < |trace[k - 1].calls| {
      RoomRemembered(cfg, labels, trace, k - 1, c);
      assert StepAt(cfg, labels, trace, k - 1);
      StepRemembers(cfg, trace[k - 1], labels[k - 1], c);
      RoomNext(labels, trace, k - 1, c);
    } else {
      NotYetCalled(cfg, labels, trace, k, c);
    }
  }

  lemma RoomNext(labels: seq<Label>, trace: seq<State>, k: nat, c: nat)
    requires k < |labels| && |trace| == |labels| + 1 && c < |trace[k].calls| && c < |trace[k + 1].calls| &&
      RoomIs(labels, trace, k, c)
    requires Remembers(trace[k], labels[k], trace[k].calls[c], trace[k + 1].calls[c], c)
    ensures RoomIs(labels, trace, k + 1, c)
  {
    if trace[k].calls[c].room.None? && Writes(trace[k], labels[k], c) {
      assert FirstWrite(labels, trace, k, c);
    }
  }

  /** A call that has just been made has no room on record, and nothing was written for it. */
  lemma NotYetCalled(cfg: Config, labels: seq<Label>, trace: seq<State>, k: nat, c: nat)
    requires IsRun(cfg, labels, trace) && k <= |labels| && c < |trace[k].calls| && (k > 0 ==> |trace[k - 1].calls| <= c)
    ensures RoomIs(labels, trace, k, c) && !trace[k].calls[c].threw && trace[k].calls[c].lost == []
  {
    StartsEmpty(cfg, labels, trace);
    JustCalled(cfg, labels, trace, k - 1, c);
    NotWritten(cfg, labels, trace, k, c);
  }

  lemma StartsEmpty(cfg: Config, labels: seq<Label>, trace: seq<State>)
    requires IsRun(cfg, labels, trace)
    ensures trace[0].calls == []
  {
  }

  lemma JustCalled(cfg: Config, labels: seq<Label>, trace: seq<State>, k: nat, c: nat)
    requires IsRun(cfg, labels, trace) && k < |labels| && |trace[k].calls| <= c < |trace[k + 1].calls|
    ensures var n := trace[k + 1].calls[c]; n.room == None && n.lost == [] && !n.threw
  {
    A.RunBase(cfg, labels, trace, k);
    assert StepAt(cfg, labels, trace, k);
    StepCalls(cfg, trace[k], labels[k], c);
  }

  lemma StepCalls(cfg: Config, s: State, l: Label, c: nat)
    requires Sizes(cfg, s) && Enabled(cfg, s, l) && |s.calls| <= c < |Next(cfg, s, l).calls|
    ensures var n := Next(cfg, s, l).calls[c]; n.room == None && n.lost == [] && !n.threw
  {
    FreshCall(cfg, s, l);
  }

  lemma NotWritten(cfg: Config, labels: seq<Label>, trace: seq<State>, k: nat, c: nat)
    requires IsRun(cfg, labels, trace) && 0 < k <= |labels| && |trace[k - 1].calls| <= c
    ensures forall p {:trigger labels[p]} :: 0 <= p < k ==> !Writes(trace[p], labels[p], c)
  {
    forall p | 0 <= p < k
      ensures !Writes(trace[p], labels[p], c)
    {
      A.RunGrows(cfg, labels, trace, p, k - 1);
    }
  }

  lemma FreshCall(cfg: Config, s: State, l: Label)
    requires Sizes(cfg, s) && Enabled(cfg, s, l) && |Next(cfg, s, l).calls| > |s.calls|
    ensures |Next(cfg, s, l).calls| == |s.calls| + 1
    ensures var n := Next(cfg, s, l).calls[|s.calls|]; n.room == None && n.lost == [] && !n.threw
  {
    match l
    case WorkerGo => if !s.worker.ClaimTry? { A.WorkerAddsNoCall(cfg, s); }
    case HostGo(ch) => A.HostAddsNoCall(cfg, s, ch);
    case _ =>
  }

  /** A handler's failure arrives whole exactly when it fits the inline area, or fits a pooled buffer and one
      was free when its first piece was written; otherwise what arrives is its last piece. */
  lemma FailureIsWhole(cfg: Config, labels: seq<Label>, trace: seq<State>, k: nat, c: nat)
    requires cfg.Valid() && IsRun(cfg, labels, trace) && Proper(labels, trace) && k <= |labels|
    requires c < |trace[k].calls| && trace[k].calls[c].outcome.Some? && trace[k].calls[c].outcome.value.status == ERR
    requires trace[k].calls[c].failed == None
    ensures var call := trace[k].calls[c];
      call.answer.Some? && call.answer.value.status == ERR &&
      call.taken + call.outcome.value.bytes == call.answer.value.bytes &&
      exists q :: 0 <= q < k && FirstWrite(labels, trace, q, c) &&
        (call.outcome == call.answer <==>
          |call.answer.value.bytes| <= cfg.inlineBytes ||
          (|call.answer.value.bytes| <= cfg.bufBytes && HasFree(trace[q].res)))
  {
    FailureFits(cfg, labels, trace, k, c);
    RoomRemembered(cfg, labels, trace, k, c);
    var q :| 0 <= q < k && FirstWrite(labels, trace, q, c) && trace[k].calls[c].room.value == HasFree(trace[q].res);
  }

  lemma FailureFits(cfg: Config, labels: seq<Label>, trace: seq<State>, k: nat, c: nat)
    requires cfg.Valid() && IsRun(cfg, labels, trace) && Proper(labels, trace) && k <= |labels|
    requires c < |trace[k].calls| && trace[k].calls[c].outcome.Some? && trace[k].calls[c].outcome.value.status == ERR
    requires trace[k].calls[c].failed == None
    ensures var call := trace[k].calls[c];
      call.answer.Some? && call.answer.value.status == ERR && call.room.Some? &&
      call.taken + call.outcome.value.bytes == call.answer.value.bytes &&
      (call.outcome == call.answer <==> FitsOnce(cfg, call))
  {
    RunInv(cfg, labels, trace, k);
    var call := trace[k].calls[c];
    assert CallOk(cfg, call, trace[k].gone);
    assert [] + call.outcome.value.bytes == call.outcome.value.bytes;
  }

  /** A failure the stopping responder gives arrives whole if it arrives at all. */
  lemma StopFailureIsWhole(cfg: Config, labels: seq<Label>, trace: seq<State>, k: nat, c: nat)
    requires cfg.Valid() && IsRun(cfg, labels, trace) && Proper(labels, trace) && k <= |labels|
    requires c < |trace[k].calls| && trace[k].calls[c].failed.Some?
    ensures var call := trace[k].calls[c];
      trace[k].gone && (call.outcome.Some? ==> call.outcome == Some(Answer(ERR, call.failed.value)))
  {
    RunInv(cfg, labels, trace, k);
    assert CallOk(cfg, trace[k].calls[c], trace[k].gone);
  }

  // ---- A collect that was cut short -----------------------------------------------------------

  /** Whatever a collect did not return of a success, an earlier collect of the same call read, and threw. */
  lemma {:induction false} LostToAThrow(cfg: Config, labels: seq<Label>, trace: seq<State>, k: nat, c: nat)
    requires cfg.Valid() && IsRun(cfg, labels, trace) && Proper(labels, trace) && k <= |labels|
    requires c < |trace[k].calls| && trace[k].calls[c].lost != []
    ensures exists p, q ::
      0 <= p < q < k && CutShort(labels, trace, p, q, c) && trace[q].calls[c].taken == trace[k].calls[c].lost
  {
    if k == 0 || |trace[k - 1].calls| <= c {
      NotYetCalled(cfg, labels, trace, k, c);
    } else if trace[k].calls[c].lost == trace[k - 1].calls[c].lost {
      LostToAThrow(cfg, labels, trace, k - 1, c);
    } else {
      CollectedAgain(cfg, labels, trace, k - 1, c);
    }
  }

  lemma CollectedAgain(cfg: Config, labels: seq<Label>, trace: seq<State>, q: nat, c: nat)
    requires cfg.Valid() && IsRun(cfg, labels, trace) && Proper(labels, trace) && q < |labels|
    requires c < |trace[q].calls| && c < |trace[q + 1].calls|
    requires trace[q + 1].calls[c].lost != [] && trace[q + 1].calls[c].lost != trace[q].calls[c].lost
    ensures trace[q].calls[c].taken == trace[q + 1].calls[c].lost
    ensures exists p :: 0 <= p < q && CutShort(labels, trace, p, q, c)
  {
    assert StepAt(cfg, labels, trace, q);
    StepRemembers(cfg, trace[q], labels[q], c);
    assert labels[q] == Collect(c);
    LostAfterThrow(cfg, labels, trace, q + 1, c);
    ThrewBefore(cfg, labels, trace, q + 1, c);
    var p :| 0 <= p < q + 1 && Throws(trace[p], labels[p], c);
    assert CutShort(labels, trace, p, q, c);
  }

  lemma LostAfterThrow(cfg: Config, labels: seq<Label>, trace: seq<State>, k: nat, c: nat)
    requires cfg.Valid() && IsRun(cfg, labels, trace) && Proper(labels, trace) && k <= |labels|
    requires c < |trace[k].calls| && trace[k].calls[c].lost != []
    ensures trace[k].calls[c].threw
  {
    RunInv(cfg, labels, trace, k);
    assert CallOk(cfg, trace[k].calls[c], trace[k].gone);
  }

  /** At p a collect of c throws, and at q the caller collects c again. */
  ghost predicate CutShort(labels: seq<Label>, trace: seq<State>, p: nat, q: nat, c: nat) {
    p < q < |labels| && q < |trace| && Throws(trace[p], labels[p], c) && labels[q] == Collect(c) && c < |trace[q].calls|
  }

  lemma {:induction false} ThrewBefore(cfg: Config, labels: seq<Label>, trace: seq<State>, k: nat, c: nat)
    requires IsRun(cfg, labels, trace) && k <= |labels| && c < |trace[k].calls| && trace[k].calls[c].threw
    ensures exists p :: 0 <= p < k && Throws(trace[p], labels[p], c)
  {
    if k == 0 || |trace[k - 1].calls| <= c {
      NotYetCalled(cfg, labels, trace, k, c);
    } else {
      assert StepAt(cfg, labels, trace, k - 1);
      StepRemembers(cfg, trace[k - 1], labels[k - 1], c);
      if trace[k - 1].calls[c].threw {
        ThrewBefore(cfg, labels, trace, k - 1, c);
      }
    }
  }

  // ---- Response buffers -----------------------------------------------------------------------

  /** Each response buffer is free or attached to exactly one slot. */
  ghost predicate ResponsesConserved(s: State) {
    (forall b :: 0 <= b < |s.res| ==> (s.res[b].held <==> exists i :: 0 <= i < |s.slots| && s.slots[i].resBuf == b)) &&
    (forall i, j :: 0 <= i < j < |s.slots| && s.slots[i].resBuf >= 0 ==> s.slots[i].resBuf != s.slots[j].resBuf)
  }

  lemma ResponseBuffersConserved(cfg: Config, labels: seq<Label>, trace: seq<State>, k: nat)
    requires cfg.Valid() && IsRun(cfg, labels, trace) && Proper(labels, trace) && k <= |labels|
    ensures ResponsesConserved(trace[k])
  {
    RunInv(cfg, labels, trace, k);
    var s := trace[k];
    forall b | 0 <= b < |s.res| && s.res[b].held
      ensures exists i :: 0 <= i < |s.slots| && s.slots[i].resBuf == b
    {
      assert s.slots[s.res[b].owner.slot].resBuf == b;
    }
  }
}
