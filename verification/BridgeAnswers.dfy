/** Where an answer comes from: in every run, what is recorded as a call's answer was given by its handler, and
    what is recorded as its failure by the stopping responder. */
module BridgeAnswers {
  import opened Options
  import opened BridgeModel
  import opened BridgeBase
  import A = BridgeAlways

  /** The step l answers call c with a: its handler finishes with it, or there is no handler for its opcode
      and the answer is a failure that says so. */
  ghost predicate Gives(s: State, l: Label, c: nat, a: Answer) {
    l == Finish(c, a) ||
    (l.HostGo? && !l.choice.known && a == Answer(ERR, l.choice.message) && s.host.At? && s.host.job.Taken? &&
      s.host.job.op.User? && s.host.slot < |s.slots| && s.slots[s.host.slot].call == c)
  }

  /** The step l fails call c with this text: the stopping responder finds it outstanding in its slot. */
  ghost predicate Fails(s: State, l: Label, c: nat, why: Bytes) {
    l.HostGo? && l.choice.message == why && s.host == Failing && s.sweep < |s.slots| &&
    A.Outstanding(s.slots[s.sweep]) && s.slots[s.sweep].call == c
  }

  /** What the record of a call says of its answer and its failure stays, or this step has given it. */
  ghost predicate Recorded(s: State, l: Label, c: nat, k: Call, k': Call) {
    (k'.answer == k.answer || (k'.answer.Some? && Gives(s, l, c, k'.answer.value))) &&
    (k'.failed == k.failed || (k'.failed.Some? && Fails(s, l, c, k'.failed.value)))
  }

  ghost predicate KeptRecord(k: Call, k': Call) {
    k'.answer == k.answer && k'.failed == k.failed
  }

  lemma RecordStep(cfg: Config, s: State, l: Label, c: nat)
    requires Enabled(cfg, s, l) && c < |s.calls|
    ensures c < |Next(cfg, s, l).calls| && Recorded(s, l, c, s.calls[c], Next(cfg, s, l).calls[c])
  {
    A.StepGrows(cfg, s, l);
    match l
    case WorkerGo => WorkerRecords(cfg, s, c);
    case HostGo(ch) => HostRecords(cfg, s, ch, c);
    case _ =>
  }

  lemma WorkerRecords(cfg: Config, s: State, c: nat)
    requires WorkerReady(cfg, s) && c < |s.calls| <= |WorkerStep(cfg, s).calls|
    ensures KeptRecord(s.calls[c], WorkerStep(cfg, s).calls[c])
  {
    if s.worker.Read? {
      ReadRecords(cfg, s, s.worker.slot, s.worker.cont, c);
    }
  }

  lemma ReadRecords(cfg: Config, s: State, i: nat, cont: Cont, c: nat)
    requires i < |s.slots| && c < |s.calls|
    requires (match cont case SendNext(f) => f.call < |s.calls| case Collecting(k, _) => k < |s.calls|)
    ensures var t := ReadStep(cfg, s, i, cont); c < |t.calls| && KeptRecord(s.calls[c], t.calls[c])
  {
  }

  lemma HostRecords(cfg: Config, s: State, ch: Choice, c: nat)
    requires HostReady(cfg, s) && c < |s.calls| <= |HostStep(cfg, s, ch).calls|
    ensures Recorded(s, HostGo(ch), c, s.calls[c], HostStep(cfg, s, ch).calls[c])
  {
    match s.host
    case At(i, Taken(_, _, _, _)) => DispatchRecords(s, i, s.host.job, ch, c);
    case _ =>
  }

  lemma DispatchRecords(s: State, i: nat, t: Job, ch: Choice, c: nat)
    requires i < |s.slots| && t.Taken? && s.slots[i].call < |s.calls| && c < |s.calls| && s.host == At(i, t)
    ensures var u := Dispatch(s, i, t, ch); c < |u.calls| && Recorded(s, HostGo(ch), c, s.calls[c], u.calls[c])
  {
  }

  lemma NewRecord(cfg: Config, s: State, l: Label, c: nat)
    requires Sizes(cfg, s) && Enabled(cfg, s, l) && |s.calls| <= c < |Next(cfg, s, l).calls|
    ensures Next(cfg, s, l).calls[c].answer == None && Next(cfg, s, l).calls[c].failed == None
  {
    A.NewCall(cfg, s, l);
    if l.HostGo? {
      A.HostAddsNoCall(cfg, s, l.choice);
    } else if l.WorkerGo? && !s.worker.ClaimTry? {
      A.WorkerAddsNoCall(cfg, s);
    }
  }

  /** The answer of a call was given by a step of the run. */
  lemma {:induction false} AnswersAreGiven(cfg: Config, labels: seq<Label>, trace: seq<State>, k: nat, c: nat)
      returns (n: nat)
    requires IsRun(cfg, labels, trace) && k <= |labels| && c < |trace[k].calls| && trace[k].calls[c].answer.Some?
    ensures n < k && Gives(trace[n], labels[n], c, trace[k].calls[c].answer.value)
  {
    assert StepAt(cfg, labels, trace, k - 1);
    A.RunBase(cfg, labels, trace, k - 1);
    if c >= |trace[k - 1].calls| {
      NewRecord(cfg, trace[k - 1], labels[k - 1], c);
    } else {
      RecordStep(cfg, trace[k - 1], labels[k - 1], c);
      if trace[k].calls[c].answer == trace[k - 1].calls[c].answer {
        n := AnswersAreGiven(cfg, labels, trace, k - 1, c);
      } else {
        n := k - 1;
      }
    }
  }

  /** And so was its failure. */
  lemma {:induction false} FailuresAreGiven(cfg: Config, labels: seq<Label>, trace: seq<State>, k: nat, c: nat)
      returns (n: nat)
    requires IsRun(cfg, labels, trace) && k <= |labels| && c < |trace[k].calls| && trace[k].calls[c].failed.Some?
    ensures n < k && Fails(trace[n], labels[n], c, trace[k].calls[c].failed.value)
  {
    assert StepAt(cfg, labels, trace, k - 1);
    A.RunBase(cfg, labels, trace, k - 1);
    if c >= |trace[k - 1].calls| {
      NewRecord(cfg, trace[k - 1], labels[k - 1], c);
    } else {
      RecordStep(cfg, trace[k - 1], labels[k - 1], c);
      if trace[k].calls[c].failed == trace[k - 1].calls[c].failed {
        n := FailuresAreGiven(cfg, labels, trace, k - 1, c);
      } else {
        n := k - 1;
      }
    }
  }
}
