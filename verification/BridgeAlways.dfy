/** What the bridge promises in every run, whatever the interleaving. */
module BridgeAlways {
  import opened Options
  import opened BridgeModel
  import opened BridgeBase
  import H = BridgeBaseHost
  import W = BridgeBaseWorker

  lemma StepBase(cfg: Config, s: State, l: Label)
    requires Base(cfg, s) && Enabled(cfg, s, l)
    ensures Base(cfg, Next(cfg, s, l))
  {
    match l
    case Submit(_, _) => W.OtherBase(cfg, s, l);
    case Collect(c) => W.CollectBase(cfg, s, c);
    case Cancel(c) => W.CancelBase(cfg, s, c);
    case WaitAny(_) => W.OtherBase(cfg, s, l);
    case WorkerGo => W.WorkerKeepsBase(cfg, s);
    case TimeOut => W.OtherBase(cfg, s, l);
    case HostGo(ch) => H.HostBase(cfg, s, ch);
    case See(i) => H.SeeBase(cfg, s, i);
    case Abandon(i) => H.AbandonBase(cfg, s, i);
    case Finish(c, a) => H.FinishBase(cfg, s, c, a);
    case Stop => H.StopBase(cfg, s);
  }

  /** Every state of every run satisfies the base invariant. */
  lemma {:induction false} RunBase(cfg: Config, labels: seq<Label>, trace: seq<State>, k: nat)
    requires IsRun(cfg, labels, trace) && k <= |labels|
    ensures Base(cfg, trace[k])
  {
    if k == 0 {
      InitBase(cfg);
    } else {
      RunBase(cfg, labels, trace, k - 1);
      assert StepAt(cfg, labels, trace, k - 1);
      StepBase(cfg, trace[k - 1], labels[k - 1]);
    }
  }

  // ---- No lost wake-up ------------------------------------------------------------------------

  /** The worker is asleep in `Atomics.wait`: the counter still has the value it loaded. */
  ghost predicate Blocked(s: State) {
    s.worker.Park? && s.worker.phase == Wait && s.doneSeq == s.worker.seen
  }

  ghost predicate HostOwned(sl: Slot) {
    sl.status == Pending || sl.status == Running || sl.status == Cancelled
  }

  /** What a sleeping worker waits for has not happened. */
  ghost predicate StillWaiting(cfg: Config, s: State, why: Why)
    requires |s.slots| == cfg.slots
  {
    match why
    case ForSlot(_, _, _) =>
      (forall i :: 0 <= i < cfg.slots ==> s.slots[i].status != Free) &&
      (exists i :: 0 <= i < cfg.slots && HostOwned(s.slots[i]))
    case ForReqBuf(_) => forall b :: 0 <= b < |s.req| ==> s.req[b].held
    case ForReady(slot, _) => slot < cfg.slots && HostOwned(s.slots[slot]) && s.slots[slot].status != Cancelled
    case ForAny(tickets) =>
      forall k :: 0 <= k < |tickets| ==> Ticket(cfg, s, tickets[k]) && !IsDone(s, tickets[k])
  }

  /** No lost wake-up: a worker asleep while the host owes no bump is waiting for something that has not
      happened, and the host has not gone. */
  lemma NoLostWakeUp(cfg: Config, labels: seq<Label>, trace: seq<State>, k: nat)
    requires IsRun(cfg, labels, trace) && k <= |labels|
    requires Blocked(trace[k]) && !Unbumped(trace[k])
    ensures !trace[k].gone && |trace[k].slots| == cfg.slots && StillWaiting(cfg, trace[k], trace[k].worker.why)
  {
    RunBase(cfg, labels, trace, k);
    var s := trace[k];
    assert Quiet(s, s.worker.seen);
    match s.worker.why
    case ForSlot(_, _, lag) =>
      assert s.slots[lag].status != Claimed by { assert !FillsSlot(s.worker, lag); }
      assert HostOwned(s.slots[lag]);
    case ForReqBuf(_) =>
    case ForReady(_, _) =>
    case ForAny(_) =>
  }

  /** A watching host has a step to take at every slot it owns: a pending slot can be taken, a cancelled
      one handed back, and a running one has its handler in flight with a generation that will be
      accepted; or else the worker's own next store is about to mark the slot cancelled. */
  lemma HostOwesAStep(cfg: Config, labels: seq<Label>, trace: seq<State>, k: nat, i: nat)
    requires IsRun(cfg, labels, trace) && k <= |labels|
    requires i < |trace[k].slots| && HostOwned(trace[k].slots[i]) && trace[k].host == Watching
    ensures var s := trace[k];
      Enabled(cfg, s, See(i)) || Enabled(cfg, s, Abandon(i)) ||
      (Served(s, i) && Enabled(cfg, s, Finish(s.slots[i].call, Answer(OK, [])))) ||
      (Gap(s, i) && Enabled(cfg, s, WorkerGo) && Next(cfg, s, WorkerGo).slots[i].status == Cancelled)
  {
    RunBase(cfg, labels, trace, k);
    assert SlotBase(trace[k], i);
  }

  // ---- Claiming -------------------------------------------------------------------------------

  /** The scan in `claim` is not atomic, and is sound all the same: when it reports a full ring, every
      slot is ready at that moment. */
  lemma FullRingIsFull(cfg: Config, labels: seq<Label>, trace: seq<State>, k: nat)
    requires IsRun(cfg, labels, trace) && k <= |labels|
    requires trace[k].worker.ClaimTry? && trace[k].worker.i >= cfg.slots && trace[k].worker.ready == cfg.slots
    ensures forall i :: 0 <= i < |trace[k].slots| ==> trace[k].slots[i].status == Ready
  {
    RunBase(cfg, labels, trace, k);
  }

  predicate ByHost(l: Label) {
    l.HostGo? || l.See? || l.Abandon? || l.Finish? || l.Stop?
  }

  /** And no sequence of host steps can free one: ready slots stay ready until the worker acts. */
  lemma {:induction false} HostLeavesReady(cfg: Config, labels: seq<Label>, trace: seq<State>, k: nat, m: nat, i: nat)
    requires IsRun(cfg, labels, trace) && k <= m <= |labels|
    requires forall n :: k <= n < m ==> ByHost(labels[n])
    requires i < |trace[k].slots| && trace[k].slots[i].status == Ready
    ensures i < |trace[m].slots| && trace[m].slots[i].status == Ready
    decreases m
  {
    if k < m {
      HostLeavesReady(cfg, labels, trace, k, m - 1, i);
      RunBase(cfg, labels, trace, m - 1);
      assert ByHost(labels[m - 1]);
      assert StepAt(cfg, labels, trace, m - 1);
      ReadyStays(cfg, trace[m - 1], labels[m - 1], i);
    }
  }

  lemma ReadyStays(cfg: Config, s: State, l: Label, i: nat)
    requires Base(cfg, s) && Enabled(cfg, s, l) && ByHost(l) && i < |s.slots| && s.slots[i].status == Ready
    ensures i < |Next(cfg, s, l).slots| && Next(cfg, s, l).slots[i].status == Ready
  {
    if l.HostGo? {
      ReadyStaysHost(cfg, s, l.choice, i);
    }
  }

  lemma ReadyStaysHost(cfg: Config, s: State, ch: Choice, i: nat)
    requires SlotsBase(s) && HostReady(cfg, s) && i < |s.slots| && s.slots[i].status == Ready
    ensures i < |HostStep(cfg, s, ch).slots| && HostStep(cfg, s, ch).slots[i].status == Ready
  {
    assert SlotBase(s, i);
    if s.host.At? {
      match s.host.job
      case Take =>
      case Loaded(_, _) =>
      case Taken(_, _, _, bumped) =>
        if bumped && s.slots[s.host.slot].status == Pending {
          DispatchElsewhere(s, s.host.slot, s.host.job, ch, i);
        }
      case Reply(_, _) =>
      case Write(_, _, _) =>
      case FillIn(_, _) =>
      case PublishIt =>
      case FreeIt =>
    }
  }

  lemma DispatchElsewhere(s: State, j: nat, t: Job, ch: Choice, i: nat)
    requires j < |s.slots| && t.Taken? && s.slots[j].call < |s.calls| && i < |s.slots| && i != j
    ensures |Dispatch(s, j, t, ch).slots| == |s.slots| && Dispatch(s, j, t, ch).slots[i] == s.slots[i]
  {
  }

  // ---- Stopping -------------------------------------------------------------------------------

  predicate Outstanding(sl: Slot) {
    sl.status == Pending || sl.status == Running
  }

  /** At step n the stopping responder comes to slot i, and if a call is outstanding there it fails it. */
  ghost predicate FailsAt(labels: seq<Label>, trace: seq<State>, n: nat, i: nat)
    requires n < |labels| < |trace|
  {
    var s, t := trace[n], trace[n + 1];
    s.gone && s.host == Failing && s.sweep == i < |s.slots| && labels[n].HostGo? && t.sweep == i + 1 &&
    if Outstanding(s.slots[i]) then
      s.slots[i].call < |t.calls| && t.calls[s.slots[i].call].failed == Some(labels[n].choice.message) &&
      t.host == At(i, Reply(ERR, labels[n].choice.message))
    else t.host == Failing && t.slots == s.slots && t.calls == s.calls
  }

  /** The stopping responder comes to every slot: when it has passed slot i there was one step that did. */
  lemma {:induction false} StopFailsEverySlot(cfg: Config, labels: seq<Label>, trace: seq<State>, k: nat, i: nat)
      returns (n: nat)
    requires IsRun(cfg, labels, trace) && k <= |labels| && i < cfg.slots && i < trace[k].sweep
    ensures n < k && FailsAt(labels, trace, n, i)
  {
    assert StepAt(cfg, labels, trace, k - 1);
    RunBase(cfg, labels, trace, k - 1);
    if i < trace[k - 1].sweep {
      n := StopFailsEverySlot(cfg, labels, trace, k - 1, i);
    } else {
      n := k - 1;
      SweepStep(cfg, trace[n], labels[n], i);
    }
  }

  lemma SweepStep(cfg: Config, s: State, l: Label, i: nat)
    requires Base(cfg, s) && Enabled(cfg, s, l) && s.sweep <= i < Next(cfg, s, l).sweep && i < cfg.slots
    ensures l.HostGo? && s.host == Failing && s.sweep == i
  {
    if l.HostGo? && s.host.At? && s.host.job.Taken? {
      DispatchSweeps(s, s.host.slot, s.host.job, l.choice);
    }
  }

  lemma DispatchSweeps(s: State, i: nat, t: Job, ch: Choice)
    requires i < |s.slots| && t.Taken? && s.slots[i].call < |s.calls|
    ensures Dispatch(s, i, t, ch).sweep == s.sweep
  {
  }

  /** And once it is gone, it has passed them all. */
  lemma {:induction false} GoneIsSwept(cfg: Config, labels: seq<Label>, trace: seq<State>, k: nat)
    requires IsRun(cfg, labels, trace) && k <= |labels| && trace[k].host == Gone
    ensures trace[k].gone && trace[k].sweep > cfg.slots
  {
    RunSwept(cfg, labels, trace, k);
  }

  ghost predicate Swept(cfg: Config, s: State) {
    s.host == Gone ==> s.gone && s.sweep > cfg.slots
  }

  lemma {:induction false} RunSwept(cfg: Config, labels: seq<Label>, trace: seq<State>, k: nat)
    requires IsRun(cfg, labels, trace) && k <= |labels|
    ensures Swept(cfg, trace[k])
  {
    if k > 0 {
      RunSwept(cfg, labels, trace, k - 1);
      RunBase(cfg, labels, trace, k - 1);
      assert StepAt(cfg, labels, trace, k - 1);
      SweptStep(cfg, trace[k - 1], labels[k - 1]);
    }
  }

  lemma SweptStep(cfg: Config, s: State, l: Label)
    requires Base(cfg, s) && Enabled(cfg, s, l) && Swept(cfg, s)
    ensures Swept(cfg, Next(cfg, s, l))
  {
    if l.HostGo? {
      SweptHost(cfg, s, l.choice);
    } else if l.WorkerGo? {
      SweptWorker(cfg, s);
    }
  }

  lemma SweptHost(cfg: Config, s: State, ch: Choice)
    requires Base(cfg, s) && HostReady(cfg, s)
    ensures Swept(cfg, HostStep(cfg, s, ch))
  {
  }

  lemma SweptWorker(cfg: Config, s: State)
    requires WorkerReady(cfg, s)
    ensures var t := WorkerStep(cfg, s); t.host == s.host && t.gone == s.gone && t.sweep == s.sweep
  {
  }

  // ---- Tickets and generations ----------------------------------------------------------------

  ghost predicate Expired(s: State, c: nat) {
    c < |s.calls| && s.calls[c].slot < |s.slots| && s.slots[s.calls[c].slot].gen != s.calls[c].gen
  }

  /** Generations do not go back, and a call's ticket and arguments never change. */
  ghost predicate Grew(s: State, t: State) {
    |t.slots| == |s.slots| && |s.calls| <= |t.calls| &&
    (forall i :: 0 <= i < |s.slots| ==> s.slots[i].gen <= t.slots[i].gen) &&
    (forall c :: 0 <= c < |s.calls| ==> SameCall(s.calls[c], t.calls[c]))
  }

  lemma WorkerGrows(cfg: Config, s: State)
    requires WorkerReady(cfg, s)
    ensures Grew(s, WorkerStep(cfg, s))
  {
    match s.worker
    case Read(slot, cont) => ReadGrows(cfg, s, slot, cont);
    case Publish(f, b) => PublishGrows(cfg, s, f, b);
    case ClaimTry(_, _, _, _, _, _) => ClaimGrows(cfg, s);
    case CancelStore(_) => CancelGrows(cfg, s);
    case CancelMark(_) => CancelGrows(cfg, s);
    case Park(_, _, _) => ParkGrows(s);
    case _ =>
  }

  lemma ClaimGrows(cfg: Config, s: State)
    requires s.worker.ClaimTry? && |s.slots| == cfg.slots
    ensures Grew(s, ClaimTryStep(cfg, s, s.worker))
  {
  }

  lemma CancelGrows(cfg: Config, s: State)
    requires WorkerReady(cfg, s) && (s.worker.CancelStore? || s.worker.CancelMark?)
    ensures Grew(s, WorkerStep(cfg, s))
  {
  }

  lemma ParkGrows(s: State)
    requires s.worker.Park?
    ensures Grew(s, ParkStep(s, s.worker.seen, s.worker.why, s.worker.phase))
  {
  }

  lemma PublishGrows(cfg: Config, s: State, f: Fill, b: nat)
    requires f.slot < |s.slots| && f.call < |s.calls| && b < |s.req| &&
      s.calls[f.call].sent <= |s.calls[f.call].payload|
    ensures Grew(s, PublishStep(cfg, s, f, b))
  {
  }

  lemma ReadGrows(cfg: Config, s: State, i: nat, cont: Cont)
    requires i < |s.slots|
    requires (match cont case SendNext(f) => f.call < |s.calls| case Collecting(c, _) => c < |s.calls|)
    ensures Grew(s, ReadStep(cfg, s, i, cont))
  {
  }

  lemma HostGrows(cfg: Config, s: State, ch: Choice)
    requires HostReady(cfg, s)
    ensures Grew(s, HostStep(cfg, s, ch))
  {
    match s.host
    case At(i, Taken(_, _, _, _)) => DispatchGrows(s, i, s.host.job, ch);
    case At(i, FillIn(status, body)) => FillGrows(cfg, s, i, status, body, ch.buf);
    case Failing => FailGrows(s, ch.message);
    case _ => SmallGrows(cfg, s, ch);
  }

  lemma SmallGrows(cfg: Config, s: State, ch: Choice)
    requires HostReady(cfg, s) && !s.host.Failing? && (s.host.At? ==> !s.host.job.Taken? && !s.host.job.FillIn?)
    ensures Grew(s, HostStep(cfg, s, ch))
  {
    if s.host.At? {
      var i, t := s.host.slot, HostStep(cfg, s, ch);
      assert t.calls == s.calls && t.slots == s.slots[i := t.slots[i]] && t.slots[i].gen == s.slots[i].gen;
    }
  }

  lemma FailGrows(s: State, why: Bytes)
    requires s.sweep < |s.slots| ==> s.slots[s.sweep].status == Free || s.slots[s.sweep].call < |s.calls|
    ensures Grew(s, FailStep(s, why))
  {
  }

  lemma FillGrows(cfg: Config, s: State, i: nat, status: ResStatus, body: Bytes, want: int)
    requires i < |s.slots| && s.slots[i].call < |s.calls|
    ensures Grew(s, FillStep(cfg, s, i, status, body, want))
  {
  }

  lemma DispatchGrows(s: State, i: nat, t: Job, ch: Choice)
    requires i < |s.slots| && t.Taken? && s.slots[i].call < |s.calls|
    ensures Grew(s, Dispatch(s, i, t, ch))
  {
  }

  lemma StepGrows(cfg: Config, s: State, l: Label)
    requires Enabled(cfg, s, l)
    ensures Grew(s, Next(cfg, s, l))
  {
    match l
    case WorkerGo => WorkerGrows(cfg, s);
    case HostGo(ch) => HostGrows(cfg, s, ch);
    case Cancel(_) =>
    case Abandon(_) =>
    case Finish(_, _) =>
    case _ =>
  }

  lemma RunStep(cfg: Config, labels: seq<Label>, trace: seq<State>, k: nat)
    requires IsRun(cfg, labels, trace) && k < |labels|
    ensures Grew(trace[k], trace[k + 1])
  {
    assert StepAt(cfg, labels, trace, k);
    StepGrows(cfg, trace[k], labels[k]);
  }

  lemma {:induction false} RunGrows(cfg: Config, labels: seq<Label>, trace: seq<State>, k: nat, m: nat)
    requires IsRun(cfg, labels, trace) && k <= m <= |labels|
    ensures Grew(trace[k], trace[m])
    decreases m
  {
    if k < m {
      RunGrows(cfg, labels, trace, k, m - 1);
      RunStep(cfg, labels, trace, m - 1);
      GrewTwice(trace[k], trace[m - 1], trace[m]);
    } else {
      assert trace[m] == trace[k];
    }
  }

  lemma GrewTwice(s: State, t: State, u: State)
    requires Grew(s, t) && Grew(t, u)
    ensures Grew(s, u)
  {
  }

  lemma ExpiredStays(s: State, t: State, c: nat)
    requires Expired(s, c) && s.calls[c].gen <= s.slots[s.calls[c].slot].gen && Grew(s, t)
    ensures Expired(t, c)
  {
  }

  /** Over every run generations only grow, so a ticket that was collected or cancelled stays expired
      for ever, whatever later occupies its slot. */
  lemma ExpiredForEver(cfg: Config, labels: seq<Label>, trace: seq<State>, k: nat, m: nat, c: nat)
    requires IsRun(cfg, labels, trace) && k <= m <= |labels| && Expired(trace[k], c)
    ensures Grew(trace[k], trace[m]) && Expired(trace[m], c)
  {
    RunGrows(cfg, labels, trace, k, m);
    RunBase(cfg, labels, trace, k);
    assert GenOk(trace[k].slots, trace[k].calls[c], c);
    ExpiredStays(trace[k], trace[m], c);
  }

  /** No two calls have the same ticket. */
  ghost predicate TicketsDiffer(s: State) {
    forall c, d :: 0 <= c < d < |s.calls| && s.calls[c].slot == s.calls[d].slot ==> s.calls[c].gen < s.calls[d].gen
  }

  lemma TicketsStep(cfg: Config, s: State, l: Label)
    requires Base(cfg, s) && Enabled(cfg, s, l) && TicketsDiffer(s)
    ensures TicketsDiffer(Next(cfg, s, l))
  {
    var t := Next(cfg, s, l);
    StepGrows(cfg, s, l);
    if |t.calls| > |s.calls| {
      NewCall(cfg, s, l);
      NewTicket(s, t);
    }
  }

  lemma NewTicket(s: State, t: State)
    requires GensInv(s.slots, s.calls) && TicketsDiffer(s) && Grew(s, t) && |t.calls| == |s.calls| + 1
    requires var n := t.calls[|s.calls|];
      n.slot < |s.slots| && s.slots[n.slot].status == Free && n.gen == s.slots[n.slot].gen
    ensures TicketsDiffer(t)
  {
    assert forall c :: 0 <= c < |s.calls| ==> GenOk(s.slots, s.calls[c], c);
  }

  /** The only step that adds a call is the one that claims a free slot, at the slot's generation. */
  lemma NewCall(cfg: Config, s: State, l: Label)
    requires Sizes(cfg, s) && Enabled(cfg, s, l) && |Next(cfg, s, l).calls| > |s.calls|
    ensures var t := Next(cfg, s, l);
      |t.calls| == |s.calls| + 1 && var n := t.calls[|s.calls|];
      n.slot < |s.slots| && s.slots[n.slot].status == Free && n.gen == s.slots[n.slot].gen
  {
    match l
    case WorkerGo => if !s.worker.ClaimTry? { WorkerAddsNoCall(cfg, s); }
    case HostGo(ch) => HostAddsNoCall(cfg, s, ch);
    case _ =>
  }

  lemma WorkerAddsNoCall(cfg: Config, s: State)
    requires WorkerReady(cfg, s) && !s.worker.ClaimTry?
    ensures |WorkerStep(cfg, s).calls| == |s.calls|
  {
    if s.worker.Read? {
      ReadAddsNoCall(cfg, s, s.worker.slot, s.worker.cont);
    }
  }

  lemma ReadAddsNoCall(cfg: Config, s: State, i: nat, cont: Cont)
    requires i < |s.slots|
    requires (match cont case SendNext(f) => f.call < |s.calls| case Collecting(c, _) => c < |s.calls|)
    ensures |ReadStep(cfg, s, i, cont).calls| == |s.calls|
  {
  }

  lemma HostAddsNoCall(cfg: Config, s: State, ch: Choice)
    requires HostReady(cfg, s)
    ensures |HostStep(cfg, s, ch).calls| == |s.calls|
  {
  }

  /** Over every run, so a ticket never matches a later occupant of its slot. */
  lemma {:induction false} TicketsAlwaysDiffer(cfg: Config, labels: seq<Label>, trace: seq<State>, k: nat)
    requires IsRun(cfg, labels, trace) && k <= |labels|
    ensures TicketsDiffer(trace[k])
  {
    if k > 0 {
      TicketsAlwaysDiffer(cfg, labels, trace, k - 1);
      RunBase(cfg, labels, trace, k - 1);
      assert StepAt(cfg, labels, trace, k - 1);
      TicketsStep(cfg, trace[k - 1], labels[k - 1]);
    }
  }

  // ---- Request buffers ------------------------------------------------------------------------

  /** Each request buffer is free, or in the worker's hand between taking and attaching it, or attached
      to exactly one slot. */
  ghost predicate RequestsConserved(s: State) {
    (forall b :: 0 <= b < |s.req| ==>
      (s.req[b].held <==>
        (s.worker.Publish? && s.worker.buf == b) || exists i :: 0 <= i < |s.slots| && s.slots[i].reqBuf == b) &&
      !(s.worker.Publish? && s.worker.buf == b && exists i :: 0 <= i < |s.slots| && s.slots[i].reqBuf == b)) &&
    (forall i, j :: 0 <= i < j < |s.slots| && s.slots[i].reqBuf >= 0 ==> s.slots[i].reqBuf != s.slots[j].reqBuf)
  }

  lemma RequestBuffersConserved(cfg: Config, labels: seq<Label>, trace: seq<State>, k: nat)
    requires IsRun(cfg, labels, trace) && k <= |labels|
    ensures RequestsConserved(trace[k])
  {
    RunBase(cfg, labels, trace, k);
    var s := trace[k];
    forall b | 0 <= b < |s.req| && s.req[b].held
      ensures (s.worker.Publish? && s.worker.buf == b) || exists i :: 0 <= i < |s.slots| && s.slots[i].reqBuf == b
    {
      if s.req[b].owner.AtSlot? {
        assert s.slots[s.req[b].owner.slot].reqBuf == b;
      }
    }
  }

  /** A request in buffer b that the host has to take, or to hand back. */
  ghost predicate HoldsRequest(sl: Slot, b: nat) {
    sl.reqBuf == b && (sl.status == Pending || sl.status == Cancelled)
  }

  /** A parked worker's missing request buffers are all attached to slots the host must take or hand
      back. */
  lemma BuffersHostMustRelease(cfg: Config, labels: seq<Label>, trace: seq<State>, k: nat, b: nat)
    requires IsRun(cfg, labels, trace) && k <= |labels|
    requires trace[k].worker.Park? && b < |trace[k].req| && trace[k].req[b].held
    ensures exists i :: 0 <= i < |trace[k].slots| && HoldsRequest(trace[k].slots[i], b)
  {
    RunBase(cfg, labels, trace, k);
    var s := trace[k];
    var i := s.req[b].owner.slot;
    assert SlotBase(s, i);
    assert HoldsRequest(s.slots[i], b);
  }
}
