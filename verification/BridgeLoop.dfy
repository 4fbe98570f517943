/** The responder's own loop: it loads SUBMIT_SEQ, sweeps the ring, and sleeps until the counter moves. The
    bridge of `BridgeModel` lets the responder look at any slot at any time; here it looks at them in order,
    sleeps in between, and the worker must wake it. */
module BridgeLoop {
  import opened BridgeModel
  import B = BridgeBase
  import A = BridgeAlways
  import R = BridgeRuns

  datatype Place =
    | Top
    | Sweep(seen: nat, i: nat)
    | Asleep(seen: nat)
    | Ended

  /** `owed` is the ping the worker has still to give for what it has just done. */
  datatype Loop = Loop(s: State, submitSeq: nat, owed: bool, place: Place)

  datatype LoopLabel =
    | Work(l: Label)    // the worker, or its caller
    | Ping
    | Load
    | Look
    | Rest
    | Wake
    | Serve(l: Label)   // the responder inside a slot, a handler, or `stop`

  /** The steps of the worker that end with a ping: a request published, an answer read, a call cancelled. */
  predicate Pings(cfg: Config, w: Worker) {
    w.Publish? || w.Read? || w.CancelMark? || (w.CancelStore? && cfg.atomicCancel)
  }

  predicate LoopEnabled(cfg: Config, x: Loop, l: LoopLabel) {
    match l
    case Work(l) => !A.ByHost(l) && !x.owed && Enabled(cfg, x.s, l)
    case Ping => x.owed
    case Load => x.place == Top && x.s.host == Watching
    case Look => x.place.Sweep? && x.place.i < |x.s.slots| && x.s.host == Watching
    case Rest => x.place.Sweep? && x.place.i >= |x.s.slots| && x.s.host == Watching
    case Wake => x.place.Asleep? && x.place.seen != x.submitSeq && x.s.host == Watching
    case Serve(l) => (l.HostGo? || l.Finish? || l.Stop?) && Enabled(cfg, x.s, l)
  }

  /** What the loop does at a slot it finds in this status. */
  function Visit(cfg: Config, s: State, i: nat): State
    requires i < |s.slots| && s.host == Watching
  {
    match s.slots[i].status
    case Pending => Next(cfg, s, See(i))
    case Cancelled => Next(cfg, s, Abandon(i))
    case _ => s
  }

  function LoopNext(cfg: Config, x: Loop, l: LoopLabel): Loop
    requires LoopEnabled(cfg, x, l)
  {
    match l
    case Work(l) => x.(s := Next(cfg, x.s, l), owed := l.WorkerGo? && Pings(cfg, x.s.worker))
    case Ping => x.(submitSeq := x.submitSeq + 1, owed := false)
    case Load => x.(place := Sweep(x.submitSeq, 0))
    case Look => x.(s := Visit(cfg, x.s, x.place.i), place := Sweep(x.place.seen, x.place.i + 1))
    case Rest => x.(place := Asleep(x.place.seen))
    case Wake => x.(place := Top)
    case Serve(l) => x.(s := Next(cfg, x.s, l), place := if l.Stop? then Ended else x.place)
  }

  function LoopInit(cfg: Config): Loop {
    Loop(Init(cfg), 0, false, Top)
  }

  ghost predicate IsLoopRun(cfg: Config, labels: seq<LoopLabel>, trace: seq<Loop>) {
    |trace| == |labels| + 1 && trace[0] == LoopInit(cfg) &&
    forall k {:trigger labels[k]} :: 0 <= k < |labels| ==>
      LoopEnabled(cfg, trace[k], labels[k]) && trace[k + 1] == LoopNext(cfg, trace[k], labels[k])
  }

  // ---- The loop is a bridge -------------------------------------------------------------------

  /** Every state of a loop's bridge is reached by a run of the bridge, so all that is proved of those
      holds here. */
  lemma {:induction false} LoopIsBridge(cfg: Config, labels: seq<LoopLabel>, trace: seq<Loop>, k: nat)
      returns (ls: seq<Label>, ss: seq<State>)
    requires IsLoopRun(cfg, labels, trace) && k <= |labels|
    ensures R.Reaches(cfg, ls, ss, trace[k].s)
  {
    if k == 0 {
      ls, ss := [], [Init(cfg)];
    } else {
      ls, ss := LoopIsBridge(cfg, labels, trace, k - 1);
      var x := trace[k - 1];
      assert trace[k] == LoopNext(cfg, x, labels[k - 1]);
      match labels[k - 1]
      case Work(l) => ls, ss := R.Go(cfg, ls, ss, x.s, l, trace[k].s);
      case Serve(l) => ls, ss := R.Go(cfg, ls, ss, x.s, l, trace[k].s);
      case Look =>
        if x.s.slots[x.place.i].status == Pending {
          ls, ss := R.Go(cfg, ls, ss, x.s, See(x.place.i), trace[k].s);
        } else if x.s.slots[x.place.i].status == Cancelled {
          ls, ss := R.Go(cfg, ls, ss, x.s, Abandon(x.place.i), trace[k].s);
        }
      case _ =>
    }
  }

  lemma LoopBase(cfg: Config, labels: seq<LoopLabel>, trace: seq<Loop>, k: nat)
    requires IsLoopRun(cfg, labels, trace) && k <= |labels|
    ensures B.Base(cfg, trace[k].s)
  {
    var ls, ss := LoopIsBridge(cfg, labels, trace, k);
    A.RunBase(cfg, ls, ss, |ls|);
  }

  // ---- What a sweep has established -----------------------------------------------------------

  /** A slot the sweep has to act on. */
  ghost predicate Calling(st: Status) {
    st == Pending || st == Cancelled
  }

  /** The responder is at slot i, and on its way to answering it or to handing it back. */
  ghost predicate BeingMet(s: State, i: nat)
    requires i < |s.slots|
  {
    var job := JobAt(s.host, i);
    (s.slots[i].status == Pending && (job.Take? || job.Loaded? || job.Taken?)) ||
    (s.slots[i].status == Cancelled && job.FreeIt?)
  }

  ghost predicate SlotMet(s: State, i: nat)
    requires i < |s.slots|
  {
    Calling(s.slots[i].status) ==> BeingMet(s, i)
  }

  ghost predicate Met(s: State, n: nat) {
    n <= |s.slots| && forall i {:trigger s.slots[i]} :: 0 <= i < n ==> SlotMet(s, i)
  }

  /** Unless the counter has moved since the sweep loaded it, or is about to, the slots behind the sweep
      have been dealt with. */
  ghost predicate PlaceOk(x: Loop) {
    (x.s.gone ==> x.place.Ended?) && (x.s.host.Gone? ==> x.s.gone) &&
    match x.place
    case Top => true
    case Sweep(seen, i) => i <= |x.s.slots| && seen <= x.submitSeq && (seen == x.submitSeq && !x.owed ==> Met(x.s, i))
    case Asleep(seen) => seen <= x.submitSeq && (seen == x.submitSeq && !x.owed ==> Met(x.s, |x.s.slots|))
    case Ended => true
  }

  /** Each slot's status stays, or moves between two that the sweep does not act on. */
  ghost predicate NoNewCalls(s: State, t: State) {
    t.host == s.host && |t.slots| == |s.slots| &&
    forall i {:trigger t.slots[i]} :: 0 <= i < |s.slots| ==>
      t.slots[i].status == s.slots[i].status || (!Calling(s.slots[i].status) && !Calling(t.slots[i].status))
  }

  /** A step of the worker that is not followed by a ping gives the responder nothing to do. */
  lemma SilentSteps(cfg: Config, s: State)
    requires B.Base(cfg, s) && WorkerReady(cfg, s) && !Pings(cfg, s.worker)
    ensures NoNewCalls(s, WorkerStep(cfg, s))
  {
  }

  lemma SilentRequests(cfg: Config, s: State, l: Label)
    requires B.Base(cfg, s) && Enabled(cfg, s, l) && !A.ByHost(l) && !l.WorkerGo?
    ensures NoNewCalls(s, Next(cfg, s, l))
  {
  }

  lemma MetStays(s: State, t: State, n: nat)
    requires Met(s, n) && NoNewCalls(s, t)
    ensures Met(t, n)
  {
    forall i | 0 <= i < n
      ensures SlotMet(t, i)
    {
      assert SlotMet(s, i) && t.slots[i] == t.slots[i];
    }
  }

  /** The responder deals with the slot it is at and adds no work of its own. */
  lemma HostMeets(cfg: Config, s: State, ch: Choice, i: nat)
    requires B.Base(cfg, s) && HostReady(cfg, s) && i < |s.slots| && SlotMet(s, i) && !s.gone
    ensures i < |HostStep(cfg, s, ch).slots| && SlotMet(HostStep(cfg, s, ch), i)
  {
    assert B.SlotBase(s, i);
    if s.host.At? && s.host.job.Taken? && s.host.slot != i && s.slots[s.host.slot].status == Pending {
      A.DispatchElsewhere(s, s.host.slot, s.host.job, ch, i);
    }
  }

  lemma FinishMeets(s: State, c: nat, a: Answer, n: nat)
    requires c in s.handlers && c < |s.calls| && s.handlers[c].slot < |s.slots| && s.host == Watching && Met(s, n)
    ensures Met(FinishStep(s, c, a), n)
  {
    forall i | 0 <= i < n
      ensures SlotMet(FinishStep(s, c, a), i)
    {
      assert SlotMet(s, i);
    }
  }

  lemma HostMeetsAll(cfg: Config, s: State, ch: Choice, n: nat)
    requires B.Base(cfg, s) && HostReady(cfg, s) && Met(s, n) && !s.gone
    ensures Met(HostStep(cfg, s, ch), n)
  {
    A.HostGrows(cfg, s, ch);
    forall i | 0 <= i < n
      ensures SlotMet(HostStep(cfg, s, ch), i)
    {
      assert SlotMet(s, i);
      HostMeets(cfg, s, ch, i);
    }
  }

  lemma VisitMeets(cfg: Config, s: State, n: nat)
    requires s.host == Watching && n < |s.slots| && Met(s, n)
    ensures Met(Visit(cfg, s, n), n + 1)
  {
    forall i | 0 <= i < n + 1
      ensures SlotMet(Visit(cfg, s, n), i)
    {
      assert i < n ==> SlotMet(s, i);
    }
  }

  // ---- Every run of the loop ------------------------------------------------------------------

  lemma WorkKeeps(cfg: Config, x: Loop, l: Label)
    requires B.Base(cfg, x.s) && PlaceOk(x) && LoopEnabled(cfg, x, Work(l))
    ensures PlaceOk(LoopNext(cfg, x, Work(l)))
  {
    var t := Next(cfg, x.s, l);
    A.StepGrows(cfg, x.s, l);
    WorkerLeavesHost(cfg, x.s, l);
    if !(l.WorkerGo? && Pings(cfg, x.s.worker)) {
      if l.WorkerGo? {
        SilentSteps(cfg, x.s);
      } else {
        SilentRequests(cfg, x.s, l);
      }
      if x.place.Sweep? && x.place.seen == x.submitSeq {
        MetStays(x.s, t, x.place.i);
      } else if x.place.Asleep? && x.place.seen == x.submitSeq {
        MetStays(x.s, t, |x.s.slots|);
      }
    }
  }

  lemma WorkerLeavesHost(cfg: Config, s: State, l: Label)
    requires Enabled(cfg, s, l) && !A.ByHost(l)
    ensures Next(cfg, s, l).host == s.host && Next(cfg, s, l).gone == s.gone
  {
    if l.WorkerGo? {
      match s.worker
      case Read(slot, cont) => ReadLeavesHost(cfg, s, slot, cont);
      case ClaimTry(_, _, _, _, _, _) =>
      case Park(_, _, _) =>
      case _ =>
    }
  }

  lemma ReadLeavesHost(cfg: Config, s: State, i: nat, cont: Cont)
    requires i < |s.slots|
    requires (match cont case SendNext(f) => f.call < |s.calls| case Collecting(c, _) => c < |s.calls|)
    ensures var t := ReadStep(cfg, s, i, cont); t.host == s.host && t.gone == s.gone
  {
  }

  lemma ServeKeeps(cfg: Config, x: Loop, l: Label)
    requires B.Base(cfg, x.s) && PlaceOk(x) && LoopEnabled(cfg, x, Serve(l))
    ensures PlaceOk(LoopNext(cfg, x, Serve(l)))
  {
    A.StepGrows(cfg, x.s, l);
    if !x.s.gone && !l.Stop? && (x.place.Sweep? || x.place.Asleep?) && x.place.seen == x.submitSeq && !x.owed {
      var n := if x.place.Sweep? then x.place.i else |x.s.slots|;
      match l
      case HostGo(ch) => HostMeetsAll(cfg, x.s, ch, n);
      case Finish(c, a) => FinishMeets(x.s, c, a, n);
    }
  }

  /** Every step of the loop, of the worker and of the handlers keeps the condition. */
  lemma LoopStep(cfg: Config, x: Loop, l: LoopLabel)
    requires B.Base(cfg, x.s) && PlaceOk(x) && LoopEnabled(cfg, x, l)
    ensures PlaceOk(LoopNext(cfg, x, l))
  {
    match l
    case Work(l) => WorkKeeps(cfg, x, l);
    case Serve(l) => ServeKeeps(cfg, x, l);
    case Look =>
      if x.place.seen == x.submitSeq && !x.owed {
        VisitMeets(cfg, x.s, x.place.i);
      }
    case _ =>
  }

  lemma {:induction false} LoopInv(cfg: Config, labels: seq<LoopLabel>, trace: seq<Loop>, k: nat)
    requires IsLoopRun(cfg, labels, trace) && k <= |labels|
    ensures PlaceOk(trace[k])
  {
    if k > 0 {
      LoopInv(cfg, labels, trace, k - 1);
      LoopBase(cfg, labels, trace, k - 1);
      LoopStep(cfg, trace[k - 1], labels[k - 1]);
    }
  }

  /** The responder is asleep: the counter has the value it loaded, and nobody is about to move it. */
  ghost predicate HostAsleep(x: Loop) {
    x.place == Asleep(x.submitSeq) && x.s.host == Watching && !x.owed
  }

  /** The responder never sleeps on work: while it is asleep no slot is pending and none is cancelled. */
  lemma NoSleepOnWork(cfg: Config, labels: seq<LoopLabel>, trace: seq<Loop>, k: nat)
    requires IsLoopRun(cfg, labels, trace) && k <= |labels| && HostAsleep(trace[k])
    ensures forall i :: 0 <= i < |trace[k].s.slots| ==> !Calling(trace[k].s.slots[i].status)
  {
    LoopInv(cfg, labels, trace, k);
    var s := trace[k].s;
    forall i | 0 <= i < |s.slots|
      ensures !Calling(s.slots[i].status)
    {
      assert SlotMet(s, i);
    }
  }

  /** The slot's call is with a handler, whose answer will be accepted. */
  ghost predicate InFlight(cfg: Config, s: State, i: nat) {
    i < |s.slots| && s.slots[i].status == Running && B.Served(s, i) &&
    Enabled(cfg, s, Finish(s.slots[i].call, Answer(OK, [])))
  }

  /** What the worker waits for is with a handler. It is never a request buffer. */
  ghost predicate WithHandlers(cfg: Config, s: State, why: Why) {
    match why
    case ForSlot(_, _, _) => exists i :: InFlight(cfg, s, i)
    case ForReqBuf(_) => false
    case ForReady(slot, _) => InFlight(cfg, s, slot)
    case ForAny(ts) => forall k :: 0 <= k < |ts| ==> ts[k] < |s.calls| && InFlight(cfg, s, s.calls[ts[k]].slot)
  }

  /** The two sides cannot sleep on each other: when both are asleep, what the worker waits for is with a
      handler, and only the handler can be late. */
  lemma NoDeadlock(cfg: Config, labels: seq<LoopLabel>, trace: seq<Loop>, k: nat)
    requires cfg.Valid() && IsLoopRun(cfg, labels, trace) && k <= |labels|
    requires HostAsleep(trace[k]) && A.Blocked(trace[k].s)
    ensures WithHandlers(cfg, trace[k].s, trace[k].s.worker.why)
  {
    var s := trace[k].s;
    LoopInv(cfg, labels, trace, k);
    NoSleepOnWork(cfg, labels, trace, k);
    var ls, ss := LoopIsBridge(cfg, labels, trace, k);
    A.RunBase(cfg, ls, ss, |ls|);
    A.NoLostWakeUp(cfg, ls, ss, |ls|);
    match s.worker.why
    case ForSlot(_, _, _) =>
      var i :| 0 <= i < cfg.slots && A.HostOwned(s.slots[i]);
      HandlerRuns(cfg, s, i);
    case ForReqBuf(_) =>
      A.BuffersHostMustRelease(cfg, ls, ss, |ls|, 0);
    case ForReady(slot, _) =>
      HandlerRuns(cfg, s, slot);
    case ForAny(ts) =>
      forall k | 0 <= k < |ts|
        ensures ts[k] < |s.calls| && InFlight(cfg, s, s.calls[ts[k]].slot)
      {
        assert Ticket(cfg, s, ts[k]) && !IsDone(s, ts[k]);
        B.TicketLive(cfg, s, ts[k]);
        HandlerRuns(cfg, s, s.calls[ts[k]].slot);
      }
  }

  lemma HandlerRuns(cfg: Config, s: State, i: nat)
    requires B.Base(cfg, s) && s.host == Watching && s.worker.Park? && i < |s.slots|
    requires s.slots[i].status == Running
    ensures InFlight(cfg, s, i)
  {
    assert B.SlotBase(s, i);
  }
}
