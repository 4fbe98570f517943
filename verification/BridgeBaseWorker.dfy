/** Every worker step keeps the base invariant. */
module BridgeBaseWorker {
  import opened BridgeModel
  import opened BridgeBase

  /** A step of the worker at slot j: the responder, and every slot, call and buffer of another slot, are
      as they were. */
  ghost predicate WorkerAt(s: State, t: State, j: nat, c: nat) {
    j < |s.slots| == |t.slots| && |t.req| == |s.req| && |t.res| == |s.res| &&
    t.host == s.host && t.handlers == s.handlers && t.gone == s.gone && t.sweep == s.sweep &&
    (forall i :: 0 <= i < |s.slots| && i != j ==> t.slots[i] == s.slots[i] && !Gap(s, i) && !Gap(t, i)) &&
    |s.calls| <= |t.calls| && (forall k :: 0 <= k < |s.calls| && k != c ==> t.calls[k] == s.calls[k]) &&
    (c < |s.calls| ==> s.calls[c].slot == j && t.calls[c].slot == j && t.calls[c].gen == s.calls[c].gen)
  }

  lemma OthersBase(s: State, t: State, j: nat, c: nat)
    requires SlotsBase(s) && WorkerAt(s, t, j, c)
    ensures forall i :: 0 <= i < |s.slots| && i != j ==> SameBase(s, t, i)
  {
    forall i | 0 <= i < |s.slots| && i != j
      ensures SameBase(s, t, i)
    {
      assert SlotBase(s, i);
    }
  }

  lemma WorkerStepBase(cfg: Config, s: State, t: State, j: nat, c: nat)
    requires Base(cfg, s) && Sizes(cfg, t) && WorkerAt(s, t, j, c)
    requires SlotBase(t, j) && GenMove(s.slots[j], t.slots[j], |s.calls|)
    requires |t.calls| == |s.calls| || (|t.calls| == |s.calls| + 1 && GenOk(t.slots, t.calls[|s.calls|], |s.calls|))
    requires ReqInv(t.slots, t.req, InHand(t.worker)) && NotOrphaned(t.slots, t.gone, t.worker) && WorkerBase(cfg, t)
    ensures Base(cfg, t)
  {
    OthersBase(s, t, j, c);
    SlotsBaseFrame(s, t, j);
    GensFrame(s.slots, t.slots, s.calls, t.calls, j);
  }

  // ---- Steps that only move the worker --------------------------------------------------------

  ghost predicate SameTickets(calls: seq<Call>, calls': seq<Call>) {
    |calls'| == |calls| && forall c :: 0 <= c < |calls| ==> SameTicket(calls[c], calls'[c])
  }

  lemma MovesBase(cfg: Config, s: State, t: State)
    requires Base(cfg, s) && t == s.(worker := t.worker, calls := t.calls) && SameTickets(s.calls, t.calls)
    requires !s.worker.CancelMark? && !t.worker.CancelMark? && InHand(t.worker) == InHand(s.worker)
    requires NotOrphaned(s.slots, s.gone, t.worker) && WorkerBase(cfg, t)
    ensures Base(cfg, t)
  {
    forall i | 0 <= i < |t.slots|
      ensures SlotBase(t, i)
    {
      assert SlotBase(s, i);
      assert s.slots[i].status != Free ==> SameTicket(s.calls[s.slots[i].call], t.calls[s.slots[i].call]);
    }
    forall c | 0 <= c < |t.calls|
      ensures GenOk(t.slots, t.calls[c], c)
    {
      assert GenOk(s.slots, s.calls[c], c) && SameTicket(s.calls[c], t.calls[c]);
    }
  }

  lemma LoadBase(cfg: Config, s: State)
    requires Base(cfg, s)
    requires s.worker.ClaimLoad? || s.worker.BufLoad? || s.worker.AwaitLoad? || s.worker.AnyLoad?
    ensures Base(cfg, WorkerStep(cfg, s))
  {
    MovesBase(cfg, s, WorkerStep(cfg, s));
  }

  lemma AwaitCheckBase(cfg: Config, s: State)
    requires Base(cfg, s) && s.worker.AwaitCheck? && WorkerReady(cfg, s)
    ensures Base(cfg, WorkerStep(cfg, s))
  {
    MovesBase(cfg, s, WorkerStep(cfg, s));
  }

  lemma AnyScanBase(cfg: Config, s: State)
    requires Base(cfg, s) && s.worker.AnyScan? && WorkerReady(cfg, s)
    ensures Base(cfg, WorkerStep(cfg, s))
  {
    NoneDoneGrows(cfg, s);
    MovesBase(cfg, s, WorkerStep(cfg, s));
  }

  lemma NoneDoneGrows(cfg: Config, s: State)
    requires Sizes(cfg, s) && s.worker.AnyScan? && WorkerReady(cfg, s) && WorkerBase(cfg, s)
    ensures WorkerBase(cfg, WorkerStep(cfg, s))
  {
  }

  lemma ClaimPeekBase(cfg: Config, s: State)
    requires Base(cfg, s) && s.worker.ClaimPeek?
    ensures Base(cfg, WorkerStep(cfg, s))
  {
    var w := s.worker;
    ScanGrows(s, w.seen, w.i, w.ready, w.lag);
    MovesBase(cfg, s, WorkerStep(cfg, s));
  }

  lemma ScanGrows(s: State, seen: nat, i: nat, ready: nat, lag: int)
    requires i < |s.slots| && Scanned(s, seen, i, ready, lag) && (Quiet(s, seen) ==> s.slots[i].status != Free)
    ensures Scanned(s, seen, i + 1, if s.slots[i].status == Ready then ready + 1 else ready,
                    if s.slots[i].status == Ready then lag else i)
  {
  }

  lemma ClaimMissBase(cfg: Config, s: State)
    requires Base(cfg, s) && s.worker.ClaimTry?
    requires s.worker.i < cfg.slots ==> s.slots[s.worker.i].status != Free
    ensures Base(cfg, WorkerStep(cfg, s))
  {
    MovesBase(cfg, s, WorkerStep(cfg, s));
  }

  lemma BufMissBase(cfg: Config, s: State)
    requires Base(cfg, s) && s.worker.BufTry?
    requires s.worker.i < cfg.bufs ==> s.req[s.worker.i].held
    ensures Base(cfg, WorkerStep(cfg, s))
  {
    MovesBase(cfg, s, WorkerStep(cfg, s));
  }

  lemma ParkBase(cfg: Config, s: State)
    requires Base(cfg, s) && s.worker.Park? && WorkerReady(cfg, s)
    ensures Base(cfg, WorkerStep(cfg, s))
  {
    var t := WorkerStep(cfg, s);
    if s.worker.phase != Wait && s.gone {
      ThrowBase(cfg, s);
    } else if s.worker.phase == After {
      ResumeBase(cfg, s);
      MovesBase(cfg, s, t);
    } else {
      WhyFrame(cfg, s, t, s.worker.seen, s.worker.why);
      MovesBase(cfg, s, t);
    }
  }

  lemma ThrowBase(cfg: Config, s: State)
    requires Base(cfg, s) && s.worker.Park? && s.worker.phase != Wait && s.gone
    ensures Base(cfg, Throw(s, s.worker.why))
  {
    MovesBase(cfg, s, Throw(s, s.worker.why));
  }

  lemma WhyFrame(cfg: Config, s: State, t: State, seen: nat, why: Why)
    requires Sizes(cfg, s) && t == s.(worker := t.worker) && WhyBase(cfg, s, seen, why)
    ensures WhyBase(cfg, t, seen, why)
  {
    if why.ForAny? {
      assert forall k :: 0 <= k < |why.tickets| ==> Ticket(cfg, s, why.tickets[k]) ==> Ticket(cfg, t, why.tickets[k]);
    }
  }

  lemma ResumeBase(cfg: Config, s: State)
    requires Base(cfg, s) && s.worker.Park?
    ensures WorkerBase(cfg, s.(worker := Resume(s.worker.why)))
    ensures NotOrphaned(s.slots, s.gone, Resume(s.worker.why)) && InHand(Resume(s.worker.why)) == -1
  {
    match s.worker.why
    case ForSlot(_, _, _) =>
    case ForReqBuf(_) =>
    case ForReady(_, _) =>
    case ForAny(_) =>
  }

  // ---- Claiming, buffering and publishing -----------------------------------------------------

  lemma ClaimHitBase(cfg: Config, s: State)
    requires Base(cfg, s) && s.worker.ClaimTry? && s.worker.i < cfg.slots && s.slots[s.worker.i].status == Free
    ensures Base(cfg, WorkerStep(cfg, s))
  {
    var i, t := s.worker.i, WorkerStep(cfg, s);
    assert SlotBase(s, i);
    ReqSame(s.slots, t.slots, s.req, -1);
    WorkerStepBase(cfg, s, t, i, |s.calls|);
  }

  lemma BufHitBase(cfg: Config, s: State)
    requires Base(cfg, s) && s.worker.BufTry? && s.worker.i < cfg.bufs && !s.req[s.worker.i].held
    ensures Base(cfg, WorkerStep(cfg, s))
  {
    var t, j := WorkerStep(cfg, s), s.worker.fill.slot;
    assert SlotBase(s, j);
    WorkerStepBase(cfg, s, t, j, |s.calls|);
  }

  lemma PublishBase(cfg: Config, s: State)
    requires Base(cfg, s) && s.worker.Publish? && WorkerReady(cfg, s)
    ensures Base(cfg, WorkerStep(cfg, s))
  {
    var t, f, b := WorkerStep(cfg, s), s.worker.fill, s.worker.buf;
    var c := s.calls[f.call];
    assert SlotBase(s, f.slot);
    GrabReq(s.slots, t.slots, s.req, f.slot, b,
            if |c.payload| - c.sent > cfg.bufBytes then c.payload[c.sent..c.sent + cfg.bufBytes]
              else c.payload[c.sent..]);
    WorkerStepBase(cfg, s, t, f.slot, f.call);
  }

  // ---- Reading and releasing ------------------------------------------------------------------

  /** Giving a slot back, with the record of its call changed or not. */
  lemma ReleaseBase(cfg: Config, s: State, t: State, j: nat, c: nat)
    requires Base(cfg, s) && j < cfg.slots && Busy(s.slots[j]) && s.slots[j].status == Ready && s.slots[j].call == c
    requires !s.worker.CancelMark? && !s.worker.Publish? && (forall i :: !FillsSlot(s.worker, i))
    requires t == ReleaseSlot(s.(calls := t.calls), j).(worker := Idle) && SameTickets(s.calls, t.calls)
    ensures Base(cfg, t)
  {
    assert SlotBase(s, j);
    ReqSame(s.slots, t.slots, s.req, -1);
    var u := s.(calls := t.calls, worker := Idle);
    MovesBase(cfg, s, u);
    assert SlotBase(u, j);
    WorkerStepBase(cfg, u, t, j, c);
  }

  /** The read releases the slot, rather than going on with it. */
  ghost predicate LastRead(s: State)
    requires s.worker.Read? && s.worker.slot < |s.slots|
  {
    var status := s.slots[s.worker.slot].resStatus;
    status == ERR || (s.worker.cont.Collecting? && status != MORE)
  }

  lemma ReadLastBase(cfg: Config, s: State)
    requires Base(cfg, s) && s.worker.Read? && WorkerReady(cfg, s) && LastRead(s)
    ensures Base(cfg, WorkerStep(cfg, s))
  {
    ReleaseBase(cfg, s, WorkerStep(cfg, s), s.worker.slot, CallOf(s.worker.cont));
  }

  lemma ReadOnBase(cfg: Config, s: State)
    requires Base(cfg, s) && s.worker.Read? && WorkerReady(cfg, s) && !LastRead(s)
    ensures Base(cfg, WorkerStep(cfg, s))
  {
    var t, j := WorkerStep(cfg, s), s.worker.slot;
    assert SlotBase(s, j);
    ReqSame(s.slots, t.slots, s.req, -1);
    WorkerStepBase(cfg, s, t, j, CallOf(s.worker.cont));
  }

  // ---- Cancelling -----------------------------------------------------------------------------

  lemma CancelStoreAt(cfg: Config, s: State)
    requires Base(cfg, s) && s.worker.CancelStore? && WorkerReady(cfg, s)
    ensures var c, t := s.worker.call, WorkerStep(cfg, s);
      Sizes(cfg, t) && SlotBase(t, s.calls[c].slot) && WorkerBase(cfg, t)
  {
    TicketLive(cfg, s, s.worker.call);
    assert SlotBase(s, s.calls[s.worker.call].slot);
  }

  lemma CancelStoreBase(cfg: Config, s: State)
    requires Base(cfg, s) && s.worker.CancelStore? && WorkerReady(cfg, s)
    ensures Base(cfg, WorkerStep(cfg, s))
  {
    var c, t := s.worker.call, WorkerStep(cfg, s);
    CancelStoreAt(cfg, s);
    ReqSame(s.slots, t.slots, s.req, -1);
    WorkerStepBase(cfg, s, t, s.calls[c].slot, c);
  }

  lemma CancelMarkBase(cfg: Config, s: State)
    requires Base(cfg, s) && s.worker.CancelMark? && WorkerReady(cfg, s)
    ensures Base(cfg, WorkerStep(cfg, s))
  {
    var c, t := s.worker.call, WorkerStep(cfg, s);
    var j := s.calls[c].slot;
    assert SlotBase(s, j);
    ReqSame(s.slots, t.slots, s.req, -1);
    OthersBase(s, t, j, c);
    SlotsBaseFrame(s, t, j);
    forall k | 0 <= k < |t.calls|
      ensures GenOk(t.slots, t.calls[k], k)
    {
      assert GenOk(s.slots, s.calls[k], k);
    }
  }

  lemma CancelBase(cfg: Config, s: State, c: nat)
    requires Base(cfg, s) && Enabled(cfg, s, Cancel(c))
    ensures Base(cfg, Next(cfg, s, Cancel(c)))
  {
    var t, j := Next(cfg, s, Cancel(c)), s.calls[c].slot;
    if s.slots[j].gen == s.calls[c].gen {
      TicketLive(cfg, s, c);
      if s.slots[j].status == Ready {
        ReleaseBase(cfg, s, t, j, c);
      } else {
        MovesBase(cfg, s, t);
      }
    }
  }

  lemma CollectBase(cfg: Config, s: State, c: nat)
    requires Base(cfg, s) && Enabled(cfg, s, Collect(c))
    ensures Base(cfg, Next(cfg, s, Collect(c)))
  {
    if s.slots[s.calls[c].slot].gen == s.calls[c].gen {
      TicketLive(cfg, s, c);
      MovesBase(cfg, s, Next(cfg, s, Collect(c)));
    }
  }

  lemma OtherBase(cfg: Config, s: State, l: Label)
    requires Base(cfg, s) && Enabled(cfg, s, l) && (l.Submit? || l.WaitAny? || l.TimeOut?)
    ensures Base(cfg, Next(cfg, s, l))
  {
    MovesBase(cfg, s, Next(cfg, s, l));
  }

  /** Every step of the worker keeps the base invariant. */
  lemma WorkerKeepsBase(cfg: Config, s: State)
    requires Base(cfg, s) && WorkerReady(cfg, s)
    ensures Base(cfg, WorkerStep(cfg, s))
  {
    match s.worker
    case Idle =>
    case ClaimLoad(_, _) => LoadBase(cfg, s);
    case ClaimTry(_, _, _, i, _, _) =>
      if i < cfg.slots && s.slots[i].status == Free { ClaimHitBase(cfg, s); } else { ClaimMissBase(cfg, s); }
    case ClaimPeek(_, _, _, _, _, _) => ClaimPeekBase(cfg, s);
    case BufLoad(_) => LoadBase(cfg, s);
    case BufTry(_, _, i) => if i < cfg.bufs && !s.req[i].held { BufHitBase(cfg, s); } else { BufMissBase(cfg, s); }
    case Publish(_, _) => PublishBase(cfg, s);
    case AwaitLoad(_, _) => LoadBase(cfg, s);
    case AwaitCheck(_, _, _) => AwaitCheckBase(cfg, s);
    case Read(_, _) => if LastRead(s) { ReadLastBase(cfg, s); } else { ReadOnBase(cfg, s); }
    case AnyLoad(_) => LoadBase(cfg, s);
    case AnyScan(_, _, _) => AnyScanBase(cfg, s);
    case CancelStore(_) => CancelStoreBase(cfg, s);
    case CancelMark(_) => CancelMarkBase(cfg, s);
    case Park(_, _, _) => ParkBase(cfg, s);
  }
}
