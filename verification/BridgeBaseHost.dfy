/** Every responder step keeps the base invariant. */
module BridgeBaseHost {
  import opened BridgeModel
  import opened BridgeBase

  // ---- What a host step leaves alone ----------------------------------------------------------

  ghost predicate SlotMoved(sl: Slot, sl': Slot) {
    sl'.gen == sl.gen && sl'.call == sl.call &&
    (sl'.status == sl.status || (sl.status == Pending && sl'.status == Running) ||
     (sl.status == Running && sl'.status == Ready) || (sl.status == Cancelled && sl'.status == Free))
  }

  /** A host step between two states. If it frees or readies anything, or stops, it owes a bump; if it
      pays one, the counter moves. */
  ghost predicate HostMoved(cfg: Config, s: State, t: State)
    requires Sizes(cfg, s) && Sizes(cfg, t)
  {
    t.worker == s.worker && s.doneSeq <= t.doneSeq && |t.calls| == |s.calls| && (s.gone ==> t.gone) &&
    (forall i :: 0 <= i < cfg.slots ==> SlotMoved(s.slots[i], t.slots[i])) &&
    (forall c :: 0 <= c < |s.calls| ==> SameTicket(s.calls[c], t.calls[c])) &&
    (forall b :: 0 <= b < cfg.bufs && s.req[b].owner == TheWorker ==> t.req[b].owner == TheWorker) &&
    (t.doneSeq == s.doneSeq && !Unbumped(t) ==>
      !Unbumped(s) && t.gone == s.gone &&
      (forall i :: 0 <= i < cfg.slots ==>
        (t.slots[i].status == Free ==> s.slots[i].status == Free) &&
        (t.slots[i].status == Ready ==> s.slots[i].status == Ready)) &&
      (forall b :: 0 <= b < cfg.bufs && s.req[b].held ==> t.req[b].held))
  }

  lemma ScannedKept(cfg: Config, s: State, t: State, seen: nat, n: nat, ready: nat, lag: int)
    requires Sizes(cfg, s) && Sizes(cfg, t) && HostMoved(cfg, s, t) && n <= cfg.slots && Scanned(s, seen, n, ready, lag)
    ensures Scanned(t, seen, n, ready, lag)
  {
    forall k | 0 <= k < n
      ensures SlotMoved(s.slots[k], t.slots[k])
    {
    }
  }

  lemma BufsHeldKept(cfg: Config, s: State, t: State, seen: nat, n: nat)
    requires Sizes(cfg, s) && Sizes(cfg, t) && HostMoved(cfg, s, t) && n <= cfg.bufs && BufsHeld(s, seen, n)
    ensures BufsHeld(t, seen, n)
  {
  }

  lemma NoneDoneKept(cfg: Config, s: State, t: State, tickets: seq<nat>, seen: nat, n: nat)
    requires Sizes(cfg, s) && Sizes(cfg, t) && HostMoved(cfg, s, t) && n <= |tickets| &&
      NoneDone(cfg, s, tickets, seen, n)
    ensures NoneDone(cfg, t, tickets, seen, n)
  {
    forall k | 0 <= k < |tickets|
      ensures Ticket(cfg, t, tickets[k])
      ensures k < n && Quiet(t, seen) ==> !IsDone(t, tickets[k])
    {
      assert Ticket(cfg, s, tickets[k]);
      assert SameTicket(s.calls[tickets[k]], t.calls[tickets[k]]);
      assert SlotMoved(s.slots[s.calls[tickets[k]].slot], t.slots[s.calls[tickets[k]].slot]);
    }
  }

  lemma FillKept(cfg: Config, s: State, t: State, f: Fill)
    requires Sizes(cfg, s) && Sizes(cfg, t) && HostMoved(cfg, s, t) && FillBase(s, f)
    ensures FillBase(t, f)
  {
    assert SlotMoved(s.slots[f.slot], t.slots[f.slot]) && SameTicket(s.calls[f.call], t.calls[f.call]);
  }

  lemma ContKept(cfg: Config, s: State, t: State, slot: nat, cont: Cont)
    requires Sizes(cfg, s) && Sizes(cfg, t) && HostMoved(cfg, s, t) && ContBase(s, slot, cont)
    ensures ContBase(t, slot, cont) && (s.slots[slot].status == Ready ==> t.slots[slot].status == Ready)
  {
    assert SlotMoved(s.slots[slot], t.slots[slot]) && SameTicket(s.calls[CallOf(cont)], t.calls[CallOf(cont)]);
  }

  lemma WhyKept(cfg: Config, s: State, t: State, seen: nat, why: Why)
    requires Sizes(cfg, s) && Sizes(cfg, t) && HostMoved(cfg, s, t) && WhyBase(cfg, s, seen, why)
    ensures WhyBase(cfg, t, seen, why)
  {
    match why
    case ForSlot(_, _, lag) => ScannedKept(cfg, s, t, seen, cfg.slots, cfg.slots - 1, lag);
    case ForReqBuf(f) =>
      FillKept(cfg, s, t, f);
      BufsHeldKept(cfg, s, t, seen, cfg.bufs);
    case ForReady(slot, cont) => ContKept(cfg, s, t, slot, cont);
    case ForAny(tickets) => NoneDoneKept(cfg, s, t, tickets, seen, |tickets|);
  }

  /** No host step disturbs what the worker has established: everything it observed still holds while
      the counter it loaded is unchanged. */
  lemma WorkerKept(cfg: Config, s: State, t: State)
    requires Sizes(cfg, s) && Sizes(cfg, t) && HostMoved(cfg, s, t) && WorkerBase(cfg, s)
    ensures WorkerBase(cfg, t)
  {
    match s.worker
    case Idle =>
    case ClaimLoad(_, _) =>
    case ClaimTry(_, _, seen, i, ready, lag) => ScannedKept(cfg, s, t, seen, i, ready, lag);
    case ClaimPeek(_, _, seen, i, ready, lag) => ScannedKept(cfg, s, t, seen, i, ready, lag);
    case BufLoad(f) => FillKept(cfg, s, t, f);
    case BufTry(f, seen, i) =>
      FillKept(cfg, s, t, f);
      BufsHeldKept(cfg, s, t, seen, i);
    case Publish(f, _) => FillKept(cfg, s, t, f);
    case AwaitLoad(slot, cont) => ContKept(cfg, s, t, slot, cont);
    case AwaitCheck(slot, _, cont) => ContKept(cfg, s, t, slot, cont);
    case Read(slot, cont) => ContKept(cfg, s, t, slot, cont);
    case AnyLoad(tickets) => NoneDoneKept(cfg, s, t, tickets, 0, 0);
    case AnyScan(tickets, seen, i) => NoneDoneKept(cfg, s, t, tickets, seen, i);
    case CancelStore(c) => TicketKept(cfg, s, t, c);
    case CancelMark(c) => TicketKept(cfg, s, t, c);
    case Park(seen, why, _) => WhyKept(cfg, s, t, seen, why);
  }

  lemma TicketKept(cfg: Config, s: State, t: State, c: nat)
    requires Sizes(cfg, s) && Sizes(cfg, t) && HostMoved(cfg, s, t) && Ticket(cfg, s, c) &&
      Busy(s.slots[s.calls[c].slot])
    ensures Ticket(cfg, t, c) && SameTicket(s.calls[c], t.calls[c]) && Busy(t.slots[t.calls[c].slot])
    ensures SlotMoved(s.slots[s.calls[c].slot], t.slots[t.calls[c].slot])
  {
    assert SameTicket(s.calls[c], t.calls[c]) && SlotMoved(s.slots[s.calls[c].slot], t.slots[s.calls[c].slot]);
  }

  lemma OrphansKept(cfg: Config, s: State, t: State)
    requires Sizes(cfg, s) && Sizes(cfg, t) && HostMoved(cfg, s, t) && NotOrphaned(s.slots, s.gone, s.worker)
    ensures NotOrphaned(t.slots, t.gone, t.worker)
  {
    forall i | 0 <= i < cfg.slots && t.slots[i].status == Claimed
      ensures t.gone || FillsSlot(t.worker, i)
    {
      assert SlotMoved(s.slots[i], t.slots[i]);
    }
  }

  lemma GensKept(cfg: Config, s: State, t: State)
    requires Sizes(cfg, s) && Sizes(cfg, t) && HostMoved(cfg, s, t) && GensInv(s.slots, s.calls)
    ensures GensInv(t.slots, t.calls)
  {
    forall c | 0 <= c < |t.calls|
      ensures GenOk(t.slots, t.calls[c], c)
    {
      assert GenOk(s.slots, s.calls[c], c) && SameTicket(s.calls[c], t.calls[c]);
      assert SlotMoved(s.slots[s.calls[c].slot], t.slots[s.calls[c].slot]);
    }
  }

  lemma GapKept(cfg: Config, s: State, t: State, i: nat)
    requires Sizes(cfg, s) && Sizes(cfg, t) && HostMoved(cfg, s, t)
    ensures Gap(t, i) <==> Gap(s, i)
  {
    if s.worker.CancelMark? && s.worker.call < |s.calls| {
      assert SameTicket(s.calls[s.worker.call], t.calls[s.worker.call]);
    }
  }

  /** What a host step at slot j has to re-establish by itself. */
  lemma HostStepBase(cfg: Config, s: State, t: State, j: nat)
    requires Base(cfg, s) && Sizes(cfg, t) && j < cfg.slots && HostMoved(cfg, s, t)
    requires forall i :: 0 <= i < cfg.slots && i != j ==> SameBase(s, t, i)
    requires SlotBase(t, j) && ReqInv(t.slots, t.req, InHand(t.worker)) && SweepBase(t)
    ensures Base(cfg, t)
  {
    SlotsBaseFrame(s, t, j);
    GensKept(cfg, s, t);
    WorkerKept(cfg, s, t);
    OrphansKept(cfg, s, t);
  }

  /** The responder is at slot j, or nowhere, before and after; and nothing else changes but slot j, the
      contents of the buffers, and the record and the handler of call c. */
  ghost predicate HostAt(s: State, t: State, j: nat, c: nat) {
    j < |s.slots| && |t.slots| == |s.slots| && t.slots == s.slots[j := t.slots[j]] &&
    t.worker == s.worker && t.gone == s.gone && |t.req| == |s.req| && |t.res| == |s.res| &&
    (s.host.At? ==> s.host.slot == j) && (t.host.At? ==> t.host.slot == j) &&
    |t.calls| == |s.calls| &&
    (forall k :: 0 <= k < |s.calls| && k != c ==> t.calls[k] == s.calls[k]) &&
    (c < |s.calls| ==> SameTicket(s.calls[c], t.calls[c])) &&
    (forall k :: k != c ==>
      (k in t.handlers <==> k in s.handlers) && (k in s.handlers ==> t.handlers[k] == s.handlers[k]))
  }

  lemma OthersBase(cfg: Config, s: State, t: State, j: nat, c: nat)
    requires Base(cfg, s) && Sizes(cfg, t) && HostAt(s, t, j, c) && HostMoved(cfg, s, t)
    requires c < |s.calls| ==> s.calls[c].slot == j || (c in s.handlers ==> s.handlers[c].slot == j)
    ensures forall i :: 0 <= i < cfg.slots && i != j ==> SameBase(s, t, i)
  {
    forall i | 0 <= i < cfg.slots && i != j
      ensures SameBase(s, t, i)
    {
      assert SlotBase(s, i);
      GapKept(cfg, s, t, i);
      if s.slots[i].status != Free && s.slots[i].call == c {
        assert SameTicket(s.calls[c], t.calls[c]);
      }
    }
  }

  /** A step that leaves the request pool and the counter alone and readies or frees nothing. */
  lemma QuietMove(cfg: Config, s: State, t: State, j: nat, c: nat)
    requires Sizes(cfg, s) && Sizes(cfg, t) && HostAt(s, t, j, c) && t.req == s.req && t.doneSeq == s.doneSeq
    requires SlotMoved(s.slots[j], t.slots[j]) && (!Unbumped(t) ==> !Unbumped(s))
    requires Unbumped(t) || t.slots[j].status == s.slots[j].status || t.slots[j].status == Running
    ensures HostMoved(cfg, s, t)
  {
    forall k | 0 <= k < |s.calls|
      ensures SameTicket(s.calls[k], t.calls[k])
    {
    }
  }

  // ---- The steps ------------------------------------------------------------------------------

  lemma StopBase(cfg: Config, s: State)
    requires Base(cfg, s) && s.host == Watching
    ensures Base(cfg, Next(cfg, s, Stop))
  {
    var t := Next(cfg, s, Stop);
    StillBase(cfg, s, t);
  }

  lemma BumpBase(cfg: Config, s: State, ch: Choice)
    requires Base(cfg, s) && s.host.MustBump?
    ensures Base(cfg, HostStep(cfg, s, ch))
  {
    StillBase(cfg, s, HostStep(cfg, s, ch));
  }

  /** The responder between slots, before and after. */
  lemma StillBase(cfg: Config, s: State, t: State)
    requires Base(cfg, s) && s.doneSeq <= t.doneSeq
    requires t == s.(host := t.host, doneSeq := t.doneSeq, gone := t.gone, sweep := t.sweep)
    requires !s.host.At? && !t.host.At? && (s.gone ==> t.gone)
    requires t.doneSeq == s.doneSeq && !Unbumped(t) ==> !Unbumped(s) && t.gone == s.gone
    requires SweepBase(t)
    ensures Base(cfg, t)
  {
    WorkerKept(cfg, s, t);
    OrphansKept(cfg, s, t);
    forall i | 0 <= i < |t.slots|
      ensures SlotBase(t, i)
    {
      assert SlotBase(s, i);
    }
  }

  /** A step that only moves the responder along, at slot j. */
  lemma MovesBase(cfg: Config, s: State, t: State, j: nat)
    requires Base(cfg, s) && t == s.(host := t.host, doneSeq := t.doneSeq) && s.doneSeq <= t.doneSeq && j < cfg.slots
    requires (s.host.At? ==> s.host.slot == j) && (t.host.At? ==> t.host.slot == j)
    requires t.doneSeq == s.doneSeq && !Unbumped(t) ==> !Unbumped(s)
    requires SlotBase(t, j) && SweepBase(t)
    ensures Base(cfg, t)
  {
    OthersBase(cfg, s, t, j, |s.calls|);
    HostStepBase(cfg, s, t, j);
  }

  lemma SeeBase(cfg: Config, s: State, i: nat)
    requires Base(cfg, s) && Enabled(cfg, s, See(i))
    ensures Base(cfg, Next(cfg, s, See(i)))
  {
    assert SlotBase(s, i);
    MovesBase(cfg, s, Next(cfg, s, See(i)), i);
  }

  lemma MoveBase(cfg: Config, s: State, ch: Choice)
    requires Base(cfg, s) && s.host.At? && HostReady(cfg, s)
    requires (s.host.job.Taken? && (!s.host.job.bumped || s.slots[s.host.slot].status != Pending)) ||
             s.host.job.Take? || s.host.job.Reply? || s.host.job.Write?
    ensures Base(cfg, HostStep(cfg, s, ch))
  {
    assert SlotBase(s, s.host.slot);
    MovesBase(cfg, s, HostStep(cfg, s, ch), s.host.slot);
  }

  lemma TakeBase(cfg: Config, s: State, ch: Choice)
    requires Base(cfg, s) && s.host.At? && s.host.job.Loaded? && HostReady(cfg, s)
    ensures Base(cfg, HostStep(cfg, s, ch))
  {
    var i, t := s.host.slot, HostStep(cfg, s, ch);
    assert SlotBase(s, i);
    GiveReq(s.slots, t.slots, s.req, InHand(s.worker), i);
    TakeMoves(cfg, s, ch);
    OthersBase(cfg, s, t, i, |s.calls|);
    HostStepBase(cfg, s, t, i);
  }

  lemma TakeMoves(cfg: Config, s: State, ch: Choice)
    requires Base(cfg, s) && s.host.At? && s.host.job.Loaded? && HostReady(cfg, s)
    ensures Sizes(cfg, HostStep(cfg, s, ch)) && HostMoved(cfg, s, HostStep(cfg, s, ch))
  {
    assert s.slots[s.host.slot].reqBuf >= 0 ==> s.req[s.slots[s.host.slot].reqBuf].owner == AtSlot(s.host.slot);
  }

  lemma AbandonBase(cfg: Config, s: State, i: nat)
    requires Base(cfg, s) && Enabled(cfg, s, Abandon(i))
    ensures Base(cfg, AbandonStep(s, i))
  {
    var t := AbandonStep(s, i);
    assert SlotBase(s, i);
    GiveReq(s.slots, t.slots, s.req, InHand(s.worker), i);
    AbandonMoves(cfg, s, i);
    OthersBase(cfg, s, t, i, |s.calls|);
    HostStepBase(cfg, s, t, i);
  }

  lemma AbandonMoves(cfg: Config, s: State, i: nat)
    requires Base(cfg, s) && Enabled(cfg, s, Abandon(i))
    ensures Sizes(cfg, AbandonStep(s, i)) && HostMoved(cfg, s, AbandonStep(s, i))
  {
    assert s.slots[i].reqBuf >= 0 ==> s.req[s.slots[i].reqBuf].owner == AtSlot(i);
  }

  lemma FreeBase(cfg: Config, s: State, ch: Choice)
    requires Base(cfg, s) && s.host.At? && s.host.job.FreeIt? && HostReady(cfg, s)
    ensures Base(cfg, HostStep(cfg, s, ch))
  {
    var i, t := s.host.slot, HostStep(cfg, s, ch);
    assert SlotBase(s, i);
    ReqSame(s.slots, t.slots, s.req, InHand(s.worker));
    QuietMove(cfg, s, t, i, |s.calls|);
    AnyCallBase(cfg, s, t, i, |s.calls|);
    HostStepBase(cfg, s, t, i);
  }

  /** One slot of the sweep that fails what is outstanding, or the bump after the last. */
  lemma FailBase(cfg: Config, s: State, ch: Choice)
    requires Base(cfg, s) && s.host.Failing? && HostReady(cfg, s)
    ensures Base(cfg, HostStep(cfg, s, ch))
  {
    var t := HostStep(cfg, s, ch);
    if s.sweep < cfg.slots && (s.slots[s.sweep].status == Pending || s.slots[s.sweep].status == Running) {
      FailTakes(cfg, s, ch);
    } else {
      StillBase(cfg, s, t);
    }
  }

  lemma FailTakes(cfg: Config, s: State, ch: Choice)
    requires Base(cfg, s) && s.host.Failing? && HostReady(cfg, s) && s.sweep < cfg.slots
    requires s.slots[s.sweep].status == Pending || s.slots[s.sweep].status == Running
    ensures Base(cfg, HostStep(cfg, s, ch))
  {
    var i, t := s.sweep, HostStep(cfg, s, ch);
    assert SlotBase(s, i);
    if s.slots[i].status == Pending {
      GiveReq(s.slots, t.slots, s.req, InHand(s.worker), i);
    }
    FailMoves(cfg, s, ch);
    AnyCallBase(cfg, s, t, i, s.slots[i].call);
    HostStepBase(cfg, s, t, i);
  }

  lemma FailMoves(cfg: Config, s: State, ch: Choice)
    requires Base(cfg, s) && s.host.Failing? && HostReady(cfg, s) && s.sweep < cfg.slots
    requires s.slots[s.sweep].status == Pending || s.slots[s.sweep].status == Running
    ensures var t := HostStep(cfg, s, ch);
      Sizes(cfg, t) && HostMoved(cfg, s, t) && HostAt(s, t, s.sweep, s.slots[s.sweep].call) && SlotBase(t, s.sweep)
  {
    assert SlotBase(s, s.sweep);
    assert s.slots[s.sweep].reqBuf >= 0 ==> s.req[s.slots[s.sweep].reqBuf].owner == AtSlot(s.sweep);
  }

  lemma DispatchBase(cfg: Config, s: State, ch: Choice)
    requires Base(cfg, s) && s.host.At? && s.host.job.Taken? && s.host.job.bumped && HostReady(cfg, s)
    requires s.slots[s.host.slot].status == Pending
    ensures Base(cfg, HostStep(cfg, s, ch))
  {
    var i, t := s.host.slot, HostStep(cfg, s, ch);
    var c := s.slots[i].call;
    assert SlotBase(s, i);
    DispatchAt(cfg, s, ch);
    ReqSame(s.slots, t.slots, s.req, InHand(s.worker));
    QuietMove(cfg, s, t, i, c);
    OthersBase(cfg, s, t, i, c);
    HostStepBase(cfg, s, t, i);
  }

  lemma DispatchAt(cfg: Config, s: State, ch: Choice)
    requires Base(cfg, s) && s.host.At? && s.host.job.Taken? && s.host.job.bumped && HostReady(cfg, s)
    requires s.slots[s.host.slot].status == Pending
    ensures var i, t := s.host.slot, HostStep(cfg, s, ch);
      Sizes(cfg, t) && HostAt(s, t, i, s.slots[i].call) && SlotBase(t, i) && t.req == s.req && t.doneSeq == s.doneSeq &&
      SlotMoved(s.slots[i], t.slots[i]) && t.slots[i].reqBuf == s.slots[i].reqBuf && t.slots[i].status == Running &&
      SweepBase(t) && (!Unbumped(t) ==> !Unbumped(s))
  {
    DispatchOnly(s, s.host.slot, s.host.job, ch);
    DispatchSlot(cfg, s, ch);
  }

  lemma DispatchSlot(cfg: Config, s: State, ch: Choice)
    requires Base(cfg, s) && s.host.At? && s.host.job.Taken? && s.host.job.bumped && HostReady(cfg, s)
    requires s.slots[s.host.slot].status == Pending
    ensures SlotBase(HostStep(cfg, s, ch), s.host.slot)
  {
    assert SlotBase(s, s.host.slot);
    DispatchOnly(s, s.host.slot, s.host.job, ch);
  }

  /** What a dispatch changes: its slot, and the record and the handler of the slot's call. */
  lemma DispatchOnly(s: State, i: nat, job: Job, ch: Choice)
    requires i < |s.slots| && job.Taken? && s.slots[i].call < |s.calls| && s.host == At(i, job)
    ensures HostAt(s, Dispatch(s, i, job, ch), i, s.slots[i].call)
  {
  }

  lemma FillBaseKeeps(cfg: Config, s: State, ch: Choice)
    requires Base(cfg, s) && s.host.At? && s.host.job.FillIn? && HostReady(cfg, s)
    ensures Base(cfg, HostStep(cfg, s, ch))
  {
    var i, t := s.host.slot, HostStep(cfg, s, ch);
    assert SlotBase(s, i);
    FillAt(cfg, s, ch);
    ReqSame(s.slots, t.slots, s.req, InHand(s.worker));
    QuietMove(cfg, s, t, i, s.slots[i].call);
    AnyCallBase(cfg, s, t, i, s.slots[i].call);
    HostStepBase(cfg, s, t, i);
  }

  lemma FillAt(cfg: Config, s: State, ch: Choice)
    requires Base(cfg, s) && s.host.At? && s.host.job.FillIn? && HostReady(cfg, s)
    ensures var i, t := s.host.slot, HostStep(cfg, s, ch);
      Sizes(cfg, t) && HostAt(s, t, i, s.slots[i].call) && SlotBase(t, i) && t.req == s.req && t.doneSeq == s.doneSeq &&
      SlotMoved(s.slots[i], t.slots[i]) && t.slots[i].reqBuf == s.slots[i].reqBuf &&
      t.slots[i].status == s.slots[i].status &&
      t.handlers == s.handlers
  {
    assert SlotBase(s, s.host.slot);
  }

  /** A step that starts and ends no handler may touch the record of any call. */
  lemma AnyCallBase(cfg: Config, s: State, t: State, j: nat, c: nat)
    requires Base(cfg, s) && Sizes(cfg, t) && HostAt(s, t, j, c) && HostMoved(cfg, s, t) && t.handlers == s.handlers
    ensures forall i :: 0 <= i < cfg.slots && i != j ==> SameBase(s, t, i)
  {
    forall i | 0 <= i < cfg.slots && i != j
      ensures SameBase(s, t, i)
    {
      assert SlotBase(s, i);
      GapKept(cfg, s, t, i);
      if s.slots[i].status != Free {
        assert SameTicket(s.calls[s.slots[i].call], t.calls[s.slots[i].call]);
      }
    }
  }

  lemma PublishBase(cfg: Config, s: State, ch: Choice)
    requires Base(cfg, s) && s.host.At? && s.host.job.PublishIt? && HostReady(cfg, s)
    ensures Base(cfg, HostStep(cfg, s, ch))
  {
    var i, t := s.host.slot, HostStep(cfg, s, ch);
    assert SlotBase(s, i);
    ReqSame(s.slots, t.slots, s.req, InHand(s.worker));
    QuietMove(cfg, s, t, i, |s.calls|);
    AnyCallBase(cfg, s, t, i, |s.calls|);
    assert SlotBase(t, i);
    HostStepBase(cfg, s, t, i);
  }

  lemma FinishBase(cfg: Config, s: State, c: nat, a: Answer)
    requires Base(cfg, s) && Enabled(cfg, s, Finish(c, a))
    ensures Base(cfg, FinishStep(s, c, a))
  {
    var i, t := s.handlers[c].slot, FinishStep(s, c, a);
    FinishFrame(cfg, s, c, a);
    FinishAt(cfg, s, c, a);
    HostStepBase(cfg, s, t, i);
  }

  lemma FinishFrame(cfg: Config, s: State, c: nat, a: Answer)
    requires Base(cfg, s) && Enabled(cfg, s, Finish(c, a))
    ensures var i, t := s.handlers[c].slot, FinishStep(s, c, a);
      Sizes(cfg, t) && HostMoved(cfg, s, t) && ReqInv(t.slots, t.req, InHand(t.worker)) && SweepBase(t) &&
      forall k :: 0 <= k < cfg.slots && k != i ==> SameBase(s, t, k)
  {
    var i, t := s.handlers[c].slot, FinishStep(s, c, a);
    ReqSame(s.slots, t.slots, s.req, InHand(s.worker));
    QuietMove(cfg, s, t, i, c);
    OthersBase(cfg, s, t, i, c);
  }

  lemma FinishAt(cfg: Config, s: State, c: nat, a: Answer)
    requires Base(cfg, s) && Enabled(cfg, s, Finish(c, a))
    ensures SlotBase(FinishStep(s, c, a), s.handlers[c].slot)
  {
    assert SlotBase(s, s.handlers[c].slot);
  }

  /** Every step of the responder keeps the base invariant. */
  lemma HostBase(cfg: Config, s: State, ch: Choice)
    requires Base(cfg, s) && HostReady(cfg, s)
    ensures Base(cfg, HostStep(cfg, s, ch))
  {
    if s.host.Failing? {
      FailBase(cfg, s, ch);
    } else if !s.host.At? {
      BumpBase(cfg, s, ch);
    } else {
      match s.host.job
      case Take => MoveBase(cfg, s, ch);
      case Loaded(_, _) => TakeBase(cfg, s, ch);
      case Taken(_, op, _, bumped) =>
        if bumped && s.slots[s.host.slot].status == Pending {
          DispatchBase(cfg, s, ch);
        } else {
          MoveBase(cfg, s, ch);
        }
      case Reply(_, _) => MoveBase(cfg, s, ch);
      case Write(_, _, _) => MoveBase(cfg, s, ch);
      case FillIn(_, _) => FillBaseKeeps(cfg, s, ch);
      case PublishIt => PublishBase(cfg, s, ch);
      case FreeIt => FreeBase(cfg, s, ch);
    }
  }
}
