/** What holds in every state of every run, whatever the interleaving: who owns a slot, which requests and
    buffers the host still has to deal with, and what a sleeping worker has seen. Nothing here speaks of
    the bytes of an answer; see `BridgeDeep` for those. */
module BridgeBase {
  import opened BridgeModel

  ghost predicate Live(sl: Slot) {
    sl.status != Free && sl.status != Cancelled
  }

  /** The host has the request, or the worker has not taken its answer. */
  ghost predicate Busy(sl: Slot) {
    sl.status == Pending || sl.status == Running || sl.status == Ready
  }

  /** The worker is between the two stores of a `cancel` of slot i: the generation has moved and the
      status has not. */
  ghost predicate Gap(s: State, i: nat) {
    s.worker.CancelMark? && s.worker.call < |s.calls| && s.calls[s.worker.call].slot == i
  }

  ghost predicate Finishing(job: Job) {
    job.Reply? || job.Write? || job.FillIn? || job.PublishIt?
  }

  /** A handler is in flight for the slot's call, at the slot's generation. */
  ghost predicate Served(s: State, i: nat)
    requires i < |s.slots|
  {
    var c := s.slots[i].call;
    c in s.handlers && s.handlers[c].slot == i && s.handlers[c].gen == s.slots[i].gen
  }

  ghost predicate SlotBase(s: State, i: nat)
    requires i < |s.slots|
  {
    var sl, job, gap := s.slots[i], JobAt(s.host, i), Gap(s, i);
    (sl.status != Free ==> sl.call < |s.calls| && s.calls[sl.call].slot == i) &&
    (Live(sl) ==>
      (gap || s.calls[sl.call].gen == sl.gen) &&
      (sl.status == Claimed ==> !s.calls[sl.call].issued)) &&
    (sl.reqBuf >= 0 ==> sl.status == Pending || sl.status == Cancelled) &&
    (sl.status == Running ==> gap || Finishing(job) || Served(s, i)) &&
    (job.Take? || job.Loaded? || job.Taken? ==> sl.status == Pending || sl.status == Cancelled) &&
    (job.Loaded? || job.Taken? ==> sl.status == Pending ==> gap || job.gen == sl.gen) &&
    (job.Taken? || job.FreeIt? ==> sl.reqBuf < 0) && (job.FreeIt? ==> sl.status == Cancelled) &&
    (job.Write? && sl.status == Running ==> gap || job.gen == sl.gen)
  }

  /** Generations only grow past the calls of a slot: a call whose slot still has its generation is the
      live call there. */
  ghost predicate GenOk(slots: seq<Slot>, k: Call, c: nat) {
    k.slot < |slots| &&
    (k.gen < slots[k.slot].gen || (k.gen == slots[k.slot].gen && slots[k.slot].call == c && Live(slots[k.slot])))
  }

  ghost predicate GensInv(slots: seq<Slot>, calls: seq<Call>) {
    forall c {:trigger GenOk(slots, calls[c], c)} :: 0 <= c < |calls| ==> GenOk(slots, calls[c], c)
  }

  /** The host has changed something a worker may be waiting for and has not bumped DONE_SEQ yet. */
  ghost predicate Unbumped(s: State) {
    s.host.MustBump? || (s.host.At? && ((s.host.job.Taken? && !s.host.job.bumped) || s.host.job.FreeIt?)) ||
    (s.gone && s.sweep <= |s.slots|)
  }

  /** Nothing has been announced since `seen` was loaded, and nothing is waiting to be. */
  ghost predicate Quiet(s: State, seen: nat) {
    s.doneSeq == seen && !Unbumped(s)
  }

  ghost predicate FillBase(s: State, f: Fill) {
    f.slot < |s.slots| && f.call < |s.calls| && s.slots[f.slot].call == f.call && !s.calls[f.call].issued &&
    (s.slots[f.slot].status == Claimed || s.slots[f.slot].status == Ready)
  }

  function CallOf(cont: Cont): nat {
    match cont
    case SendNext(f) => f.call
    case Collecting(c, _) => c
  }

  ghost predicate ContBase(s: State, slot: nat, cont: Cont) {
    slot < |s.slots| && Busy(s.slots[slot]) && CallOf(cont) < |s.calls| && s.slots[slot].call == CallOf(cont) &&
    s.calls[CallOf(cont)].issued == cont.Collecting? && (cont.SendNext? ==> cont.fill.slot == slot)
  }

  /** What a scan in `claim` has established about the first n slots. */
  ghost predicate Scanned(s: State, seen: nat, n: nat, ready: nat, lag: int)
    requires n <= |s.slots|
  {
    seen <= s.doneSeq && ready <= n && -1 <= lag < n &&
    (Quiet(s, seen) ==> forall k :: 0 <= k < n ==> s.slots[k].status != Free) &&
    (lag < 0 ==> ready == n && forall k :: 0 <= k < n ==> s.slots[k].status == Ready) &&
    (lag >= 0 ==> ready < n && (Quiet(s, seen) ==> s.slots[lag].status != Ready))
  }

  ghost predicate BufsHeld(s: State, seen: nat, n: nat)
    requires n <= |s.req|
  {
    seen <= s.doneSeq && (Quiet(s, seen) ==> forall b :: 0 <= b < n ==> s.req[b].held)
  }

  ghost predicate NoneDone(cfg: Config, s: State, tickets: seq<nat>, seen: nat, n: nat)
    requires n <= |tickets|
  {
    seen <= s.doneSeq &&
    (forall k :: 0 <= k < |tickets| ==> Ticket(cfg, s, tickets[k])) &&
    (Quiet(s, seen) ==> forall k :: 0 <= k < n ==> !IsDone(s, tickets[k]))
  }

  ghost predicate WhyBase(cfg: Config, s: State, seen: nat, why: Why)
    requires |s.slots| == cfg.slots && |s.req| == cfg.bufs
  {
    match why
    case ForSlot(_, _, lag) => 0 <= lag < cfg.slots && Scanned(s, seen, cfg.slots, cfg.slots - 1, lag)
    case ForReqBuf(fill) => FillBase(s, fill) && BufsHeld(s, seen, cfg.bufs)
    case ForReady(slot, cont) =>
      ContBase(s, slot, cont) && seen <= s.doneSeq && (Quiet(s, seen) ==> s.slots[slot].status != Ready)
    case ForAny(tickets) => NoneDone(cfg, s, tickets, seen, |tickets|)
  }

  /** What the worker relies on, from where it is. */
  ghost predicate WorkerBase(cfg: Config, s: State)
    requires |s.slots| == cfg.slots && |s.req| == cfg.bufs
  {
    var w := s.worker;
    w.Idle? || w.ClaimLoad? ||
    (w.ClaimTry? && w.i <= cfg.slots && Scanned(s, w.seen, w.i, w.ready, w.lag)) ||
    (w.ClaimPeek? && w.i < cfg.slots && Scanned(s, w.seen, w.i, w.ready, w.lag) &&
      (Quiet(s, w.seen) ==> s.slots[w.i].status != Free)) ||
    (w.BufLoad? && FillBase(s, w.fill)) ||
    (w.BufTry? && FillBase(s, w.fill) && w.i <= cfg.bufs && BufsHeld(s, w.seen, w.i)) ||
    (w.Publish? && FillBase(s, w.fill) && w.buf < cfg.bufs && s.req[w.buf].owner == TheWorker) ||
    (w.AwaitLoad? && ContBase(s, w.slot, w.cont)) ||
    (w.AwaitCheck? && ContBase(s, w.slot, w.cont) && w.seen <= s.doneSeq) ||
    (w.Read? && ContBase(s, w.slot, w.cont) && s.slots[w.slot].status == Ready) ||
    (w.AnyLoad? && forall k :: 0 <= k < |w.tickets| ==> Ticket(cfg, s, w.tickets[k])) ||
    (w.AnyScan? && w.i <= |w.tickets| && NoneDone(cfg, s, w.tickets, w.seen, w.i)) ||
    (w.CancelStore? && Ticket(cfg, s, w.call) && Busy(s.slots[s.calls[w.call].slot]) &&
      s.slots[s.calls[w.call].slot].gen == s.calls[w.call].gen) ||
    (w.CancelMark? && Ticket(cfg, s, w.call) && Busy(s.slots[s.calls[w.call].slot]) &&
      s.slots[s.calls[w.call].slot].gen > s.calls[w.call].gen &&
      s.slots[s.calls[w.call].slot].call == w.call) ||
    (w.Park? && WhyBase(cfg, s, w.seen, w.why) && (w.phase == Wait && Quiet(s, w.seen) ==> !s.gone))
  }

  /** Which slot the worker is filling, if any. */
  ghost predicate FillsSlot(w: Worker, i: nat) {
    match w
    case BufLoad(f) => f.slot == i
    case BufTry(f, _, _) => f.slot == i
    case Publish(f, _) => f.slot == i
    case Park(_, ForReqBuf(f), _) => f.slot == i
    case _ => false
  }

  /** A claimed slot is being filled, unless the host has gone and the submit gave up. */
  ghost predicate NotOrphaned(slots: seq<Slot>, gone: bool, w: Worker) {
    forall i {:trigger slots[i]} :: 0 <= i < |slots| && slots[i].status == Claimed ==> gone || FillsSlot(w, i)
  }

  /** The request buffer the worker has taken and not yet attached, or -1. */
  ghost function InHand(w: Worker): int {
    if w.Publish? then w.buf else -1
  }

  /** A buffer is free, or in the worker's hand about to be published, or attached to exactly one slot. */
  ghost predicate ReqInv(slots: seq<Slot>, req: seq<Buf>, hand: int) {
    (forall b {:trigger req[b]} :: 0 <= b < |req| ==>
      req[b].held == (req[b].owner != Nobody) &&
      (req[b].owner.TheWorker? ==> hand == b) &&
      (req[b].owner.AtSlot? ==> req[b].owner.slot < |slots| && slots[req[b].owner.slot].reqBuf == b)) &&
    (forall i {:trigger slots[i]} :: 0 <= i < |slots| && 0 <= slots[i].reqBuf ==>
      slots[i].reqBuf < |req| && req[slots[i].reqBuf].owner == AtSlot(i))
  }

  ghost predicate Sizes(cfg: Config, s: State) {
    |s.slots| == cfg.slots && |s.req| == cfg.bufs && |s.res| == cfg.bufs
  }

  /** The responder fails what is outstanding only after it has raised the flag. */
  ghost predicate SweepBase(s: State) {
    s.host.Failing? ==> s.gone && s.sweep <= |s.slots|
  }

  ghost predicate SlotsBase(s: State) {
    forall i {:trigger SlotBase(s, i)} :: 0 <= i < |s.slots| ==> SlotBase(s, i)
  }

  ghost predicate Base(cfg: Config, s: State) {
    Sizes(cfg, s) &&
    SlotsBase(s) &&
    GensInv(s.slots, s.calls) &&
    ReqInv(s.slots, s.req, InHand(s.worker)) &&
    NotOrphaned(s.slots, s.gone, s.worker) &&
    WorkerBase(cfg, s) &&
    SweepBase(s)
  }

  lemma InitBase(cfg: Config)
    ensures Base(cfg, Init(cfg))
  {
    var s := Init(cfg);
    forall i | 0 <= i < |s.slots|
      ensures SlotBase(s, i)
    {
    }
  }

  // ---- Frames ---------------------------------------------------------------------------------

  /** What the base condition of a slot reads of a call. */
  ghost predicate SameTicket(k: Call, k': Call) {
    k'.slot == k.slot && k'.gen == k.gen && k'.issued == k.issued
  }

  /** A call's ticket and arguments. */
  ghost predicate SameCall(k: Call, k': Call) {
    k'.slot == k.slot && k'.gen == k.gen && k'.op == k.op && k'.payload == k.payload
  }

  /** Everything slot i's base condition reads is the same in both states. */
  ghost predicate SameBase(s: State, t: State, i: nat)
    requires i < |s.slots| && i < |t.slots|
  {
    var sl := s.slots[i];
    t.slots[i].(stage := sl.stage) == sl && JobAt(t.host, i) == JobAt(s.host, i) && (Gap(t, i) <==> Gap(s, i)) &&
    |s.calls| <= |t.calls| &&
    (sl.status != Free && sl.call < |s.calls| ==>
      SameTicket(s.calls[sl.call], t.calls[sl.call]) && (Served(s, i) ==> !Live(sl) || Gap(s, i) || Served(t, i)))
  }

  lemma SlotsBaseFrame(s: State, t: State, j: nat)
    requires SlotsBase(s) && j < |s.slots| == |t.slots|
    requires forall i :: 0 <= i < |s.slots| && i != j ==> SameBase(s, t, i)
    requires SlotBase(t, j)
    ensures SlotsBase(t)
  {
    forall i | 0 <= i < |t.slots|
      ensures SlotBase(t, i)
    {
      if i != j {
        assert SlotBase(s, i) && SameBase(s, t, i);
      }
    }
  }

  /** How one slot's generation may move: not at all, up, or into the hands of a new call. */
  ghost predicate GenMove(sl: Slot, sl': Slot, newCall: nat) {
    (sl'.gen == sl.gen && sl'.call == sl.call && (Live(sl) ==> Live(sl'))) ||
    sl'.gen > sl.gen ||
    (sl'.gen == sl.gen && !Live(sl) && Live(sl') && sl'.call == newCall)
  }

  lemma GensFrame(slots: seq<Slot>, slots': seq<Slot>, calls: seq<Call>, calls': seq<Call>, j: nat)
    requires GensInv(slots, calls) && |slots'| == |slots| && j < |slots|
    requires forall i :: 0 <= i < |slots| && i != j ==>
      slots'[i].gen == slots[i].gen && slots'[i].call == slots[i].call && slots'[i].status == slots[i].status
    requires GenMove(slots[j], slots'[j], |calls|)
    requires |calls| <= |calls'| <= |calls| + 1
    requires forall c :: 0 <= c < |calls| ==> calls'[c].slot == calls[c].slot && calls'[c].gen == calls[c].gen
    requires |calls'| == |calls| + 1 ==> GenOk(slots', calls'[|calls|], |calls|)
    ensures GensInv(slots', calls')
  {
    forall c | 0 <= c < |calls'|
      ensures GenOk(slots', calls'[c], c)
    {
      assert c < |calls| ==> GenOk(slots, calls[c], c);
    }
  }

  /** A pool where slot j's buffer goes back: nobody else's buffer is affected. */
  lemma GiveReq(slots: seq<Slot>, slots': seq<Slot>, req: seq<Buf>, hand: int, j: nat)
    requires ReqInv(slots, req, hand) && j < |slots| == |slots'|
    requires forall i :: 0 <= i < |slots| && i != j ==> slots'[i].reqBuf == slots[i].reqBuf
    requires slots'[j].reqBuf == -1
    ensures ReqInv(slots', Give(req, slots[j].reqBuf), hand)
  {
  }

  /** Slots that keep their buffers keep the pool's condition. */
  lemma ReqSame(slots: seq<Slot>, slots': seq<Slot>, req: seq<Buf>, hand: int)
    requires ReqInv(slots, req, hand) && |slots| == |slots'|
    requires forall i :: 0 <= i < |slots| ==>
      slots'[i].reqBuf == slots[i].reqBuf || (slots'[i].reqBuf < 0 && slots[i].reqBuf < 0)
    ensures ReqInv(slots', req, hand)
  {
  }

  lemma GrabReq(slots: seq<Slot>, slots': seq<Slot>, req: seq<Buf>, j: nat, b: nat, piece: Bytes)
    requires ReqInv(slots, req, b) && j < |slots| == |slots'| && b < |req| && req[b].owner == TheWorker
    requires forall i :: 0 <= i < |slots| && i != j ==> slots'[i].reqBuf == slots[i].reqBuf
    requires slots[j].reqBuf < 0 && slots'[j].reqBuf == b
    ensures ReqInv(slots', Grab(req, b, AtSlot(j), piece), -1)
  {
  }

  /** The slot of a ticket whose generation still holds is busy with that call. */
  lemma TicketLive(cfg: Config, s: State, c: nat)
    requires SlotsBase(s) && GensInv(s.slots, s.calls) && Ticket(cfg, s, c) &&
      s.calls[c].gen == s.slots[s.calls[c].slot].gen
    ensures var sl := s.slots[s.calls[c].slot]; Busy(sl) && sl.call == c
  {
    assert GenOk(s.slots, s.calls[c], c);
    assert SlotBase(s, s.calls[c].slot);
  }
}
