/** What else holds as long as no handler is started at a generation that is not its call's, or finishes
    too late: the bytes in every slot and buffer are those of the slot's own call, at the stage that call has
    reached. */
module BridgeDeep {
  import opened Options
  import opened BridgeModel
  import opened BridgeBase

  /** The request a pending slot carries, in its buffer or already in the responder's hands. */
  ghost predicate Carries(sl: Slot, job: Job, req: Bytes, piece: Bytes) {
    if sl.reqBuf >= 0 then Prefix(req, sl.reqLen) == piece && !job.Taken?
    else job.Taken? && job.payload == piece
  }

  /** The responder is on its way to publishing a status and a body into the slot. */
  ghost predicate Replying(job: Job) {
    job.Reply? || job.Write? || job.FillIn?
  }

  /** The whole answer fits where its first piece was written: the inline area, or a pooled buffer when
      one was free. */
  ghost predicate FitsOnce(cfg: Config, c: Call) {
    c.answer.Some? &&
    (|c.answer.value.bytes| <= cfg.inlineBytes || (c.room == Some(true) && |c.answer.value.bytes| <= cfg.bufBytes))
  }

  /** What a slot shows and what is still to come make up the rest of the answer. */
  ghost predicate Shows(cfg: Config, sl: Slot, shown: Bytes, c: Call) {
    c.answer.Some? && c.room.Some? && (c.taken == [] ==> (sl.resStatus == MORE <==> !FitsOnce(cfg, c))) &&
    if sl.resStatus == MORE then
      shown != [] && c.taken + shown + sl.tail == c.answer.value.bytes && sl.finalStatus == c.answer.value.status
    else
      sl.resStatus == c.answer.value.status && c.taken + shown == c.answer.value.bytes
  }

  /** A slot the responder has failed, or is about to, shows the failure: whole, or a front of it that the
      worker cannot get the rest of. */
  ghost predicate FailShows(sl: Slot, shown: Bytes, why: Bytes) {
    sl.resStatus == MORE || (sl.resStatus == ERR && shown == why)
  }

  /** What a slot's condition reads of the state: its words and what they show, its live call with that
      call's handler, and what the two parties are doing there. */
  datatype View = View(sl: Slot, call: Option<Call>, handler: Option<Handler>, job: Job, gap: bool, gone: bool,
                       req: Bytes, shown: Bytes)

  ghost function ViewAt(s: State, i: nat): View
    requires i < |s.slots|
  {
    var sl := s.slots[i];
    View(sl, CallAt(s.calls, sl), if Live(sl) then HandlerOf(s.handlers, sl.call) else None, JobAt(s.host, i),
         Gap(s, i), s.gone, ReqData(sl, s.req), Shown(sl, s.res))
  }

  ghost function CallAt(calls: seq<Call>, sl: Slot): Option<Call> {
    if Live(sl) && sl.call < |calls| then Some(calls[sl.call]) else None
  }

  /** Nothing has been written for the slot's call since the worker last read from it. */
  ghost predicate Bare(sl: Slot, job: Job) {
    sl.status == Pending || sl.status == Claimed || (sl.status == Ready && sl.stage == Filling) ||
    (sl.status == Running && job == NoJob)
  }

  ghost predicate FailedOk(v: View, why: Bytes) {
    (Bare(v.sl, v.job) ==> v.sl.resBuf < 0) &&
    (v.sl.status == Pending || v.sl.status == Running ==> v.sl.stage != Filling) &&
    (v.sl.status == Running ==>
      (v.gap && v.job == NoJob) || (v.job == PublishIt && FailShows(v.sl, v.shown, why)) ||
      (Replying(v.job) && v.job.status == ERR && v.job.body == why)) &&
    (v.sl.status == Ready ==> FailShows(v.sl, v.shown, why))
  }

  /** The words of a live slot, by the stage its call has reached. In the gap of a cancel the responder
      may have dropped what it was doing, and one that has stopped keeps no requests. */
  ghost predicate StageOk(cfg: Config, i: nat, v: View, c: Call) {
    var sl, job, gone := v.sl, v.job, v.gone;
    c.sent <= |c.payload| &&
    (sl.stage.Filling? || sl.stage.Pushing? || sl.stage.PushTaken? || sl.stage.PushAcked? <==> !c.issued) &&
    (c.issued ==> |c.payload| - c.sent <= cfg.bufBytes) &&
    (sl.stage.Pushing? || sl.stage.PushTaken? || sl.stage.PushAcked? ==> |c.payload| - c.sent > cfg.bufBytes) &&
    (sl.stage.Answering? || sl.stage.Answered? || sl.stage.Continuing? <==> c.answer.Some?) &&
    (sl.resBuf >= 0 ==> sl.stage.Answering? || sl.stage.Answered?) &&
    match sl.stage
    case Filling =>
      (sl.status == Claimed || sl.status == Ready) && (gone || sl.partial == c.payload[..c.sent])
    case Pushing =>
      sl.status == Pending && sl.op == Push && (gone || sl.partial == c.payload[..c.sent]) &&
      Carries(sl, job, v.req, c.payload[c.sent..c.sent + cfg.bufBytes])
    case PushTaken =>
      sl.status == Running && (gone || sl.partial == c.payload[..c.sent + cfg.bufBytes]) &&
      (if job == PublishIt then sl.resStatus == ACK
       else (v.gap && job == NoJob) || (Replying(job) && job.status == ACK && job.body == []))
    case PushAcked =>
      sl.status == Ready && sl.resStatus == ACK && (gone || sl.partial == c.payload[..c.sent + cfg.bufBytes])
    case Asked =>
      sl.status == Pending && sl.op == User(c.op) && (gone || sl.partial == c.payload[..c.sent]) &&
      Carries(sl, job, v.req, c.payload[c.sent..]) && c.taken == []
    case Working =>
      sl.status == Running && (gone || sl.partial == []) && job == NoJob && c.taken == [] &&
      (v.gap || v.handler == Some(Handler(i, c.gen, c.op, c.payload)))
    case Answering =>
      sl.status == Running && (gone || sl.partial == []) &&
      (if job == PublishIt then Shows(cfg, sl, v.shown, c)
       else (v.gap && job == NoJob && sl.resBuf < 0) ||
            (Replying(job) && job.status == c.answer.value.status && c.taken + job.body == c.answer.value.bytes &&
             (c.taken == [] ==> c.room == None)))
    case Answered =>
      sl.status == Ready && (gone || sl.partial == []) && Shows(cfg, sl, v.shown, c)
    case Continuing =>
      sl.status == Pending && sl.op == Continue && (gone || sl.partial == []) && sl.reqBuf < 0 && c.taken != [] &&
      c.taken + sl.tail == c.answer.value.bytes && sl.finalStatus == c.answer.value.status
  }

  ghost function ReqData(sl: Slot, req: seq<Buf>): Bytes {
    if 0 <= sl.reqBuf < |req| then req[sl.reqBuf].data else []
  }

  ghost function HandlerOf(handlers: map<nat, Handler>, c: nat): Option<Handler> {
    if c in handlers then Some(handlers[c]) else None
  }

  /** A slot is free and bare, or cancelled, or holds its live call. */
  ghost predicate SlotOk(cfg: Config, i: nat, v: View) {
    (v.sl.status == Free && v.sl.resBuf < 0 && (v.gone || v.sl.partial == []) && v.job == NoJob) ||
    v.sl.status == Cancelled || (Live(v.sl) && v.call.Some? && LiveOk(cfg, i, v, v.call.value))
  }

  ghost predicate LiveOk(cfg: Config, i: nat, v: View, c: Call) {
    c.outcome == None && if c.failed.Some? then FailedOk(v, c.failed.value) else StageOk(cfg, i, v, c)
  }

  ghost predicate SlotDeep(cfg: Config, s: State, i: nat)
    requires i < |s.slots|
  {
    SlotOk(cfg, i, ViewAt(s, i))
  }

  ghost predicate SlotsDeep(cfg: Config, s: State) {
    forall i {:trigger SlotDeep(cfg, s, i)} :: 0 <= i < |s.slots| ==> SlotDeep(cfg, s, i)
  }

  /** What the worker got is what the handler gave: of a success everything but what earlier collects had
      read, of a failure the last piece. If the responder stopped first, it is what the responder said. */
  ghost predicate OutcomeOk(c: Call) {
    c.outcome.Some? ==>
      (c.failed.Some? ==> c.outcome.value == Answer(ERR, c.failed.value)) &&
      (c.failed == None ==>
        c.answer.Some? && c.outcome.value.status == c.answer.value.status &&
        (c.answer.value.status == OK ==> c.lost + c.outcome.value.bytes == c.answer.value.bytes) &&
        (c.answer.value.status == ERR ==> c.taken + c.outcome.value.bytes == c.answer.value.bytes))
  }

  ghost predicate CallOk(cfg: Config, k: Call, gone: bool) {
    OutcomeOk(k) &&
    (k.received.Some? ==> k.received.value == k.payload) &&
    (k.answer.Some? ==> k.answer.value.status == OK || k.answer.value.status == ERR) &&
    (k.failed == None ==>
      (k.answer == None ==> k.room == None && k.taken == []) &&
      (k.taken != [] ==> k.room.Some? && !FitsOnce(cfg, k)) &&
      (k.outcome.Some? && k.taken == [] ==> k.room.Some? && FitsOnce(cfg, k))) &&
    k.lost <= k.taken && (k.lost != [] ==> k.threw) && (k.threw || k.failed.Some? ==> gone)
  }

  ghost predicate CallsInv(cfg: Config, calls: seq<Call>, gone: bool) {
    forall c {:trigger CallOk(cfg, calls[c], gone)} :: 0 <= c < |calls| ==> CallOk(cfg, calls[c], gone)
  }

  /** A handler runs at its call's generation, on what its call asks, and its call, while it has the slot,
      waits for it. */
  ghost predicate HandlerOk(slots: seq<Slot>, calls: seq<Call>, h: Handler, c: nat) {
    c < |calls| && h == Handler(calls[c].slot, calls[c].gen, calls[c].op, calls[c].payload) &&
    h.slot < |slots| && calls[c].answer == None &&
    (calls[c].failed == None && slots[h.slot].call == c && Live(slots[h.slot]) ==> slots[h.slot].stage == Working)
  }

  ghost predicate HandlersInv(slots: seq<Slot>, calls: seq<Call>, handlers: map<nat, Handler>) {
    forall c {:trigger HandlerOk(slots, calls, handlers[c], c)} :: c in handlers ==>
      HandlerOk(slots, calls, handlers[c], c)
  }

  /** What the responder relies on at the slot it is at. Cancelling is all that can happen to it. */
  ghost predicate JobOk(sl: Slot, job: Job) {
    match job
    case NoJob => false
    case Take => true
    case Loaded(_, op) => sl.status == Pending ==> op == sl.op
    case Taken(_, op, _, _) => sl.status == Pending ==> op == sl.op
    case Reply(_, _) => (sl.status == Running || sl.status == Cancelled) && sl.resBuf < 0
    case Write(_, _, _) => (sl.status == Running || sl.status == Cancelled) && sl.resBuf < 0
    case FillIn(_, _) => (sl.status == Running || sl.status == Cancelled) && sl.resBuf < 0
    case PublishIt => sl.status == Running || sl.status == Cancelled
    case FreeIt => sl.resBuf < 0 && sl.partial == []
  }

  /** And it takes and frees slots only while it has not stopped. */
  ghost predicate HostDeep(slots: seq<Slot>, host: Host, gone: bool) {
    (host.At? ==>
      host.slot < |slots| && JobOk(slots[host.slot], host.job) &&
      (host.job.Take? || host.job.Loaded? || host.job.Taken? || host.job.FreeIt? ==> !gone)) &&
    (host.Watching? ==> !gone)
  }

  /** A response buffer is free or attached to exactly one slot. */
  ghost predicate ResInv(slots: seq<Slot>, res: seq<Buf>) {
    (forall b {:trigger res[b]} :: 0 <= b < |res| ==>
      res[b].held == (res[b].owner != Nobody) && !res[b].owner.TheWorker? &&
      (res[b].owner.AtSlot? ==> res[b].owner.slot < |slots| && slots[res[b].owner.slot].resBuf == b)) &&
    (forall i {:trigger slots[i]} :: 0 <= i < |slots| && 0 <= slots[i].resBuf ==>
      slots[i].resBuf < |res| && res[slots[i].resBuf].owner == AtSlot(i))
  }

  /** Which call the worker is collecting, if any. */
  ghost function CollectsCall(w: Worker): Option<nat> {
    match w
    case AwaitLoad(_, Collecting(c, _)) => Some(c)
    case AwaitCheck(_, _, Collecting(c, _)) => Some(c)
    case Read(_, Collecting(c, _)) => Some(c)
    case Park(_, ForReady(_, Collecting(c, _)), _) => Some(c)
    case _ => None
  }

  /** A call that has been partly taken is being collected, or was collected, or its collect threw. */
  ghost predicate TakenInv(calls: seq<Call>, collects: Option<nat>) {
    forall c {:trigger calls[c]} :: 0 <= c < |calls| && calls[c].taken != [] ==>
      calls[c].threw || calls[c].outcome.Some? || collects == Some(c)
  }

  ghost predicate Sending(st: Stage) {
    st.Pushing? || st.PushTaken? || st.PushAcked?
  }

  ghost predicate FillDeep(s: State, f: Fill) {
    f.slot < |s.slots| && s.slots[f.slot].stage == Filling
  }

  ghost predicate ContDeep(s: State, slot: nat, cont: Cont) {
    slot < |s.slots| &&
    match cont
    case SendNext(_) => Sending(s.slots[slot].stage)
    case Collecting(c, got) => c < |s.calls| && s.calls[c].lost + got == s.calls[c].taken
  }

  ghost predicate WorkerDeep(s: State) {
    var w := s.worker;
    (w.BufLoad? || w.BufTry? || w.Publish? ==> FillDeep(s, w.fill)) &&
    (w.AwaitLoad? || w.AwaitCheck? || w.Read? ==> ContDeep(s, w.slot, w.cont)) &&
    (w.Park? && w.why.ForReqBuf? ==> FillDeep(s, w.why.fill)) &&
    (w.Park? && w.why.ForReady? ==> ContDeep(s, w.why.slot, w.why.cont))
  }

  ghost predicate Deep(cfg: Config, s: State) {
    SlotsDeep(cfg, s) &&
    HostDeep(s.slots, s.host, s.gone) &&
    CallsInv(cfg, s.calls, s.gone) &&
    HandlersInv(s.slots, s.calls, s.handlers) &&
    ResInv(s.slots, s.res) &&
    TakenInv(s.calls, CollectsCall(s.worker)) &&
    WorkerDeep(s)
  }

  ghost predicate Inv(cfg: Config, s: State) {
    Base(cfg, s) && Deep(cfg, s)
  }

  lemma InitDeep(cfg: Config)
    ensures Inv(cfg, Init(cfg))
  {
    InitBase(cfg);
    var s := Init(cfg);
    forall i | 0 <= i < |s.slots|
      ensures SlotDeep(cfg, s, i)
    {
    }
  }

  // ---- Frames ---------------------------------------------------------------------------------

  /** A slot's condition survives the responder's going. */
  lemma OkGone(cfg: Config, i: nat, v: View)
    requires SlotOk(cfg, i, v)
    ensures SlotOk(cfg, i, v.(gone := true))
  {
  }

  /** In the gap of a cancel the handler may go. */
  lemma OkUnserved(cfg: Config, i: nat, v: View, h: Option<Handler>)
    requires SlotOk(cfg, i, v) && v.gap
    ensures SlotOk(cfg, i, v.(handler := h))
  {
  }

  /** A reply moves along with its status and body, and is dropped only in the gap of a cancel. */
  ghost predicate MovesReply(v: View, job: Job) {
    Replying(v.job) && v.sl.status == Running &&
    ((Replying(job) && job.status == v.job.status && job.body == v.job.body) ||
     (v.gap && job == NoJob && v.sl.resBuf < 0))
  }

  lemma OkReplies(cfg: Config, i: nat, v: View, job: Job)
    requires SlotOk(cfg, i, v) && MovesReply(v, job)
    ensures SlotOk(cfg, i, v.(job := job))
  {
  }

  /** No slot's condition reads what earlier collects took of its call, or whether they threw. */
  lemma OkRecord(cfg: Config, i: nat, v: View, lost: Bytes, threw: bool)
    requires SlotOk(cfg, i, v) && v.call.Some?
    ensures SlotOk(cfg, i, v.(call := Some(v.call.value.(lost := lost, threw := threw))))
  {
  }

  lemma SlotsFrame(cfg: Config, s: State, t: State, j: nat)
    requires SlotsDeep(cfg, s) && j < |s.slots| == |t.slots|
    requires forall i :: 0 <= i < |s.slots| && i != j ==> ViewAt(t, i) == ViewAt(s, i)
    requires SlotDeep(cfg, t, j)
    ensures SlotsDeep(cfg, t)
  {
    forall i | 0 <= i < |t.slots|
      ensures SlotDeep(cfg, t, i)
    {
      if i != j {
        assert SlotDeep(cfg, s, i);
      }
    }
  }

  /** Handlers are unaffected when their slot keeps its call at work, or goes to a new one. */
  lemma HandlersFrame(s: State, t: State, j: nat)
    requires HandlersInv(s.slots, s.calls, s.handlers) && |t.slots| == |s.slots| && j < |s.slots|
    requires t.handlers == s.handlers && |s.calls| <= |t.calls|
    requires forall i :: 0 <= i < |s.slots| && i != j ==> t.slots[i] == s.slots[i]
    requires Live(t.slots[j]) ==>
      t.slots[j].call >= |s.calls| || t.calls[t.slots[j].call].failed.Some? ||
      (t.slots[j].call == s.slots[j].call && Live(s.slots[j]) &&
        (s.slots[j].stage == Working ==> t.slots[j].stage == Working))
    requires forall c :: c in s.handlers && c < |s.calls| ==>
      SameCall(s.calls[c], t.calls[c]) && t.calls[c].answer == s.calls[c].answer &&
      (s.calls[c].failed.Some? ==> t.calls[c].failed.Some?)
    ensures HandlersInv(t.slots, t.calls, t.handlers)
  {
    forall c | c in t.handlers
      ensures HandlerOk(t.slots, t.calls, t.handlers[c], c)
    {
      assert HandlerOk(s.slots, s.calls, s.handlers[c], c);
    }
  }

  lemma GiveRes(slots: seq<Slot>, slots': seq<Slot>, res: seq<Buf>, j: nat)
    requires ResInv(slots, res) && j < |slots| == |slots'|
    requires forall i :: 0 <= i < |slots| && i != j ==> slots'[i] == slots[i]
    requires slots'[j].resBuf == -1
    ensures ResInv(slots', Give(res, slots[j].resBuf))
    ensures forall i :: 0 <= i < |slots| && i != j ==>
      Shown(slots[i], Give(res, slots[j].resBuf)) == Shown(slots[i], res)
  {
  }

  lemma ResSame(slots: seq<Slot>, slots': seq<Slot>, res: seq<Buf>)
    requires ResInv(slots, res) && |slots| == |slots'|
    requires forall i :: 0 <= i < |slots| ==>
      slots'[i].resBuf == slots[i].resBuf || (slots'[i].resBuf < 0 && slots[i].resBuf < 0)
    ensures ResInv(slots', res)
  {
  }

  lemma GrabRes(slots: seq<Slot>, slots': seq<Slot>, res: seq<Buf>, j: nat, b: nat, piece: Bytes)
    requires ResInv(slots, res) && j < |slots| == |slots'| && b < |res| && !res[b].held
    requires forall i :: 0 <= i < |slots| && i != j ==> slots'[i] == slots[i]
    requires slots[j].resBuf < 0 && slots'[j].resBuf == b
    ensures ResInv(slots', Grab(res, b, AtSlot(j), piece))
    ensures forall i :: 0 <= i < |slots| && i != j ==>
      Shown(slots[i], Grab(res, b, AtSlot(j), piece)) == Shown(slots[i], res)
  {
  }

  /** A request buffer that goes back, or is filled by the worker, is nobody else's. */
  lemma OthersRequests(slots: seq<Slot>, req: seq<Buf>, req': seq<Buf>, hand: int, j: nat, b: int)
    requires ReqInv(slots, req, hand) && j < |slots| && |req'| == |req| &&
      (b == slots[j].reqBuf || (b == hand && 0 <= b < |req| && req[b].owner == TheWorker))
    requires forall k :: 0 <= k < |req| && k != b ==> req'[k] == req[k]
    ensures forall i :: 0 <= i < |slots| && i != j ==> ReqData(slots[i], req') == ReqData(slots[i], req)
  {
  }

  /** Changing one call's record. */
  lemma OneCallOk(cfg: Config, calls: seq<Call>, calls': seq<Call>, gone: bool, c: nat)
    requires CallsInv(cfg, calls, gone) && |calls'| == |calls|
    requires forall k :: 0 <= k < |calls| && k != c ==> calls'[k] == calls[k]
    requires c < |calls| ==> CallOk(cfg, calls'[c], gone)
    ensures CallsInv(cfg, calls', gone)
  {
  }

  lemma OverlayPrefix(data: Bytes, piece: Bytes)
    ensures Prefix(Overlay(data, piece), |piece|) == piece
  {
  }
}
