/** The host-call bridge as a step system: one worker thread (`call.ts`) and one responder
    (`respond.ts`) over a ring of slots and two buffer pools in shared memory.

    A step is one atomic access, or several accesses no other party can tell apart from one: words of a
    slot the party owns at that moment are written together with the store that hands the slot over.
    Every load, compare-and-exchange, generation change, status change and counter bump that the other
    side can interleave with is a step of its own, with three exceptions. `Atomics.add` on DONE_SEQ and the
    `notify` after it are one step. The worker's `release` is one step: the buffer and the slot it gives
    back are its own until then, and it alone waits for the bump. And one slot of `failPending`, from the
    look at its status to the release of its request, is one step. Generations and counters are unbounded.

    `Call`, `Slot.call`, `Slot.stage` and `Buf.owner` are history: no step's effect on the shared words
    depends on them, except that a call record also holds the arguments of its own `submit`. */
module BridgeModel {
  import opened Options

  type Byte = bv8
  type Bytes = seq<Byte>

  datatype Status = Free | Pending | Running | Ready | Cancelled | Claimed
  datatype ResStatus = OK | ERR | MORE | ACK
  datatype Op = Push | Continue | User(code: int)

  datatype Answer = Answer(status: ResStatus, bytes: Bytes)

  /** The sizes of a bridge, and whether `cancel` moves the generation and the status in one step. */
  datatype Config = Config(slots: nat, bufs: nat, bufBytes: nat, inlineBytes: nat, atomicCancel: bool) {
    predicate Valid() {
      0 < slots && 0 < bufs && 0 < inlineBytes <= bufBytes
    }
  }

  /** Where a live call stands in the protocol. */
  datatype Stage =
    | Filling      // the worker is preparing a piece of the request
    | Pushing      // a piece that is not the last is pending
    | PushTaken    // the responder holds that piece and is acknowledging it
    | PushAcked    // the acknowledgement is ready
    | Asked        // the last piece is pending
    | Working      // a handler is running
    | Answering    // the responder is writing an answer, or the next piece of one
    | Answered     // an answer, or a piece of one, is ready
    | Continuing   // the worker asked for the next piece

  datatype Slot = Slot(
    status: Status, gen: nat, op: Op, reqLen: nat, resLen: nat, resStatus: ResStatus,
    reqBuf: int, resBuf: int, inline: Bytes,
    tail: Bytes, finalStatus: ResStatus, partial: Bytes,
    call: nat, stage: Stage)

  datatype Owner = Nobody | TheWorker | AtSlot(slot: nat)
  datatype Buf = Buf(held: bool, data: Bytes, owner: Owner)

  /** One `submit`, and everything that later became of it. */
  datatype Call = Call(
    slot: nat, gen: nat, op: int, payload: Bytes,
    sent: nat, issued: bool,
    received: Option<Bytes>, answer: Option<Answer>,
    room: Option<bool>,    // whether a pooled buffer was free when the answer was first written
    taken: Bytes,          // the pieces every `collect` of this call has read so far
    lost: Bytes,           // of these, the pieces read before the last `collect` began
    threw: bool,           // a `collect` of this call was cut short
    failed: Option<Bytes>, // the responder stopped, and answered the call with this failure
    outcome: Option<Answer>)

  datatype Fill = Fill(slot: nat, call: nat)
  datatype Cont = SendNext(fill: Fill) | Collecting(call: nat, got: Bytes)

  datatype Why =
    | ForSlot(op: int, payload: Bytes, lag: int)
    | ForReqBuf(fill: Fill)
    | ForReady(slot: nat, cont: Cont)
    | ForAny(tickets: seq<nat>)

  datatype Phase = Before | Wait | After

  datatype Worker =
    | Idle
    | ClaimLoad(op: int, payload: Bytes)
    | ClaimTry(op: int, payload: Bytes, seen: nat, i: nat, ready: nat, lag: int)
    | ClaimPeek(op: int, payload: Bytes, seen: nat, i: nat, ready: nat, lag: int)
    | BufLoad(fill: Fill)
    | BufTry(fill: Fill, seen: nat, i: nat)
    | Publish(fill: Fill, buf: nat)
    | AwaitLoad(slot: nat, cont: Cont)
    | AwaitCheck(slot: nat, seen: nat, cont: Cont)
    | Read(slot: nat, cont: Cont)
    | AnyLoad(tickets: seq<nat>)
    | AnyScan(tickets: seq<nat>, seen: nat, i: nat)
    | CancelStore(call: nat)
    | CancelMark(call: nat)
    | Park(seen: nat, why: Why, phase: Phase)

  /** What the responder is in the middle of, for the slot it is at. */
  datatype Job =
    | NoJob
    | Take
    | Loaded(gen: nat, op: Op)
    | Taken(gen: nat, op: Op, payload: Bytes, bumped: bool)
    | Reply(status: ResStatus, body: Bytes)
    | Write(status: ResStatus, body: Bytes, gen: nat)
    | FillIn(status: ResStatus, body: Bytes)
    | PublishIt
    | FreeIt

  datatype Host =
    | Watching
    | At(slot: nat, job: Job)
    | MustBump
    | Failing
    | Gone

  datatype Handler = Handler(slot: nat, gen: nat, op: int, whole: Bytes)

  /** `sweep` is the next slot `failPending` looks at, and past the ring once it is over. */
  datatype State = State(
    slots: seq<Slot>, req: seq<Buf>, res: seq<Buf>,
    doneSeq: nat, gone: bool, sweep: nat,
    worker: Worker, host: Host, handlers: map<nat, Handler>, calls: seq<Call>)

  // ---- Small helpers --------------------------------------------------------------------------

  function Prefix(b: Bytes, n: nat): Bytes {
    if n <= |b| then b[..n] else b
  }

  /** Writing `piece` at the front of a buffer that holds `data`. */
  function Overlay(data: Bytes, piece: Bytes): Bytes {
    piece + if |piece| <= |data| then data[|piece|..] else []
  }

  function WithSlot(s: State, i: nat, sl: Slot): State
    requires i < |s.slots|
  {
    s.(slots := s.slots[i := sl])
  }

  function WithCall(s: State, c: nat, call: Call): State
    requires c < |s.calls|
  {
    s.(calls := s.calls[c := call])
  }

  /** `releaseBuf`: ignores -1. */
  function Give(pool: seq<Buf>, b: int): seq<Buf> {
    if 0 <= b < |pool| then pool[b := pool[b].(held := false, owner := Nobody)] else pool
  }

  function Grab(pool: seq<Buf>, b: nat, owner: Owner, piece: Bytes): seq<Buf>
    requires b < |pool|
  {
    pool[b := Buf(true, Overlay(pool[b].data, piece), owner)]
  }

  /** The first free buffer from i on, or -1. */
  function FirstFree(pool: seq<Buf>, i: nat): (b: int)
    requires i <= |pool|
    ensures if b < 0 then b == -1 && forall k :: i <= k < |pool| ==> pool[k].held else i <= b < |pool| && !pool[b].held
    decreases |pool| - i
  {
    if i == |pool| then -1 else if !pool[i].held then i else FirstFree(pool, i + 1)
  }

  predicate HasFree(pool: seq<Buf>) {
    exists b :: 0 <= b < |pool| && !pool[b].held
  }

  /** `acquireBuf`: a free buffer whenever there is one. Buffers given back behind the scan can make it
      another than the first, so which one is the caller's to choose. */
  function Acquire(pool: seq<Buf>, want: int): (b: int)
    ensures b < 0 <==> !HasFree(pool)
    ensures b < 0 ==> b == -1
    ensures b >= 0 ==> b < |pool| && !pool[b].held
  {
    if 0 <= want < |pool| && !pool[want].held then want else FirstFree(pool, 0)
  }

  /** The answer bytes a slot shows: in its pooled buffer, or inline when it has none. */
  function Shown(sl: Slot, res: seq<Buf>): Bytes {
    Prefix(if 0 <= sl.resBuf < |res| then res[sl.resBuf].data else sl.inline, sl.resLen)
  }

  function JobAt(h: Host, i: nat): Job {
    if h.At? && h.slot == i then h.job else NoJob
  }

  /** `isDone`: an expired ticket counts as done. */
  predicate IsDone(s: State, c: nat)
    requires c < |s.calls| && s.calls[c].slot < |s.slots|
  {
    var sl := s.slots[s.calls[c].slot];
    sl.gen != s.calls[c].gen || sl.status == Ready
  }

  // ---- The worker -----------------------------------------------------------------------------

  function Throw(s: State, why: Why): State {
    if why.ForReady? && why.cont.Collecting? && why.cont.call < |s.calls| then
      WithCall(s, why.cont.call, s.calls[why.cont.call].(threw := true)).(worker := Idle)
    else
      s.(worker := Idle)
  }

  function Resume(why: Why): Worker {
    match why
    case ForSlot(op, payload, _) => ClaimLoad(op, payload)
    case ForReqBuf(fill) => BufLoad(fill)
    case ForReady(slot, cont) => AwaitLoad(slot, cont)
    case ForAny(tickets) => AnyLoad(tickets)
  }

  /** `parkForHost`: the flag, the wait, the flag again. */
  function ParkStep(s: State, seen: nat, why: Why, phase: Phase): State {
    match phase
    case Before => if s.gone then Throw(s, why) else s.(worker := Park(seen, why, Wait))
    case Wait => s.(worker := Park(seen, why, After))
    case After => if s.gone then Throw(s, why) else s.(worker := Resume(why))
  }

  /** One slot of the scan in `claim`: the compare-and-exchange. */
  function ClaimTryStep(cfg: Config, s: State, w: Worker): State
    requires w.ClaimTry? && |s.slots| == cfg.slots
  {
    if w.i >= cfg.slots then
      if w.ready == cfg.slots then s.(worker := Idle)
      else s.(worker := Park(w.seen, ForSlot(w.op, w.payload, w.lag), Before))
    else if s.slots[w.i].status == Free then
      var c := |s.calls|;
      var sl := s.slots[w.i];
      s.(slots := s.slots[w.i := sl.(status := Claimed, call := c, stage := Filling)],
         calls := s.calls + [Call(w.i, sl.gen, w.op, w.payload, 0, false, None, None, None, [], [], false, None, None)],
         worker := BufLoad(Fill(w.i, c)))
    else
      s.(worker := ClaimPeek(w.op, w.payload, w.seen, w.i, w.ready, w.lag))
  }

  function ClaimPeekStep(s: State, w: Worker): State
    requires w.ClaimPeek? && w.i < |s.slots|
  {
    if s.slots[w.i].status == Ready then
      s.(worker := ClaimTry(w.op, w.payload, w.seen, w.i + 1, w.ready + 1, w.lag))
    else
      s.(worker := ClaimTry(w.op, w.payload, w.seen, w.i + 1, w.ready, w.i))
  }

  function BufTryStep(cfg: Config, s: State, w: Worker): State
    requires w.BufTry? && |s.req| == cfg.bufs
  {
    if w.i >= cfg.bufs then s.(worker := Park(w.seen, ForReqBuf(w.fill), Before))
    else if !s.req[w.i].held then
      s.(req := s.req[w.i := s.req[w.i].(held := true, owner := TheWorker)], worker := Publish(w.fill, w.i))
    else s.(worker := BufTry(w.fill, w.seen, w.i + 1))
  }

  /** Fill the buffer, attach it, write the opcode and the length, and publish the slot. */
  function PublishStep(cfg: Config, s: State, f: Fill, b: nat): State
    requires f.slot < |s.slots| && f.call < |s.calls| && b < |s.req| &&
      s.calls[f.call].sent <= |s.calls[f.call].payload|
  {
    var c := s.calls[f.call];
    var more := |c.payload| - c.sent > cfg.bufBytes;
    var piece := if more then c.payload[c.sent..c.sent + cfg.bufBytes] else c.payload[c.sent..];
    s.(req := Grab(s.req, b, AtSlot(f.slot), piece),
       slots := s.slots[f.slot := s.slots[f.slot].(
         reqBuf := b, op := if more then Push else User(c.op), reqLen := |piece|,
         status := Pending, stage := if more then Pushing else Asked)],
       calls := s.calls[f.call := c.(issued := !more)],
       worker := if more then AwaitLoad(f.slot, SendNext(f)) else Idle)
  }

  /** `release`: the answer's buffer, the generation, the status and the bump. */
  function ReleaseSlot(s: State, i: nat): State
    requires i < |s.slots|
  {
    var sl := s.slots[i];
    s.(res := Give(s.res, sl.resBuf),
       slots := s.slots[i := sl.(resBuf := -1, gen := sl.gen + 1, status := Free)],
       doneSeq := s.doneSeq + 1)
  }

  /** `readRes` and what `submit` and `collect` do with what they read. */
  function ReadStep(cfg: Config, s: State, i: nat, cont: Cont): State
    requires i < |s.slots|
    requires (match cont case SendNext(f) => f.call < |s.calls| case Collecting(c, _) => c < |s.calls|)
  {
    var sl := s.slots[i];
    var chunk, status := Shown(sl, s.res), sl.resStatus;
    match cont
    case SendNext(f) =>
      if status == ERR then ReleaseSlot(s, i).(worker := Idle)
      else
        var c := s.calls[f.call];
        s.(res := Give(s.res, sl.resBuf),
           slots := s.slots[i := sl.(resBuf := -1, stage := Filling)],
           calls := s.calls[f.call := c.(sent := c.sent + cfg.bufBytes)],
           worker := BufLoad(f))
    case Collecting(ci, got) =>
      var c := s.calls[ci];
      if status == ERR then
        ReleaseSlot(WithCall(s, ci, c.(outcome := Some(Answer(ERR, chunk)))), i).(worker := Idle)
      else if status == MORE then
        s.(res := Give(s.res, sl.resBuf),
           slots := s.slots[i := sl.(
             resBuf := -1, op := Continue, reqLen := 0, status := Pending, stage := Continuing)],
           calls := s.calls[ci := c.(taken := c.taken + chunk)],
           worker := AwaitLoad(i, Collecting(ci, got + chunk)))
      else
        ReleaseSlot(WithCall(s, ci, c.(outcome := Some(Answer(OK, got + chunk)))), i).(worker := Idle)
  }

  /** The worker's next step from where it is. */
  function WorkerStep(cfg: Config, s: State): State
    requires WorkerReady(cfg, s)
  {
    match s.worker
    case Idle => s
    case ClaimLoad(op, payload) => s.(worker := ClaimTry(op, payload, s.doneSeq, 0, 0, -1))
    case ClaimTry(_, _, _, _, _, _) => ClaimTryStep(cfg, s, s.worker)
    case ClaimPeek(_, _, _, _, _, _) => ClaimPeekStep(s, s.worker)
    case BufLoad(fill) => s.(worker := BufTry(fill, s.doneSeq, 0))
    case BufTry(_, _, _) => BufTryStep(cfg, s, s.worker)
    case Publish(fill, buf) => PublishStep(cfg, s, fill, buf)
    case AwaitLoad(slot, cont) => s.(worker := AwaitCheck(slot, s.doneSeq, cont))
    case AwaitCheck(slot, seen, cont) =>
      if s.slots[slot].status == Ready then s.(worker := Read(slot, cont))
      else s.(worker := Park(seen, ForReady(slot, cont), Before))
    case Read(slot, cont) => ReadStep(cfg, s, slot, cont)
    case AnyLoad(tickets) => s.(worker := AnyScan(tickets, s.doneSeq, 0))
    case AnyScan(tickets, seen, i) =>
      if i >= |tickets| then s.(worker := Park(seen, ForAny(tickets), Before))
      else if IsDone(s, tickets[i]) then s.(worker := Idle)
      else s.(worker := AnyScan(tickets, seen, i + 1))
    case CancelStore(c) =>
      var i := s.calls[c].slot;
      var sl := s.slots[i];
      if cfg.atomicCancel then
        WithSlot(s, i, sl.(gen := sl.gen + 1, status := Cancelled)).(worker := Idle)
      else
        WithSlot(s, i, sl.(gen := sl.gen + 1)).(worker := CancelMark(c))
    case CancelMark(c) =>
      var i := s.calls[c].slot;
      WithSlot(s, i, s.slots[i].(status := Cancelled)).(worker := Idle)
    case Park(seen, why, phase) => ParkStep(s, seen, why, phase)
  }

  /** Well-formedness of what the step reads; `Atomics.wait` sleeps while the counter is unchanged. */
  predicate WorkerReady(cfg: Config, s: State) {
    |s.slots| == cfg.slots && |s.req| == cfg.bufs &&
    match s.worker
    case Idle => false
    case ClaimPeek(_, _, _, i, _, _) => i < cfg.slots
    case Publish(f, b) =>
      f.slot < cfg.slots && f.call < |s.calls| && b < cfg.bufs && s.calls[f.call].sent <= |s.calls[f.call].payload|
    case AwaitCheck(slot, _, _) => slot < cfg.slots
    case Read(slot, cont) =>
      slot < cfg.slots && (match cont case SendNext(f) => f.call < |s.calls| case Collecting(c, _) => c < |s.calls|)
    case AnyScan(tickets, _, i) =>
      i < |tickets| ==> tickets[i] < |s.calls| && s.calls[tickets[i]].slot < cfg.slots
    case CancelStore(c) => c < |s.calls| && s.calls[c].slot < cfg.slots
    case CancelMark(c) => c < |s.calls| && s.calls[c].slot < cfg.slots
    case Park(seen, _, phase) => phase == Wait ==> s.doneSeq != seen
    case _ => true
  }

  // ---- The responder --------------------------------------------------------------------------

  /** What the responder may do next is its choice of slot, of handler result and of buffer. */
  datatype Choice = Choice(known: bool, message: Bytes, buf: int)

  /** `take`, once its compare-and-exchange has won. */
  function Dispatch(s: State, i: nat, t: Job, ch: Choice): State
    requires i < |s.slots| && t.Taken? && s.slots[i].call < |s.calls|
  {
    var sl := s.slots[i].(status := Running);
    match t.op
    case Continue =>
      WithSlot(s, i, sl.(tail := [], stage := Answering)).(host := At(i, Reply(sl.finalStatus, sl.tail)))
    case Push =>
      WithSlot(s, i, sl.(partial := sl.partial + t.payload, stage := PushTaken)).(host := At(i, Reply(ACK, [])))
    case User(op) =>
      var whole := sl.partial + t.payload;
      var c := s.calls[sl.call];
      if ch.known then
        s.(slots := s.slots[i := sl.(partial := [], stage := Working)],
           calls := s.calls[sl.call := c.(received := Some(whole))],
           handlers := s.handlers[sl.call := Handler(i, t.gen, op, whole)],
           host := Watching)
      else
        s.(slots := s.slots[i := sl.(partial := [], stage := Answering)],
           calls := s.calls[sl.call := c.(answer := Some(Answer(ERR, ch.message)))],
           host := At(i, Reply(ERR, ch.message)))
  }

  /** `write`: a pooled buffer when the body is large and one is free, the inline area otherwise. */
  function FillStep(cfg: Config, s: State, i: nat, status: ResStatus, body: Bytes, want: int): State
    requires i < |s.slots| && s.slots[i].call < |s.calls|
  {
    var sl := s.slots[i];
    var c := s.calls[sl.call];
    var buf := if |body| > cfg.inlineBytes then Acquire(s.res, want) else -1;
    var room := if buf >= 0 then cfg.bufBytes else cfg.inlineBytes;
    var fits := if |body| <= room then |body| else room;
    var rest := body[fits..];
    s.(res := if buf >= 0 then Grab(s.res, buf, AtSlot(i), body[..fits]) else s.res,
       slots := s.slots[i := sl.(
         resBuf := buf,
         inline := if buf >= 0 then sl.inline else Overlay(sl.inline, body[..fits]),
         resLen := fits,
         resStatus := if rest != [] then MORE else status,
         tail := if rest != [] then rest else sl.tail,
         finalStatus := if rest != [] then status else sl.finalStatus)],
       calls := s.calls[sl.call := if c.answer.Some? && c.room.None? then c.(room := Some(HasFree(s.res))) else c],
       host := At(i, PublishIt))
  }

  function AfterPublish(st: Stage): Stage {
    match st
    case PushTaken => PushAcked
    case Answering => Answered
    case _ => st
  }

  /** Where the responder goes when it is done with a slot. */
  function Back(s: State): Host {
    if !s.gone then Watching else if s.sweep <= |s.slots| then Failing else Gone
  }

  /** One slot of `failPending`: a pending slot is taken unread, a running one as it is, and either is
      answered with a failure. After the last slot comes the last bump. */
  function FailStep(s: State, why: Bytes): State
    requires s.sweep < |s.slots| ==> s.slots[s.sweep].status == Free || s.slots[s.sweep].call < |s.calls|
  {
    if s.sweep >= |s.slots| then s.(doneSeq := s.doneSeq + 1, sweep := s.sweep + 1, host := Gone)
    else
      var i, sl, t := s.sweep, s.slots[s.sweep], s.(sweep := s.sweep + 1);
      if sl.status == Pending then
        t.(req := Give(s.req, sl.reqBuf), slots := s.slots[i := sl.(status := Running, reqBuf := -1)],
           calls := s.calls[sl.call := s.calls[sl.call].(failed := Some(why))], host := At(i, Reply(ERR, why)))
      else if sl.status == Running then
        t.(calls := s.calls[sl.call := s.calls[sl.call].(failed := Some(why))], host := At(i, Reply(ERR, why)))
      else t
  }

  /** The responder's next step at the slot it is at. */
  function HostStep(cfg: Config, s: State, ch: Choice): State
    requires HostReady(cfg, s)
  {
    match s.host
    case Watching => s
    case Gone => s
    case MustBump => s.(doneSeq := s.doneSeq + 1, host := Back(s))
    case Failing => FailStep(s, ch.message)
    case At(i, job) =>
      var sl := s.slots[i];
      match job
      case NoJob => s
      case Take => s.(host := At(i, Loaded(sl.gen, sl.op)))
      case Loaded(gen, op) =>
        var payload := if 0 <= sl.reqBuf < |s.req| then Prefix(s.req[sl.reqBuf].data, sl.reqLen) else [];
        s.(req := Give(s.req, sl.reqBuf), slots := s.slots[i := sl.(reqBuf := -1)],
           host := At(i, Taken(gen, op, payload, false)))
      case Taken(gen, op, payload, bumped) =>
        if !bumped then s.(doneSeq := s.doneSeq + 1, host := At(i, Taken(gen, op, payload, true)))
        else if sl.status != Pending then s.(host := Watching)
        else Dispatch(s, i, job, ch)
      case Reply(status, body) => s.(host := At(i, Write(status, body, sl.gen)))
      case Write(status, body, gen) =>
        if sl.gen != gen then s.(host := Back(s)) else s.(host := At(i, FillIn(status, body)))
      case FillIn(status, body) => FillStep(cfg, s, i, status, body, ch.buf)
      case PublishIt =>
        if sl.status == Running then
          WithSlot(s, i, sl.(status := Ready, stage := AfterPublish(sl.stage))).(host := MustBump)
        else
          WithSlot(s, i, sl.(resBuf := -1, tail := [])).(res := Give(s.res, sl.resBuf), host := Back(s))
      case FreeIt => WithSlot(s, i, sl.(status := Free)).(host := MustBump)
  }

  predicate HostReady(cfg: Config, s: State) {
    |s.slots| == cfg.slots &&
    match s.host
    case At(i, job) => i < cfg.slots && job != NoJob && s.slots[i].call < |s.calls|
    case MustBump => true
    case Failing => s.sweep < cfg.slots ==> s.slots[s.sweep].status == Free || s.slots[s.sweep].call < |s.calls|
    case _ => false
  }

  /** `abandon`: a slot the worker gave up on gives both its buffers back, before it is freed. */
  function AbandonStep(s: State, i: nat): State
    requires i < |s.slots|
  {
    var sl := s.slots[i];
    s.(req := Give(s.req, sl.reqBuf), res := Give(s.res, sl.resBuf),
       slots := s.slots[i := sl.(reqBuf := -1, resBuf := -1, tail := [], partial := [])],
       host := At(i, FreeIt))
  }

  /** A handler finished. Its answer is dropped when the generation it was started at has moved. */
  function FinishStep(s: State, c: nat, a: Answer): State
    requires c in s.handlers && c < |s.calls| && s.handlers[c].slot < |s.slots|
  {
    var h := s.handlers[c];
    var t := s.(handlers := s.handlers - {c});
    var sl := s.slots[h.slot];
    if sl.gen != h.gen then t
    else
      t.(slots := t.slots[h.slot := sl.(stage := Answering)],
         calls := t.calls[c := t.calls[c].(answer := Some(a))],
         host := At(h.slot, Reply(a.status, a.bytes)))
  }

  // ---- Steps and runs -------------------------------------------------------------------------

  datatype Label =
    | Submit(op: int, payload: Bytes)
    | Collect(call: nat)
    | Cancel(call: nat)
    | WaitAny(tickets: seq<nat>)
    | WorkerGo
    | TimeOut          // a bounded `waitAny` returns from its wait, or gives up after a scan
    | HostGo(choice: Choice)
    | See(slot: nat)
    | Abandon(slot: nat)
    | Finish(call: nat, answer: Answer)
    | Stop

  /** A ticket the worker holds: a call whose `submit` has returned. */
  predicate Ticket(cfg: Config, s: State, c: nat) {
    c < |s.calls| && s.calls[c].issued && s.calls[c].slot < |s.slots|
  }

  predicate Enabled(cfg: Config, s: State, l: Label) {
    match l
    case Submit(_, _) => s.worker == Idle
    case Collect(c) => s.worker == Idle && Ticket(cfg, s, c)
    case Cancel(c) => s.worker == Idle && Ticket(cfg, s, c)
    case WaitAny(ts) => s.worker == Idle && forall k :: 0 <= k < |ts| ==> Ticket(cfg, s, ts[k])
    case WorkerGo => WorkerReady(cfg, s)
    case TimeOut =>
      (s.worker.Park? && s.worker.why.ForAny? && s.worker.phase == Wait) ||
      (s.worker.AnyScan? && s.worker.i >= |s.worker.tickets|)
    case HostGo(_) => HostReady(cfg, s)
    case See(i) => s.host == Watching && i < |s.slots| && s.slots[i].status == Pending
    case Abandon(i) => s.host == Watching && i < |s.slots| && s.slots[i].status == Cancelled
    case Finish(c, a) =>
      (s.host == Watching || s.host == Gone) && c in s.handlers && c < |s.calls| && s.handlers[c].slot < |s.slots| &&
      (a.status == OK || a.status == ERR)
    case Stop => s.host == Watching
  }

  function Next(cfg: Config, s: State, l: Label): State
    requires Enabled(cfg, s, l)
  {
    match l
    case Submit(op, payload) => s.(worker := ClaimLoad(op, payload))
    case Collect(c) =>
      if s.slots[s.calls[c].slot].gen != s.calls[c].gen then s
      else
        WithCall(s, c, s.calls[c].(lost := s.calls[c].taken)).(worker := AwaitLoad(s.calls[c].slot, Collecting(c, [])))
    case Cancel(c) =>
      var sl := s.slots[s.calls[c].slot];
      if sl.gen != s.calls[c].gen then s
      else if sl.status == Ready then ReleaseSlot(s, s.calls[c].slot)
      else s.(worker := CancelStore(c))
    case WaitAny(ts) => if ts == [] then s else s.(worker := AnyLoad(ts))
    case WorkerGo => WorkerStep(cfg, s)
    case TimeOut =>
      if s.worker.Park? then s.(worker := Park(s.worker.seen, s.worker.why, After)) else s.(worker := Idle)
    case HostGo(ch) => HostStep(cfg, s, ch)
    case See(i) => s.(host := At(i, Take))
    case Abandon(i) => AbandonStep(s, i)
    case Finish(c, a) => FinishStep(s, c, a)
    case Stop => s.(gone := true, sweep := 0, host := Failing)
  }

  function Init(cfg: Config): State {
    State(
      seq(cfg.slots, _ => Slot(Free, 0, User(0), 0, 0, OK, -1, -1, [], [], OK, [], 0, Filling)),
      seq(cfg.bufs, _ => Buf(false, [], Nobody)), seq(cfg.bufs, _ => Buf(false, [], Nobody)),
      0, false, 0, Idle, Watching, map[], [])
  }

  /** `trace` is a run: it starts fresh and every state follows from the one before. */
  ghost predicate IsRun(cfg: Config, labels: seq<Label>, trace: seq<State>) {
    |trace| == |labels| + 1 && trace[0] == Init(cfg) &&
    forall k {:trigger StepAt(cfg, labels, trace, k)} :: 0 <= k < |labels| ==> StepAt(cfg, labels, trace, k)
  }

  /** Step k of a run is the one its label names. */
  ghost predicate StepAt(cfg: Config, labels: seq<Label>, trace: seq<State>, k: nat)
    requires k < |labels| < |trace|
  {
    Enabled(cfg, trace[k], labels[k]) && trace[k + 1] == Next(cfg, trace[k], labels[k])
  }
}
