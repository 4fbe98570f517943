/** Every responder step keeps every answer where it belongs, as long as no handler is started at a
    generation that is not its call's or finishes too late. */
module BridgeDeepHost {
  import opened Options
  import opened BridgeModel
  import opened BridgeBase
  import opened BridgeDeep

  // ---- What a host step leaves alone ----------------------------------------------------------

  ghost predicate StageKept(sl: Slot, sl': Slot) {
    (sl'.stage == Filling <==> sl.stage == Filling) && (Sending(sl'.stage) <==> Sending(sl.stage))
  }

  ghost predicate KeptCall(k: Call, k': Call) {
    k'.slot == k.slot && k'.gen == k.gen && k'.taken == k.taken && k'.lost == k.lost && k'.threw == k.threw &&
    k'.outcome == k.outcome
  }

  /** A host step at slot j, which may change that slot, the record and the handler of a call of that
      slot, and buffers that are no other slot's. */
  ghost predicate DeepAt(s: State, t: State, j: nat, c: nat) {
    j < |s.slots| == |t.slots| && t.worker == s.worker && t.gone == s.gone && |t.calls| == |s.calls| &&
    (forall i :: 0 <= i < |s.slots| && i != j ==>
      t.slots[i] == s.slots[i] && ReqData(s.slots[i], t.req) == ReqData(s.slots[i], s.req) &&
      Shown(s.slots[i], t.res) == Shown(s.slots[i], s.res)) &&
    (s.host.At? ==> s.host.slot == j) && (t.host.At? ==> t.host.slot == j) && StageKept(s.slots[j], t.slots[j]) &&
    (forall k :: 0 <= k < |s.calls| && k != c ==> t.calls[k] == s.calls[k]) &&
    (c < |s.calls| ==> s.calls[c].slot == j && KeptCall(s.calls[c], t.calls[c])) &&
    (forall k :: k != c ==> HandlerOf(t.handlers, k) == HandlerOf(s.handlers, k))
  }

  lemma OthersSame(s: State, t: State, j: nat, c: nat)
    requires SlotsBase(s) && DeepAt(s, t, j, c)
    ensures forall i :: 0 <= i < |s.slots| && i != j ==> ViewAt(t, i) == ViewAt(s, i)
  {
    forall i | 0 <= i < |s.slots| && i != j
      ensures ViewAt(t, i) == ViewAt(s, i)
    {
      assert SlotBase(s, i);
    }
  }

  lemma WorkerSame(s: State, t: State, j: nat, c: nat)
    requires DeepAt(s, t, j, c) && WorkerDeep(s) && TakenInv(s.calls, CollectsCall(s.worker))
    ensures WorkerDeep(t) && TakenInv(t.calls, CollectsCall(t.worker))
  {
    forall k | 0 <= k < |t.calls| && t.calls[k].taken != []
      ensures t.calls[k].threw || t.calls[k].outcome.Some? || CollectsCall(t.worker) == Some(k)
    {
      assert k != c ==> t.calls[k] == s.calls[k];
    }
  }

  lemma HostStepDeep(cfg: Config, s: State, t: State, j: nat, c: nat)
    requires Inv(cfg, s) && DeepAt(s, t, j, c)
    requires SlotDeep(cfg, t, j) && HostDeep(t.slots, t.host, t.gone) &&
      (c < |s.calls| ==> CallOk(cfg, t.calls[c], t.gone))
    requires HandlersInv(t.slots, t.calls, t.handlers) && ResInv(t.slots, t.res)
    ensures Deep(cfg, t)
  {
    OthersSame(s, t, j, c);
    SlotsFrame(cfg, s, t, j);
    OneCallOk(cfg, s.calls, t.calls, s.gone, c);
    WorkerSame(s, t, j, c);
  }

  // ---- The steps ------------------------------------------------------------------------------

  /** The responder between slots, before and after. */
  lemma StillDeep(cfg: Config, s: State, t: State)
    requires Inv(cfg, s) && (s.gone ==> t.gone)
    requires t == s.(host := t.host, doneSeq := t.doneSeq, gone := t.gone, sweep := t.sweep)
    requires !s.host.At? && !t.host.At? && (t.host.Watching? ==> !t.gone)
    ensures Deep(cfg, t)
  {
    forall i | 0 <= i < |t.slots|
      ensures SlotDeep(cfg, t, i)
    {
      assert SlotDeep(cfg, s, i);
      StillSlot(cfg, s, t, i);
    }
    forall c | 0 <= c < |t.calls|
      ensures CallOk(cfg, t.calls[c], t.gone)
    {
      assert CallOk(cfg, s.calls[c], s.gone);
    }
  }

  lemma StillSlot(cfg: Config, s: State, t: State, i: nat)
    requires i < |s.slots| && SlotDeep(cfg, s, i) && (s.gone ==> t.gone)
    requires t == s.(host := t.host, doneSeq := t.doneSeq, gone := t.gone, sweep := t.sweep)
    requires !s.host.At? && !t.host.At?
    ensures SlotDeep(cfg, t, i)
  {
    var v := ViewAt(s, i);
    assert ViewAt(t, i) == v.(gone := t.gone);
    OkGone(cfg, i, v);
    assert t.gone == v.gone ==> v.(gone := t.gone) == v;
  }

  /** A step that only moves the responder along, at slot j. */
  lemma MovesDeep(cfg: Config, s: State, t: State, j: nat)
    requires Inv(cfg, s) && t == s.(host := t.host, doneSeq := t.doneSeq) && j < cfg.slots
    requires (s.host.At? ==> s.host.slot == j) && (t.host.At? ==> t.host.slot == j)
    requires SlotDeep(cfg, t, j) && HostDeep(t.slots, t.host, t.gone)
    ensures Deep(cfg, t)
  {
    HostStepDeep(cfg, s, t, j, |s.calls|);
  }

  lemma SeeDeep(cfg: Config, s: State, i: nat)
    requires Inv(cfg, s) && Enabled(cfg, s, See(i))
    ensures Deep(cfg, Next(cfg, s, See(i)))
  {
    assert SlotDeep(cfg, s, i);
    MovesDeep(cfg, s, Next(cfg, s, See(i)), i);
  }

  lemma TakenMoves(cfg: Config, s: State, ch: Choice)
    requires Inv(cfg, s) && s.host.At? && HostReady(cfg, s)
    requires s.host.job.Take? ||
      (s.host.job.Taken? && (!s.host.job.bumped || s.slots[s.host.slot].status != Pending))
    ensures var t := HostStep(cfg, s, ch); SlotDeep(cfg, t, s.host.slot) && HostDeep(t.slots, t.host, t.gone)
  {
    assert SlotDeep(cfg, s, s.host.slot) && SlotBase(s, s.host.slot);
  }

  lemma ReplyMoves(cfg: Config, s: State, ch: Choice)
    requires Inv(cfg, s) && s.host.At? && HostReady(cfg, s) && (s.host.job.Reply? || s.host.job.Write?)
    ensures var t := HostStep(cfg, s, ch); SlotDeep(cfg, t, s.host.slot) && HostDeep(t.slots, t.host, t.gone)
  {
    var i, t := s.host.slot, HostStep(cfg, s, ch);
    assert SlotBase(s, i) && SlotDeep(cfg, s, i);
    ReplySlot(cfg, s, t, i);
  }

  lemma ReplySlot(cfg: Config, s: State, t: State, i: nat)
    requires i < |s.slots| && SlotDeep(cfg, s, i) && t == s.(host := t.host)
    requires s.slots[i].status == Cancelled || MovesReply(ViewAt(s, i), JobAt(t.host, i))
    ensures SlotDeep(cfg, t, i)
  {
    var v, job := ViewAt(s, i), JobAt(t.host, i);
    assert ViewAt(t, i) == v.(job := job);
    if v.sl.status == Running {
      OkReplies(cfg, i, v, job);
    }
  }

  ghost predicate OnlyMoves(s: State)
    requires s.host.At? && s.host.slot < |s.slots|
  {
    s.host.job.Take? || s.host.job.Reply? || s.host.job.Write? ||
    (s.host.job.Taken? && (!s.host.job.bumped || s.slots[s.host.slot].status != Pending))
  }

  lemma MoveDeep(cfg: Config, s: State, ch: Choice)
    requires Inv(cfg, s) && s.host.At? && HostReady(cfg, s) && OnlyMoves(s)
    ensures Deep(cfg, HostStep(cfg, s, ch))
  {
    if s.host.job.Reply? || s.host.job.Write? {
      ReplyMoves(cfg, s, ch);
    } else {
      TakenMoves(cfg, s, ch);
    }
    MovesDeep(cfg, s, HostStep(cfg, s, ch), s.host.slot);
  }

  lemma TakeDeep(cfg: Config, s: State, ch: Choice)
    requires Inv(cfg, s) && s.host.At? && s.host.job.Loaded? && HostReady(cfg, s)
    ensures Deep(cfg, HostStep(cfg, s, ch))
  {
    var i, t := s.host.slot, HostStep(cfg, s, ch);
    TakeSlot(cfg, s, ch);
    OthersRequests(s.slots, s.req, t.req, InHand(s.worker), i, s.slots[i].reqBuf);
    ResSame(s.slots, t.slots, s.res);
    HandlersFrame(s, t, i);
    HostStepDeep(cfg, s, t, i, |s.calls|);
  }

  lemma TakeSlot(cfg: Config, s: State, ch: Choice)
    requires Inv(cfg, s) && s.host.At? && s.host.job.Loaded? && HostReady(cfg, s)
    ensures SlotDeep(cfg, HostStep(cfg, s, ch), s.host.slot)
  {
    assert SlotDeep(cfg, s, s.host.slot) && SlotBase(s, s.host.slot);
    if Live(s.slots[s.host.slot]) {
      NotFailed(cfg, s, s.slots[s.host.slot].call);
    }
  }

  /** Nothing has been failed while the responder has not stopped. */
  lemma NotFailed(cfg: Config, s: State, c: nat)
    requires Inv(cfg, s) && c < |s.calls| && !s.gone
    ensures s.calls[c].failed == None
  {
    assert CallOk(cfg, s.calls[c], s.gone);
  }

  lemma FreeDeep(cfg: Config, s: State, ch: Choice)
    requires Inv(cfg, s) && s.host.At? && s.host.job.FreeIt? && HostReady(cfg, s)
    ensures Deep(cfg, HostStep(cfg, s, ch))
  {
    var i, t := s.host.slot, HostStep(cfg, s, ch);
    assert SlotBase(s, i);
    ResSame(s.slots, t.slots, s.res);
    HandlersFrame(s, t, i);
    HostStepDeep(cfg, s, t, i, |s.calls|);
  }

  // ---- Failing what is outstanding ------------------------------------------------------------

  ghost predicate FailsSlot(cfg: Config, s: State) {
    s.host.Failing? && s.sweep < |s.slots| && HostReady(cfg, s) &&
    (s.slots[s.sweep].status == Pending || s.slots[s.sweep].status == Running)
  }

  /** A slot about to be failed has nothing attached, and its call has no outcome. */
  lemma FailFinds(cfg: Config, s: State)
    requires Inv(cfg, s) && FailsSlot(cfg, s)
    ensures var sl := s.slots[s.sweep];
      sl.resBuf < 0 && sl.call < |s.calls| && s.calls[sl.call].slot == s.sweep && s.calls[sl.call].outcome == None &&
      s.gone && CallOk(cfg, s.calls[sl.call], s.gone)
  {
    assert SlotDeep(cfg, s, s.sweep) && SlotBase(s, s.sweep);
    assert CallOk(cfg, s.calls[s.slots[s.sweep].call], s.gone);
  }

  lemma FailAt(cfg: Config, s: State, ch: Choice)
    requires Inv(cfg, s) && FailsSlot(cfg, s)
    ensures var i, t := s.sweep, HostStep(cfg, s, ch);
      DeepAt(s, t, i, s.slots[i].call) && ResInv(t.slots, t.res) && HandlersInv(t.slots, t.calls, t.handlers)
  {
    var i, t := s.sweep, HostStep(cfg, s, ch);
    FailFinds(cfg, s);
    OthersRequests(s.slots, s.req, t.req, InHand(s.worker), i, s.slots[i].reqBuf);
    ResSame(s.slots, t.slots, s.res);
    HandlersFrame(s, t, i);
  }

  lemma FailDeep(cfg: Config, s: State, ch: Choice)
    requires Inv(cfg, s) && s.host.Failing? && HostReady(cfg, s)
    ensures Deep(cfg, HostStep(cfg, s, ch))
  {
    var i, t := s.sweep, HostStep(cfg, s, ch);
    if FailsSlot(cfg, s) {
      FailSlot(cfg, s, ch);
      FailAt(cfg, s, ch);
      HostStepDeep(cfg, s, t, i, s.slots[i].call);
    } else {
      StillDeep(cfg, s, t);
    }
  }

  lemma FailSlot(cfg: Config, s: State, ch: Choice)
    requires Inv(cfg, s) && FailsSlot(cfg, s)
    ensures var i, t := s.sweep, HostStep(cfg, s, ch);
      SlotDeep(cfg, t, i) && HostDeep(t.slots, t.host, t.gone) && CallOk(cfg, t.calls[s.slots[i].call], t.gone)
  {
    FailFinds(cfg, s);
    assert SlotDeep(cfg, s, s.sweep);
  }

  // ---- Abandoning and answering ---------------------------------------------------------------

  lemma AbandonDeep(cfg: Config, s: State, i: nat)
    requires Inv(cfg, s) && Enabled(cfg, s, Abandon(i))
    ensures Deep(cfg, AbandonStep(s, i))
  {
    var t := AbandonStep(s, i);
    OthersRequests(s.slots, s.req, t.req, InHand(s.worker), i, s.slots[i].reqBuf);
    GiveRes(s.slots, t.slots, s.res, i);
    HandlersFrame(s, t, i);
    HostStepDeep(cfg, s, t, i, |s.calls|);
  }

  lemma PublishSlot(cfg: Config, s: State, ch: Choice)
    requires Inv(cfg, s) && s.host.At? && s.host.job.PublishIt? && HostReady(cfg, s)
    ensures SlotDeep(cfg, HostStep(cfg, s, ch), s.host.slot)
    ensures var sl, sl' := s.slots[s.host.slot], HostStep(cfg, s, ch).slots[s.host.slot];
      StageKept(sl, sl') && (sl.stage == Working ==> sl'.stage == Working)
  {
    assert SlotDeep(cfg, s, s.host.slot);
    if s.slots[s.host.slot].status == Running {
      assert LiveOk(cfg, s.host.slot, ViewAt(HostStep(cfg, s, ch), s.host.slot), s.calls[s.slots[s.host.slot].call]);
    }
  }

  lemma PublishWins(cfg: Config, s: State, ch: Choice)
    requires Inv(cfg, s) && s.host.At? && s.host.job.PublishIt? && HostReady(cfg, s)
    requires s.slots[s.host.slot].status == Running
    ensures Deep(cfg, HostStep(cfg, s, ch))
  {
    var i, t := s.host.slot, HostStep(cfg, s, ch);
    PublishSlot(cfg, s, ch);
    ResSame(s.slots, t.slots, s.res);
    HandlersFrame(s, t, i);
    HostStepDeep(cfg, s, t, i, |s.calls|);
  }

  lemma PublishLoses(cfg: Config, s: State, ch: Choice)
    requires Inv(cfg, s) && s.host.At? && s.host.job.PublishIt? && HostReady(cfg, s)
    requires s.slots[s.host.slot].status != Running
    ensures Deep(cfg, HostStep(cfg, s, ch))
  {
    var i, t := s.host.slot, HostStep(cfg, s, ch);
    PublishSlot(cfg, s, ch);
    GiveRes(s.slots, t.slots, s.res, i);
    HandlersFrame(s, t, i);
    HostStepDeep(cfg, s, t, i, |s.calls|);
  }

  /** What the slot shows after `write` has filled it is the front of the body: all of it, or what the
      buffer or the inline area has room for. */
  lemma FillShows(cfg: Config, s: State, i: nat, status: ResStatus, body: Bytes, want: int)
    requires cfg.Valid() && i < |s.slots| && s.slots[i].call < |s.calls|
    ensures var t := FillStep(cfg, s, i, status, body, want);
      var sl := t.slots[i];
      sl.resLen <= |body| && Shown(sl, t.res) == body[..sl.resLen] &&
      (if |body| <= cfg.inlineBytes || (HasFree(s.res) && |body| <= cfg.bufBytes) then
         sl.resLen == |body| && sl.resStatus == status
       else 0 < sl.resLen < |body| && sl.resStatus == MORE && sl.tail == body[sl.resLen..] && sl.finalStatus == status)
  {
    var t := FillStep(cfg, s, i, status, body, want);
    var piece := body[..t.slots[i].resLen];
    OverlayPrefix(s.slots[i].inline, piece);
    if 0 <= t.slots[i].resBuf {
      OverlayPrefix(s.res[t.slots[i].resBuf].data, piece);
    }
  }

  lemma FillSlot(cfg: Config, s: State, ch: Choice)
    requires cfg.Valid() && Inv(cfg, s) && s.host.At? && s.host.job.FillIn? && HostReady(cfg, s)
    ensures SlotDeep(cfg, HostStep(cfg, s, ch), s.host.slot)
  {
    var i := s.host.slot;
    assert SlotDeep(cfg, s, i);
    if s.slots[i].status == Running {
      if s.calls[s.slots[i].call].failed.Some? {
        FillFailure(cfg, s, ch);
      } else if s.slots[i].stage == Answering {
        FillAnswer(cfg, s, ch);
        assert LiveOk(cfg, i, ViewAt(HostStep(cfg, s, ch), i), HostStep(cfg, s, ch).calls[s.slots[i].call]);
      } else {
        FillAck(cfg, s, ch);
      }
    }
  }

  /** An acknowledgement carries no bytes and goes in as it is. */
  lemma FillAck(cfg: Config, s: State, ch: Choice)
    requires cfg.Valid() && Inv(cfg, s) && s.host.At? && s.host.job.FillIn? && HostReady(cfg, s)
    requires s.slots[s.host.slot].status == Running && s.slots[s.host.slot].stage != Answering
    requires s.calls[s.slots[s.host.slot].call].failed == None
    ensures SlotDeep(cfg, HostStep(cfg, s, ch), s.host.slot)
  {
    var i, t := s.host.slot, HostStep(cfg, s, ch);
    assert SlotDeep(cfg, s, i);
    assert LiveOk(cfg, i, ViewAt(t, i), t.calls[s.slots[i].call]);
  }

  /** A failure the responder gives is shown whole, or marked as a front. */
  lemma FillFailure(cfg: Config, s: State, ch: Choice)
    requires cfg.Valid() && Inv(cfg, s) && s.host.At? && s.host.job.FillIn? && HostReady(cfg, s)
    requires s.slots[s.host.slot].status == Running && s.calls[s.slots[s.host.slot].call].failed.Some?
    ensures SlotDeep(cfg, HostStep(cfg, s, ch), s.host.slot)
  {
    var i, body := s.host.slot, s.host.job.body;
    assert SlotDeep(cfg, s, i);
    assert body[..|body|] == body;
    FillShows(cfg, s, i, s.host.job.status, body, ch.buf);
    assert FailedOk(ViewAt(HostStep(cfg, s, ch), i), body);
  }

  /** The piece of an answer that is written, and what is kept for later, are what was left of it. */
  lemma FillAnswer(cfg: Config, s: State, ch: Choice)
    requires cfg.Valid() && Inv(cfg, s) && s.host.At? && s.host.job.FillIn? && HostReady(cfg, s)
    requires s.slots[s.host.slot].status == Running && s.slots[s.host.slot].stage == Answering
    requires s.calls[s.slots[s.host.slot].call].failed == None
    ensures var i, t := s.host.slot, HostStep(cfg, s, ch);
      Shows(cfg, t.slots[i], Shown(t.slots[i], t.res), t.calls[s.slots[i].call])
  {
    var i, body, t := s.host.slot, s.host.job.body, HostStep(cfg, s, ch);
    var k := s.slots[i].call;
    assert SlotDeep(cfg, s, i);
    assert CallOk(cfg, s.calls[k], s.gone);
    FillShows(cfg, s, i, s.host.job.status, body, ch.buf);
    PieceShows(cfg, t.slots[i], s.calls[k], body, HasFree(s.res));
  }

  lemma PieceShows(cfg: Config, sl: Slot, c: Call, body: Bytes, free: bool)
    requires c.answer.Some? && c.taken + body == c.answer.value.bytes && sl.resLen <= |body|
    requires if c.taken == [] then c.room == None else c.room.Some?
    requires c.answer.value.status == OK || c.answer.value.status == ERR
    requires if |body| <= cfg.inlineBytes || (free && |body| <= cfg.bufBytes) then
        sl.resLen == |body| && sl.resStatus == c.answer.value.status
      else
        0 < sl.resLen < |body| && sl.resStatus == MORE && sl.tail == body[sl.resLen..] &&
        sl.finalStatus == c.answer.value.status
    ensures Shows(cfg, sl, body[..sl.resLen], if c.room.None? then c.(room := Some(free)) else c)
  {
    var n := sl.resLen;
    assert c.taken + body[..n] + body[n..] == c.taken + body;
    assert body[..|body|] == body;
    assert [] + body == body;
  }

  /** The record of the call whose answer is being written. */
  lemma FillCall(cfg: Config, s: State, ch: Choice)
    requires Inv(cfg, s) && s.host.At? && s.host.job.FillIn? && HostReady(cfg, s)
    ensures var i, t := s.host.slot, HostStep(cfg, s, ch);
      var k, k' := s.calls[s.slots[i].call], t.calls[s.slots[i].call];
      CallOk(cfg, k', s.gone) && KeptCall(k, k') && k'.answer == k.answer && k.slot == i
  {
    var i := s.host.slot;
    assert SlotDeep(cfg, s, i) && SlotBase(s, i);
    assert CallOk(cfg, s.calls[s.slots[i].call], s.gone);
  }

  lemma FillRes(cfg: Config, s: State, ch: Choice)
    requires Inv(cfg, s) && s.host.At? && s.host.job.FillIn? && HostReady(cfg, s)
    ensures var i, t := s.host.slot, HostStep(cfg, s, ch);
      ResInv(t.slots, t.res) && DeepAt(s, t, i, s.slots[i].call)
  {
    var i, t := s.host.slot, HostStep(cfg, s, ch);
    FillCall(cfg, s, ch);
    if t.slots[i].resBuf >= 0 {
      GrabRes(s.slots, t.slots, s.res, i, t.slots[i].resBuf, s.host.job.body[..t.slots[i].resLen]);
    } else {
      ResSame(s.slots, t.slots, s.res);
    }
  }

  lemma FillDeepKeeps(cfg: Config, s: State, ch: Choice)
    requires cfg.Valid() && Inv(cfg, s) && s.host.At? && s.host.job.FillIn? && HostReady(cfg, s)
    ensures Deep(cfg, HostStep(cfg, s, ch))
  {
    var i, t := s.host.slot, HostStep(cfg, s, ch);
    FillSlot(cfg, s, ch);
    FillCall(cfg, s, ch);
    FillRes(cfg, s, ch);
    HandlersFrame(s, t, i);
    HostStepDeep(cfg, s, t, i, s.slots[i].call);
  }

  // ---- Dispatching ----------------------------------------------------------------------------

  /** The responder is about to start a handler at a generation that is not its call's: the request was
      taken between the two stores of a cancel. */
  predicate Misdispatch(s: State, l: Label) {
    l.HostGo? && l.choice.known && s.host.At? && s.host.job.Taken? && s.host.job.bumped && s.host.job.op.User? &&
    s.host.slot < |s.slots| && s.slots[s.host.slot].status == Pending && s.slots[s.host.slot].call < |s.calls| &&
    s.host.job.gen != s.calls[s.slots[s.host.slot].call].gen
  }

  /** A push piece, taken. */
  lemma DispatchPushSlot(cfg: Config, s: State, ch: Choice)
    requires Inv(cfg, s) && s.host.At? && s.host.job.Taken? && s.host.job.bumped && HostReady(cfg, s)
    requires s.slots[s.host.slot].status == Pending && s.host.job.op.Push?
    ensures var i, t := s.host.slot, HostStep(cfg, s, ch);
      SlotDeep(cfg, t, i) && HostDeep(t.slots, t.host, t.gone) && StageKept(s.slots[i], t.slots[i]) &&
      s.slots[i].stage != Working
  {
    var i := s.host.slot;
    assert SlotDeep(cfg, s, i) && SlotBase(s, i);
    NotFailed(cfg, s, s.slots[i].call);
    var c := s.calls[s.slots[i].call];
    assert c.payload[..c.sent] + c.payload[c.sent..c.sent + cfg.bufBytes] == c.payload[..c.sent + cfg.bufBytes];
    assert LiveOk(cfg, i, ViewAt(HostStep(cfg, s, ch), i), s.calls[s.slots[i].call]);
  }

  /** A request for the next piece, taken. */
  lemma DispatchContinueSlot(cfg: Config, s: State, ch: Choice)
    requires Inv(cfg, s) && s.host.At? && s.host.job.Taken? && s.host.job.bumped && HostReady(cfg, s)
    requires s.slots[s.host.slot].status == Pending && s.host.job.op.Continue?
    ensures var i, t := s.host.slot, HostStep(cfg, s, ch);
      SlotDeep(cfg, t, i) && HostDeep(t.slots, t.host, t.gone) && StageKept(s.slots[i], t.slots[i]) &&
      s.slots[i].stage != Working
  {
    var i := s.host.slot;
    assert SlotDeep(cfg, s, i) && SlotBase(s, i);
    NotFailed(cfg, s, s.slots[i].call);
    assert LiveOk(cfg, i, ViewAt(HostStep(cfg, s, ch), i), s.calls[s.slots[i].call]);
  }

  lemma DispatchPieceDeep(cfg: Config, s: State, ch: Choice)
    requires Inv(cfg, s) && s.host.At? && s.host.job.Taken? && s.host.job.bumped && HostReady(cfg, s)
    requires s.slots[s.host.slot].status == Pending && !s.host.job.op.User?
    ensures Deep(cfg, HostStep(cfg, s, ch))
  {
    var i, t := s.host.slot, HostStep(cfg, s, ch);
    if s.host.job.op.Push? {
      DispatchPushSlot(cfg, s, ch);
    } else {
      DispatchContinueSlot(cfg, s, ch);
    }
    ResSame(s.slots, t.slots, s.res);
    HandlersFrame(s, t, i);
    HostStepDeep(cfg, s, t, i, |s.calls|);
  }

  /** The last piece, taken: the handler gets exactly the payload that was submitted. */
  lemma DispatchWhole(cfg: Config, s: State)
    requires Inv(cfg, s) && s.host.At? && s.host.job.Taken? && HostReady(cfg, s)
    requires s.slots[s.host.slot].status == Pending && s.host.job.op.User?
    ensures var sl := s.slots[s.host.slot];
      var c := s.calls[sl.call];
      sl.stage == Asked && sl.partial + s.host.job.payload == c.payload && c.answer == None && c.outcome == None &&
      c.taken == [] && c.slot == s.host.slot && sl.op == User(c.op) && s.host.job.op == sl.op && sl.resBuf < 0 &&
      CallOk(cfg, c, s.gone) && c.room == None && c.lost == [] && c.failed == None && !s.gone
  {
    var i := s.host.slot;
    assert SlotDeep(cfg, s, i) && SlotBase(s, i);
    NotFailed(cfg, s, s.slots[i].call);
    var c := s.calls[s.slots[i].call];
    assert CallOk(cfg, c, s.gone);
    assert c.payload[..c.sent] + c.payload[c.sent..] == c.payload;
  }

  lemma DispatchCallSlot(cfg: Config, s: State, ch: Choice)
    requires Inv(cfg, s) && s.host.At? && s.host.job.Taken? && s.host.job.bumped && HostReady(cfg, s)
    requires s.slots[s.host.slot].status == Pending && s.host.job.op.User? && !Misdispatch(s, HostGo(ch))
    ensures var i, t := s.host.slot, HostStep(cfg, s, ch);
      SlotDeep(cfg, t, i) && HostDeep(t.slots, t.host, t.gone) && StageKept(s.slots[i], t.slots[i]) &&
      CallOk(cfg, t.calls[s.slots[i].call], t.gone) && KeptCall(s.calls[s.slots[i].call], t.calls[s.slots[i].call])
  {
    DispatchWhole(cfg, s);
    assert SlotDeep(cfg, s, s.host.slot);
  }

  lemma DispatchCallHandlers(cfg: Config, s: State, ch: Choice)
    requires Inv(cfg, s) && s.host.At? && s.host.job.Taken? && s.host.job.bumped && HostReady(cfg, s)
    requires s.slots[s.host.slot].status == Pending && s.host.job.op.User? && !Misdispatch(s, HostGo(ch))
    ensures var t := HostStep(cfg, s, ch); HandlersInv(t.slots, t.calls, t.handlers)
  {
    var i, t := s.host.slot, HostStep(cfg, s, ch);
    var c := s.slots[i].call;
    DispatchWhole(cfg, s);
    forall k | k in t.handlers
      ensures HandlerOk(t.slots, t.calls, t.handlers[k], k)
    {
      if k != c {
        assert HandlerOk(s.slots, s.calls, s.handlers[k], k);
      } else if !ch.known {
        NotYetHandled(cfg, s, c);
      }
    }
  }

  /** A call whose last piece is still pending has no handler. */
  lemma NotYetHandled(cfg: Config, s: State, c: nat)
    requires Inv(cfg, s) && c < |s.calls| && s.calls[c].slot < |s.slots| && s.calls[c].failed == None
    requires var sl := s.slots[s.calls[c].slot]; sl.call == c && sl.stage == Asked && Live(sl)
    ensures c !in s.handlers
  {
    assert forall k :: k in s.handlers ==> HandlerOk(s.slots, s.calls, s.handlers[k], k);
  }

  lemma DispatchAt(s: State, i: nat, t: Job, ch: Choice)
    requires i < |s.slots| && t.Taken? && t.op.User? && s.slots[i].call < |s.calls| &&
      s.calls[s.slots[i].call].slot == i
    requires s.host == At(i, t) && StageKept(s.slots[i], Dispatch(s, i, t, ch).slots[i])
    ensures DeepAt(s, Dispatch(s, i, t, ch), i, s.slots[i].call)
  {
    var c, u := s.slots[i].call, Dispatch(s, i, t, ch);
    forall k | k != c
      ensures HandlerOf(u.handlers, k) == HandlerOf(s.handlers, k)
    {
    }
  }

  lemma DispatchCallDeep(cfg: Config, s: State, ch: Choice)
    requires Inv(cfg, s) && s.host.At? && s.host.job.Taken? && s.host.job.bumped && HostReady(cfg, s)
    requires s.slots[s.host.slot].status == Pending && s.host.job.op.User? && !Misdispatch(s, HostGo(ch))
    ensures Deep(cfg, HostStep(cfg, s, ch))
  {
    var i, t := s.host.slot, HostStep(cfg, s, ch);
    DispatchWhole(cfg, s);
    DispatchCallSlot(cfg, s, ch);
    DispatchCallHandlers(cfg, s, ch);
    DispatchAt(s, i, s.host.job, ch);
    ResSame(s.slots, t.slots, s.res);
    HostStepDeep(cfg, s, t, i, s.slots[i].call);
  }

  // ---- Finishing ------------------------------------------------------------------------------

  /** A handler finishes for a call the responder has already failed, and whose slot still has it. */
  predicate Late(s: State, l: Label) {
    l.Finish? && l.call in s.handlers && l.call < |s.calls| && s.calls[l.call].failed.Some? &&
    s.handlers[l.call].slot < |s.slots| && s.slots[s.handlers[l.call].slot].gen == s.handlers[l.call].gen
  }

  /** The slot of a handler whose generation still holds is working on that handler's call. */
  lemma FinishFinds(cfg: Config, s: State, c: nat)
    requires Inv(cfg, s) && c in s.handlers && c < |s.calls| && s.handlers[c].slot < |s.slots|
    requires s.slots[s.handlers[c].slot].gen == s.handlers[c].gen && s.calls[c].failed == None
    ensures var i := s.handlers[c].slot;
      var sl, k := s.slots[i], s.calls[c];
      sl.call == c && sl.stage == Working && sl.status == Running && !Gap(s, i) && SlotDeep(cfg, s, i) &&
      k.slot == i && CallOk(cfg, k, s.gone) && k.outcome == None && k.answer == None
  {
    assert HandlerOk(s.slots, s.calls, s.handlers[c], c);
    assert GenOk(s.slots, s.calls[c], c);
    assert SlotDeep(cfg, s, s.handlers[c].slot) && SlotBase(s, s.handlers[c].slot);
  }

  lemma FinishSlot(cfg: Config, s: State, c: nat, a: Answer)
    requires Inv(cfg, s) && Enabled(cfg, s, Finish(c, a)) && !Late(s, Finish(c, a))
    requires s.slots[s.handlers[c].slot].gen == s.handlers[c].gen
    ensures var i, t := s.handlers[c].slot, FinishStep(s, c, a);
      SlotDeep(cfg, t, i) && HostDeep(t.slots, t.host, t.gone) && StageKept(s.slots[i], t.slots[i]) &&
      CallOk(cfg, t.calls[c], t.gone) && KeptCall(s.calls[c], t.calls[c])
  {
    FinishFinds(cfg, s, c);
    var i, t := s.handlers[c].slot, FinishStep(s, c, a);
    assert LiveOk(cfg, i, ViewAt(t, i), t.calls[c]);
  }

  lemma FinishHandlers(cfg: Config, s: State, c: nat, a: Answer)
    requires Inv(cfg, s) && Enabled(cfg, s, Finish(c, a))
    ensures var t := FinishStep(s, c, a); HandlersInv(t.slots, t.calls, t.handlers)
  {
    var t := FinishStep(s, c, a);
    forall k | k in t.handlers
      ensures HandlerOk(t.slots, t.calls, t.handlers[k], k)
    {
      assert HandlerOk(s.slots, s.calls, s.handlers[k], k) && HandlerOk(s.slots, s.calls, s.handlers[c], c);
      assert GenOk(s.slots, s.calls[k], k) && GenOk(s.slots, s.calls[c], c);
    }
  }

  /** Finishing touches the handler's own slot and call and nothing else. */
  lemma FinishAt(s: State, c: nat, a: Answer)
    requires c in s.handlers && c < |s.calls| && s.handlers[c].slot < |s.slots| && s.calls[c].slot == s.handlers[c].slot
    requires !s.host.At? && StageKept(s.slots[s.handlers[c].slot], FinishStep(s, c, a).slots[s.handlers[c].slot])
    ensures DeepAt(s, FinishStep(s, c, a), s.handlers[c].slot, c)
  {
  }

  /** A handler whose generation still stands answers its own call. */
  lemma FinishAnswers(cfg: Config, s: State, c: nat, a: Answer)
    requires Inv(cfg, s) && Enabled(cfg, s, Finish(c, a)) && !Late(s, Finish(c, a))
    requires s.slots[s.handlers[c].slot].gen == s.handlers[c].gen
    ensures Deep(cfg, FinishStep(s, c, a))
  {
    var i, t := s.handlers[c].slot, FinishStep(s, c, a);
    FinishHandlers(cfg, s, c, a);
    FinishFinds(cfg, s, c);
    FinishSlot(cfg, s, c, a);
    FinishAt(s, c, a);
    ResSame(s.slots, t.slots, s.res);
    HostStepDeep(cfg, s, t, i, c);
  }

  /** A handler whose generation has moved is dropped. */
  lemma FinishDropped(cfg: Config, s: State, c: nat, a: Answer)
    requires Inv(cfg, s) && Enabled(cfg, s, Finish(c, a)) && s.slots[s.handlers[c].slot].gen != s.handlers[c].gen
    ensures Deep(cfg, FinishStep(s, c, a))
  {
    var i, t := s.handlers[c].slot, FinishStep(s, c, a);
    FinishHandlers(cfg, s, c, a);
    assert HandlerOk(s.slots, s.calls, s.handlers[c], c) && CallOk(cfg, s.calls[c], s.gone);
    DroppedSlot(cfg, s, c, a);
    FinishAt(s, c, a);
    HostStepDeep(cfg, s, t, i, c);
  }

  lemma DroppedSlot(cfg: Config, s: State, c: nat, a: Answer)
    requires Inv(cfg, s) && Enabled(cfg, s, Finish(c, a)) && s.slots[s.handlers[c].slot].gen != s.handlers[c].gen
    ensures SlotDeep(cfg, FinishStep(s, c, a), s.handlers[c].slot)
  {
    var i := s.handlers[c].slot;
    assert HandlerOk(s.slots, s.calls, s.handlers[c], c);
    assert GenOk(s.slots, s.calls[c], c);
    assert SlotBase(s, i) && SlotDeep(cfg, s, i);
    UnservedSlot(cfg, s, FinishStep(s, c, a), i);
  }

  lemma UnservedSlot(cfg: Config, s: State, t: State, i: nat)
    requires i < |s.slots| && SlotDeep(cfg, s, i) && t == s.(handlers := t.handlers)
    requires Live(s.slots[i]) ==>
      Gap(s, i) || HandlerOf(t.handlers, s.slots[i].call) == HandlerOf(s.handlers, s.slots[i].call)
    ensures SlotDeep(cfg, t, i)
  {
    var v, h := ViewAt(s, i), ViewAt(t, i).handler;
    assert ViewAt(t, i) == v.(handler := h);
    if v.gap {
      OkUnserved(cfg, i, v, h);
    } else {
      assert v.(handler := h) == v;
    }
  }

  /** Every step of the responder, but a handler started at the wrong generation. */
  lemma HostDeepKeeps(cfg: Config, s: State, ch: Choice)
    requires cfg.Valid() && Inv(cfg, s) && HostReady(cfg, s) && !Misdispatch(s, HostGo(ch))
    ensures Deep(cfg, HostStep(cfg, s, ch))
  {
    if s.host.Failing? {
      FailDeep(cfg, s, ch);
    } else if !s.host.At? {
      StillDeep(cfg, s, HostStep(cfg, s, ch));
    } else {
      match s.host.job
      case Take => MoveDeep(cfg, s, ch);
      case Loaded(_, _) => TakeDeep(cfg, s, ch);
      case Taken(_, op, _, bumped) =>
        if !bumped || s.slots[s.host.slot].status != Pending {
          MoveDeep(cfg, s, ch);
        } else if op.User? {
          DispatchCallDeep(cfg, s, ch);
        } else {
          DispatchPieceDeep(cfg, s, ch);
        }
      case Reply(_, _) => MoveDeep(cfg, s, ch);
      case Write(_, _, _) => MoveDeep(cfg, s, ch);
      case FillIn(_, _) => FillDeepKeeps(cfg, s, ch);
      case PublishIt =>
        if s.slots[s.host.slot].status == Running {
          PublishWins(cfg, s, ch);
        } else {
          PublishLoses(cfg, s, ch);
        }
      case FreeIt => FreeDeep(cfg, s, ch);
    }
  }
}
