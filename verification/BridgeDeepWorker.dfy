/** Every worker step keeps every answer where it belongs. */
module BridgeDeepWorker {
  import opened Options
  import opened BridgeModel
  import opened BridgeBase
  import opened BridgeDeep
  import B = BridgeBaseWorker

  /** A step of the worker at slot j, with call c of that slot. */
  ghost predicate DeepAt(s: State, t: State, j: nat, c: nat) {
    B.WorkerAt(s, t, j, c) && |t.calls| <= |s.calls| + 1 &&
    (forall i :: 0 <= i < |s.slots| && i != j ==>
      ReqData(s.slots[i], t.req) == ReqData(s.slots[i], s.req) && Shown(s.slots[i], t.res) == Shown(s.slots[i], s.res))
  }

  lemma OthersSame(s: State, t: State, j: nat, c: nat)
    requires SlotsBase(s) && DeepAt(s, t, j, c)
    ensures forall i :: 0 <= i < |s.slots| && i != j ==> ViewAt(t, i) == ViewAt(s, i)
  {
    forall i | 0 <= i < |s.slots| && i != j
      ensures ViewAt(t, i) == ViewAt(s, i)
    {
      assert SlotBase(s, i);
    }
  }

  /** What is being collected of a call other than c is being collected still. */
  ghost predicate StillCollects(s: State, t: State, c: nat) {
    CollectsCall(s.worker) == CollectsCall(t.worker) || CollectsCall(s.worker) == None ||
    (CollectsCall(s.worker) == Some(c) && c < |t.calls| && (t.calls[c].threw || t.calls[c].outcome.Some?))
  }

  lemma WorkerStepDeep(cfg: Config, s: State, t: State, j: nat, c: nat)
    requires Inv(cfg, s) && DeepAt(s, t, j, c) && SlotDeep(cfg, t, j) && HostDeep(t.slots, t.host, t.gone)
    requires c < |s.calls| ==> CallOk(cfg, t.calls[c], t.gone)
    requires |t.calls| > |s.calls| ==> CallOk(cfg, t.calls[|s.calls|], t.gone) && t.calls[|s.calls|].taken == []
    requires c < |s.calls| && t.calls[c].taken != [] ==>
      t.calls[c].threw || t.calls[c].outcome.Some? || CollectsCall(t.worker) == Some(c) ||
      t.calls[c].taken == s.calls[c].taken
    requires c < |s.calls| ==>
      (s.calls[c].threw ==> t.calls[c].threw) && (s.calls[c].outcome.Some? ==> t.calls[c].outcome.Some?)
    requires StillCollects(s, t, c) && HandlersInv(t.slots, t.calls, t.handlers) && ResInv(t.slots, t.res) &&
      WorkerDeep(t)
    ensures Deep(cfg, t)
  {
    OthersSame(s, t, j, c);
    SlotsFrame(cfg, s, t, j);
    forall k | 0 <= k < |t.calls|
      ensures CallOk(cfg, t.calls[k], t.gone)
      ensures t.calls[k].taken != [] ==>
        t.calls[k].threw || t.calls[k].outcome.Some? || CollectsCall(t.worker) == Some(k)
    {
      if k < |s.calls| {
        assert CallOk(cfg, s.calls[k], s.gone);
        assert s.calls[k].taken != [] ==>
          s.calls[k].threw || s.calls[k].outcome.Some? || CollectsCall(s.worker) == Some(k);
      }
    }
  }

  // ---- Steps that only move the worker --------------------------------------------------------

  lemma MovesDeep(cfg: Config, s: State, t: State)
    requires Inv(cfg, s) && t == s.(worker := t.worker) && !s.worker.CancelMark? && !t.worker.CancelMark?
    requires CollectsCall(t.worker) == CollectsCall(s.worker) || CollectsCall(s.worker) == None
    requires WorkerDeep(t)
    ensures Deep(cfg, t)
  {
    forall i | 0 <= i < |t.slots|
      ensures SlotDeep(cfg, t, i)
    {
      assert SlotDeep(cfg, s, i);
    }
  }

  ghost predicate OnlyMoves(w: Worker) {
    w.ClaimLoad? || w.ClaimPeek? || w.BufLoad? || w.AwaitLoad? || w.AwaitCheck? || w.AnyLoad? || w.AnyScan?
  }

  lemma MoveKeepsStage(cfg: Config, s: State)
    requires WorkerReady(cfg, s) && OnlyMoves(s.worker) && WorkerDeep(s)
    ensures var t := WorkerStep(cfg, s);
      t == s.(worker := t.worker) && !t.worker.CancelMark? && WorkerDeep(t) &&
      (CollectsCall(t.worker) == CollectsCall(s.worker) || CollectsCall(s.worker) == None)
  {
  }

  lemma MoveDeep(cfg: Config, s: State)
    requires Inv(cfg, s) && WorkerReady(cfg, s) && OnlyMoves(s.worker)
    ensures Deep(cfg, WorkerStep(cfg, s))
  {
    MoveKeepsStage(cfg, s);
    MovesDeep(cfg, s, WorkerStep(cfg, s));
  }

  lemma MissDeep(cfg: Config, s: State)
    requires Inv(cfg, s) && WorkerReady(cfg, s)
    requires (s.worker.ClaimTry? && (s.worker.i < cfg.slots ==> s.slots[s.worker.i].status != Free)) ||
             (s.worker.BufTry? && (s.worker.i < cfg.bufs ==> s.req[s.worker.i].held))
    ensures Deep(cfg, WorkerStep(cfg, s))
  {
    MovesDeep(cfg, s, WorkerStep(cfg, s));
  }

  lemma ParkDeep(cfg: Config, s: State)
    requires Inv(cfg, s) && s.worker.Park? && WorkerReady(cfg, s) && (s.worker.phase == Wait || !s.gone)
    ensures Deep(cfg, WorkerStep(cfg, s))
  {
    MovesDeep(cfg, s, WorkerStep(cfg, s));
  }

  ghost function WithRecord(s: State, c: nat, lost: Bytes, threw: bool, w: Worker): State
    requires c < |s.calls|
  {
    s.(worker := w, calls := s.calls[c := s.calls[c].(lost := lost, threw := threw)])
  }

  lemma RecordSlot(cfg: Config, s: State, c: nat, lost: Bytes, threw: bool, w: Worker, i: nat)
    requires c < |s.calls| && i < |s.slots| && SlotDeep(cfg, s, i) && !s.worker.CancelMark? && !w.CancelMark?
    ensures SlotDeep(cfg, WithRecord(s, c, lost, threw, w), i)
  {
    var v, u := ViewAt(s, i), ViewAt(WithRecord(s, c, lost, threw, w), i);
    if v.call.Some? && v.sl.call == c {
      OkRecord(cfg, i, v, lost, threw);
      assert u == v.(call := Some(v.call.value.(lost := lost, threw := threw)));
    } else {
      assert u == v;
    }
  }

  /** A change of the record of one call that no slot's condition reads. */
  lemma RecordDeep(cfg: Config, s: State, c: nat, lost: Bytes, threw: bool, w: Worker)
    requires Inv(cfg, s) && c < |s.calls| && !s.worker.CancelMark? && !w.CancelMark?
    requires CallOk(cfg, s.calls[c].(lost := lost, threw := threw), s.gone)
    requires var t := WithRecord(s, c, lost, threw, w); TakenInv(t.calls, CollectsCall(w)) && WorkerDeep(t)
    ensures Deep(cfg, WithRecord(s, c, lost, threw, w))
  {
    var t := WithRecord(s, c, lost, threw, w);
    forall i | 0 <= i < |t.slots|
      ensures SlotDeep(cfg, t, i)
    {
      assert SlotDeep(cfg, s, i);
      RecordSlot(cfg, s, c, lost, threw, w, i);
    }
    OneCallOk(cfg, s.calls, t.calls, s.gone, c);
    forall k | k in t.handlers
      ensures HandlerOk(t.slots, t.calls, t.handlers[k], k)
    {
      assert HandlerOk(s.slots, s.calls, s.handlers[k], k);
    }
  }

  /** The host has gone and the call under way gives up. */
  lemma ThrowDeep(cfg: Config, s: State)
    requires Inv(cfg, s) && s.worker.Park? && s.worker.phase != Wait && s.gone
    ensures Deep(cfg, WorkerStep(cfg, s))
  {
    var t, why := WorkerStep(cfg, s), s.worker.why;
    if why.ForReady? && why.cont.Collecting? {
      assert CallOk(cfg, s.calls[why.cont.call], s.gone);
      RecordDeep(cfg, s, why.cont.call, s.calls[why.cont.call].lost, true, Idle);
    } else {
      MovesDeep(cfg, s, t);
    }
  }

  /** A call that was partly read and is collected again threw the first time. */
  lemma CollectAgain(cfg: Config, s: State, c: nat)
    requires Inv(cfg, s) && Enabled(cfg, s, Collect(c)) && s.slots[s.calls[c].slot].gen == s.calls[c].gen
    ensures s.calls[c].taken != [] ==> s.calls[c].threw
    ensures CallOk(cfg, s.calls[c].(lost := s.calls[c].taken), s.gone)
  {
    TicketLive(cfg, s, c);
    assert SlotDeep(cfg, s, s.calls[c].slot);
    assert CallOk(cfg, s.calls[c], s.gone);
  }

  /** A collect begins: what earlier collects read of this call is lost to it. */
  lemma CollectDeep(cfg: Config, s: State, c: nat)
    requires Inv(cfg, s) && Enabled(cfg, s, Collect(c))
    ensures Deep(cfg, Next(cfg, s, Collect(c)))
  {
    if s.slots[s.calls[c].slot].gen == s.calls[c].gen {
      CollectAgain(cfg, s, c);
      assert s.calls[c].taken + [] == s.calls[c].taken;
      RecordDeep(cfg, s, c, s.calls[c].taken, s.calls[c].threw, Next(cfg, s, Collect(c)).worker);
    }
  }

  lemma OtherDeep(cfg: Config, s: State, l: Label)
    requires Inv(cfg, s) && Enabled(cfg, s, l) && (l.Submit? || l.WaitAny? || l.TimeOut?)
    ensures Deep(cfg, Next(cfg, s, l))
  {
    MovesDeep(cfg, s, Next(cfg, s, l));
  }

  // ---- Claiming, buffering and publishing -----------------------------------------------------

  lemma ClaimHitDeep(cfg: Config, s: State)
    requires cfg.Valid() && Inv(cfg, s) && s.worker.ClaimTry? && s.worker.i < cfg.slots &&
      s.slots[s.worker.i].status == Free
    ensures Deep(cfg, WorkerStep(cfg, s))
  {
    ClaimHitSlot(cfg, s);
    ClaimHitAt(cfg, s);
    WorkerStepDeep(cfg, s, WorkerStep(cfg, s), s.worker.i, |s.calls|);
  }

  lemma ClaimHitSlot(cfg: Config, s: State)
    requires cfg.Valid() && Inv(cfg, s) && s.worker.ClaimTry? && s.worker.i < cfg.slots &&
      s.slots[s.worker.i].status == Free
    ensures var i, t := s.worker.i, WorkerStep(cfg, s);
      SlotDeep(cfg, t, i) && HostDeep(t.slots, t.host, t.gone) && WorkerDeep(t) &&
      CallOk(cfg, t.calls[|s.calls|], t.gone)
  {
    assert SlotDeep(cfg, s, s.worker.i);
  }

  lemma ClaimHitAt(cfg: Config, s: State)
    requires cfg.Valid() && Inv(cfg, s) && s.worker.ClaimTry? && s.worker.i < cfg.slots &&
      s.slots[s.worker.i].status == Free
    ensures var i, t := s.worker.i, WorkerStep(cfg, s);
      DeepAt(s, t, i, |s.calls|) && ResInv(t.slots, t.res) && HandlersInv(t.slots, t.calls, t.handlers)
  {
    var i, t := s.worker.i, WorkerStep(cfg, s);
    assert SlotBase(s, i);
    HandlersFrame(s, t, i);
    ResSame(s.slots, t.slots, s.res);
  }

  lemma BufHitAt(cfg: Config, s: State)
    requires Inv(cfg, s) && s.worker.BufTry? && s.worker.i < cfg.bufs && !s.req[s.worker.i].held
    ensures var t, j := WorkerStep(cfg, s), s.worker.fill.slot;
      DeepAt(s, t, j, |s.calls|) && SlotDeep(cfg, t, j) && t.slots == s.slots && t.calls == s.calls
  {
    var j := s.worker.fill.slot;
    assert SlotDeep(cfg, s, j) && SlotBase(s, j);
  }

  lemma BufHitDeep(cfg: Config, s: State)
    requires Inv(cfg, s) && s.worker.BufTry? && s.worker.i < cfg.bufs && !s.req[s.worker.i].held
    ensures Deep(cfg, WorkerStep(cfg, s))
  {
    BufHitAt(cfg, s);
    WorkerStepDeep(cfg, s, WorkerStep(cfg, s), s.worker.fill.slot, |s.calls|);
  }

  /** The slot the worker is filling is nobody else's. */
  lemma PublishPlace(cfg: Config, s: State)
    requires Inv(cfg, s) && s.worker.Publish? && WorkerReady(cfg, s)
    ensures var j, c := s.worker.fill.slot, s.worker.fill.call;
      var sl, k := s.slots[j], s.calls[c];
      sl.stage == Filling && sl.resBuf < 0 && JobAt(s.host, j) == NoJob && sl.call == c && k.slot == j &&
      k.outcome == None && !k.issued && CallOk(cfg, k, s.gone)
  {
    var j := s.worker.fill.slot;
    assert SlotDeep(cfg, s, j) && SlotBase(s, j);
    assert CallOk(cfg, s.calls[s.worker.fill.call], s.gone);
  }

  /** What the worker has filled so far: everything sent is with the responder, nothing else is. */
  lemma PublishFinds(cfg: Config, s: State)
    requires Inv(cfg, s) && s.worker.Publish? && WorkerReady(cfg, s) && s.calls[s.worker.fill.call].failed == None
    ensures var sl, k := s.slots[s.worker.fill.slot], s.calls[s.worker.fill.call];
      k.answer == None && k.taken == [] && (s.gone || sl.partial == k.payload[..k.sent])
  {
    var j := s.worker.fill.slot;
    assert SlotDeep(cfg, s, j) && SlotBase(s, j);
    assert CallOk(cfg, s.calls[s.worker.fill.call], s.gone);
  }

  lemma PublishSlot(cfg: Config, s: State)
    requires s.worker.Publish? && WorkerReady(cfg, s)
    requires var j, c := s.worker.fill.slot, s.worker.fill.call;
      var sl, k := s.slots[j], s.calls[c];
      sl.resBuf < 0 && JobAt(s.host, j) == NoJob && sl.call == c && k.outcome == None && !k.issued &&
      (k.failed == None ==> k.answer == None && k.taken == [] && (s.gone || sl.partial == k.payload[..k.sent]))
    ensures SlotDeep(cfg, WorkerStep(cfg, s), s.worker.fill.slot)
  {
    var c, b := s.calls[s.worker.fill.call], s.worker.buf;
    var piece := if |c.payload| - c.sent > cfg.bufBytes then c.payload[c.sent..c.sent + cfg.bufBytes]
      else c.payload[c.sent..];
    OverlayPrefix(s.req[b].data, piece);
    assert LiveOk(cfg, s.worker.fill.slot, ViewAt(WorkerStep(cfg, s), s.worker.fill.slot),
                  WorkerStep(cfg, s).calls[s.worker.fill.call]);
  }

  lemma PublishAt(cfg: Config, s: State)
    requires Inv(cfg, s) && s.worker.Publish? && WorkerReady(cfg, s)
    ensures var t, f := WorkerStep(cfg, s), s.worker.fill;
      DeepAt(s, t, f.slot, f.call) && ResInv(t.slots, t.res) && HandlersInv(t.slots, t.calls, t.handlers)
  {
    var t, f, b := WorkerStep(cfg, s), s.worker.fill, s.worker.buf;
    PublishPlace(cfg, s);
    OthersRequests(s.slots, s.req, t.req, b, f.slot, b);
    ResSame(s.slots, t.slots, s.res);
    HandlersFrame(s, t, f.slot);
  }

  lemma PublishDeep(cfg: Config, s: State)
    requires Inv(cfg, s) && s.worker.Publish? && WorkerReady(cfg, s)
    ensures Deep(cfg, WorkerStep(cfg, s))
  {
    PublishPlace(cfg, s);
    if s.calls[s.worker.fill.call].failed == None {
      PublishFinds(cfg, s);
    }
    PublishSlot(cfg, s);
    PublishAt(cfg, s);
    WorkerStepDeep(cfg, s, WorkerStep(cfg, s), s.worker.fill.slot, s.worker.fill.call);
  }

  // ---- Reading an answer ----------------------------------------------------------------------

  /** A slot the worker may read has an answer for the call that has it. */
  lemma ReadPlace(cfg: Config, s: State)
    requires Inv(cfg, s) && s.worker.Read? && WorkerReady(cfg, s)
    ensures var j, c := s.worker.slot, CallOf(s.worker.cont);
      var sl, k := s.slots[j], s.calls[c];
      sl.status == Ready && sl.call == c && k.slot == j && k.gen == sl.gen && k.outcome == None && sl.reqBuf < 0 &&
      !Gap(s, j) && JobAt(s.host, j) == NoJob && CallOk(cfg, k, s.gone)
  {
    assert SlotDeep(cfg, s, s.worker.slot) && SlotBase(s, s.worker.slot);
    assert CallOk(cfg, s.calls[CallOf(s.worker.cont)], s.gone);
  }

  lemma ReadFinds(cfg: Config, s: State)
    requires Inv(cfg, s) && s.worker.Read? && WorkerReady(cfg, s)
    ensures var j, c := s.worker.slot, CallOf(s.worker.cont);
      var sl, k := s.slots[j], s.calls[c];
      LiveOk(cfg, j, ViewAt(s, j), k) &&
      (k.failed.Some? ==> s.gone && FailShows(sl, Shown(sl, s.res), k.failed.value))
  {
    ReadPlace(cfg, s);
    assert SlotDeep(cfg, s, s.worker.slot);
  }

  /** What every way of reading leaves alone. */
  ghost predicate ReadKept(s: State, t: State, j: nat, c: nat)
    requires j < |s.slots| && c < |s.calls|
  {
    |t.slots| == |s.slots| && |t.calls| == |s.calls| && t.req == s.req && t.res == Give(s.res, s.slots[j].resBuf) &&
    t.host == s.host && t.handlers == s.handlers && t.gone == s.gone && t.sweep == s.sweep &&
    t.slots[j].resBuf == -1 && !t.worker.CancelMark? && t.slots == s.slots[j := t.slots[j]] &&
    t.calls == s.calls[c := t.calls[c]] && KeptRecord(s.calls[c], t.calls[c])
  }

  ghost predicate KeptRecord(k: Call, k': Call) {
    k'.slot == k.slot && k'.gen == k.gen && k'.answer == k.answer && k'.failed == k.failed && k'.threw == k.threw &&
    (k.outcome.Some? ==> k'.outcome.Some?)
  }

  lemma PushReadKept(cfg: Config, s: State, j: nat, f: Fill)
    requires j < |s.slots| && f.call < |s.calls|
    ensures ReadKept(s, ReadStep(cfg, s, j, SendNext(f)), j, f.call)
  {
  }

  lemma CollectReadKept(cfg: Config, s: State, j: nat, c: nat, got: Bytes)
    requires j < |s.slots| && c < |s.calls|
    ensures ReadKept(s, ReadStep(cfg, s, j, Collecting(c, got)), j, c)
  {
  }

  lemma ReadOnly(cfg: Config, s: State, j: nat, cont: Cont)
    requires j < |s.slots| && CallOf(cont) < |s.calls|
    ensures ReadKept(s, ReadStep(cfg, s, j, cont), j, CallOf(cont))
  {
    match cont
    case SendNext(f) => PushReadKept(cfg, s, j, f);
    case Collecting(c, got) => CollectReadKept(cfg, s, j, c, got);
  }

  lemma ReadAt(cfg: Config, s: State)
    requires Inv(cfg, s) && s.worker.Read? && WorkerReady(cfg, s)
    ensures var t, j, c := WorkerStep(cfg, s), s.worker.slot, CallOf(s.worker.cont);
      DeepAt(s, t, j, c) && ResInv(t.slots, t.res) && HostDeep(t.slots, t.host, t.gone)
  {
    var t, j := WorkerStep(cfg, s), s.worker.slot;
    ReadPlace(cfg, s);
    ReadOnly(cfg, s, j, s.worker.cont);
    GiveRes(s.slots, t.slots, s.res, j);
  }

  /** The acknowledgement of a pushed piece: the responder has exactly what was sent so far. */
  lemma ReadAckSlot(cfg: Config, s: State)
    requires Inv(cfg, s) && s.worker.Read? && s.worker.cont.SendNext? && WorkerReady(cfg, s)
    requires s.calls[s.worker.cont.fill.call].failed == None
    ensures s.slots[s.worker.slot].resStatus == ACK && SlotDeep(cfg, WorkerStep(cfg, s), s.worker.slot)
    ensures s.slots[s.worker.slot].stage == PushAcked
  {
    ReadPlace(cfg, s);
    ReadFinds(cfg, s);
  }

  /** A push the responder failed: the submit throws, or goes on to find the responder gone. */
  lemma ReadFailedPush(cfg: Config, s: State)
    requires Inv(cfg, s) && s.worker.Read? && s.worker.cont.SendNext? && WorkerReady(cfg, s)
    requires s.calls[s.worker.cont.fill.call].failed.Some?
    ensures SlotDeep(cfg, WorkerStep(cfg, s), s.worker.slot)
  {
    ReadPlace(cfg, s);
    ReadFinds(cfg, s);
  }

  lemma ReadAckHandlers(cfg: Config, s: State)
    requires Inv(cfg, s) && s.worker.Read? && s.worker.cont.SendNext? && WorkerReady(cfg, s)
    ensures var t := WorkerStep(cfg, s);
      SlotDeep(cfg, t, s.worker.slot) && HandlersInv(t.slots, t.calls, t.handlers) && WorkerDeep(t)
  {
    ReadPlace(cfg, s);
    ReadOnly(cfg, s, s.worker.slot, s.worker.cont);
    if s.calls[s.worker.cont.fill.call].failed.Some? {
      ReadFailedPush(cfg, s);
    } else {
      ReadAckSlot(cfg, s);
    }
    HandlersFrame(s, WorkerStep(cfg, s), s.worker.slot);
  }

  lemma ReadAckDeep(cfg: Config, s: State)
    requires Inv(cfg, s) && s.worker.Read? && s.worker.cont.SendNext? && WorkerReady(cfg, s)
    ensures Deep(cfg, WorkerStep(cfg, s))
  {
    ReadAt(cfg, s);
    ReadAckHandlers(cfg, s);
    ReadAckCall(cfg, s);
    WorkerStepDeep(cfg, s, WorkerStep(cfg, s), s.worker.slot, s.worker.cont.fill.call);
  }

  lemma ReadAckCall(cfg: Config, s: State)
    requires Inv(cfg, s) && s.worker.Read? && s.worker.cont.SendNext? && WorkerReady(cfg, s)
    ensures var t, c := WorkerStep(cfg, s), s.worker.cont.fill.call;
      CallOk(cfg, t.calls[c], t.gone) && t.calls[c] == s.calls[c].(sent := t.calls[c].sent)
  {
    ReadPlace(cfg, s);
  }

  /** What the worker is about to read: the next piece of its own answer. */
  lemma ReadAnswered(cfg: Config, s: State)
    requires Inv(cfg, s) && s.worker.Read? && s.worker.cont.Collecting? && WorkerReady(cfg, s)
    requires s.calls[s.worker.cont.call].failed == None
    ensures var sl, k := s.slots[s.worker.slot], s.calls[s.worker.cont.call];
      sl.stage == Answered && Shows(cfg, sl, Shown(sl, s.res), k) && (s.gone || sl.partial == []) && k.issued &&
      k.sent <= |k.payload| && |k.payload| - k.sent <= cfg.bufBytes
  {
    ReadPlace(cfg, s);
    ReadFinds(cfg, s);
  }

  /** A piece with more to come: what has been taken grows by exactly what the slot shows. */
  lemma ReadMoreSlot(cfg: Config, s: State)
    requires Inv(cfg, s) && s.worker.Read? && s.worker.cont.Collecting? && WorkerReady(cfg, s)
    requires s.slots[s.worker.slot].resStatus == MORE
    ensures SlotDeep(cfg, WorkerStep(cfg, s), s.worker.slot)
  {
    ReadPlace(cfg, s);
    ReadFinds(cfg, s);
    if s.calls[s.worker.cont.call].failed == None {
      ReadAnswered(cfg, s);
    }
  }

  lemma ReadMoreCall(cfg: Config, s: State)
    requires Inv(cfg, s) && s.worker.Read? && s.worker.cont.Collecting? && WorkerReady(cfg, s)
    requires s.slots[s.worker.slot].resStatus == MORE
    ensures var t, c := WorkerStep(cfg, s), s.worker.cont.call; CallOk(cfg, t.calls[c], t.gone) && WorkerDeep(t)
  {
    ReadPlace(cfg, s);
    ReadFinds(cfg, s);
    if s.calls[s.worker.cont.call].failed == None {
      ReadAnswered(cfg, s);
    }
    var k, shown := s.calls[s.worker.cont.call], Shown(s.slots[s.worker.slot], s.res);
    assert k.lost + (s.worker.cont.got + shown) == k.taken + shown;
  }

  lemma ReadMoreDeep(cfg: Config, s: State)
    requires Inv(cfg, s) && s.worker.Read? && s.worker.cont.Collecting? && WorkerReady(cfg, s)
    requires s.slots[s.worker.slot].resStatus == MORE
    ensures Deep(cfg, WorkerStep(cfg, s))
  {
    ReadPlace(cfg, s);
    ReadMoreSlot(cfg, s);
    ReadMoreCall(cfg, s);
    ReadAt(cfg, s);
    ReadMoreHandlers(cfg, s);
    WorkerStepDeep(cfg, s, WorkerStep(cfg, s), s.worker.slot, s.worker.cont.call);
  }

  lemma ReadMoreHandlers(cfg: Config, s: State)
    requires Inv(cfg, s) && s.worker.Read? && s.worker.cont.Collecting? && WorkerReady(cfg, s)
    requires s.slots[s.worker.slot].resStatus == MORE
    ensures var t := WorkerStep(cfg, s); HandlersInv(t.slots, t.calls, t.handlers)
  {
    ReadPlace(cfg, s);
    ReadFinds(cfg, s);
    ReadOnly(cfg, s, s.worker.slot, s.worker.cont);
    if s.calls[s.worker.cont.call].failed == None {
      ReadAnswered(cfg, s);
    }
    HandlersFrame(s, WorkerStep(cfg, s), s.worker.slot);
  }

  /** The last piece, or a failure: the outcome is recorded. */
  lemma ReadLastCall(cfg: Config, s: State)
    requires Inv(cfg, s) && s.worker.Read? && s.worker.cont.Collecting? && WorkerReady(cfg, s)
    requires s.slots[s.worker.slot].resStatus != MORE
    ensures CallOk(cfg, WorkerStep(cfg, s).calls[s.worker.cont.call], s.gone)
  {
    ReadPlace(cfg, s);
    ReadFinds(cfg, s);
    if s.calls[s.worker.cont.call].failed == None {
      ReadAnswered(cfg, s);
    }
    var k, shown := s.calls[s.worker.cont.call], Shown(s.slots[s.worker.slot], s.res);
    assert k.lost + (s.worker.cont.got + shown) == k.taken + shown;
  }

  lemma ReadLastSlot(cfg: Config, s: State)
    requires Inv(cfg, s) && s.worker.Read? && s.worker.cont.Collecting? && WorkerReady(cfg, s)
    requires s.slots[s.worker.slot].resStatus != MORE
    ensures SlotDeep(cfg, WorkerStep(cfg, s), s.worker.slot)
  {
    ReadPlace(cfg, s);
    ReadFinds(cfg, s);
    if s.calls[s.worker.cont.call].failed == None {
      ReadAnswered(cfg, s);
    }
  }

  lemma ReadLastDeep(cfg: Config, s: State)
    requires Inv(cfg, s) && s.worker.Read? && s.worker.cont.Collecting? && WorkerReady(cfg, s)
    requires s.slots[s.worker.slot].resStatus != MORE
    ensures Deep(cfg, WorkerStep(cfg, s))
  {
    ReadPlace(cfg, s);
    ReadLastCall(cfg, s);
    ReadLastSlot(cfg, s);
    ReadAt(cfg, s);
    ReadLastHandlers(cfg, s);
    WorkerStepDeep(cfg, s, WorkerStep(cfg, s), s.worker.slot, s.worker.cont.call);
  }

  lemma ReadLastHandlers(cfg: Config, s: State)
    requires Inv(cfg, s) && s.worker.Read? && s.worker.cont.Collecting? && WorkerReady(cfg, s)
    requires s.slots[s.worker.slot].resStatus != MORE
    ensures var t := WorkerStep(cfg, s); HandlersInv(t.slots, t.calls, t.handlers)
  {
    ReadPlace(cfg, s);
    ReadOnly(cfg, s, s.worker.slot, s.worker.cont);
    HandlersFrame(s, WorkerStep(cfg, s), s.worker.slot);
  }

  // ---- Cancelling -----------------------------------------------------------------------------

  lemma CancelReadyDeep(cfg: Config, s: State, c: nat)
    requires Inv(cfg, s) && Enabled(cfg, s, Cancel(c))
    requires s.calls[c].gen == s.slots[s.calls[c].slot].gen && s.slots[s.calls[c].slot].status == Ready
    ensures Deep(cfg, Next(cfg, s, Cancel(c)))
  {
    CancelReadySlot(cfg, s, c);
    CancelReadyAt(cfg, s, c);
    assert CallOk(cfg, s.calls[c], s.gone);
    WorkerStepDeep(cfg, s, Next(cfg, s, Cancel(c)), s.calls[c].slot, c);
  }

  lemma CancelReadyAt(cfg: Config, s: State, c: nat)
    requires Inv(cfg, s) && Enabled(cfg, s, Cancel(c))
    requires s.calls[c].gen == s.slots[s.calls[c].slot].gen && s.slots[s.calls[c].slot].status == Ready
    ensures var t, j := Next(cfg, s, Cancel(c)), s.calls[c].slot;
      DeepAt(s, t, j, c) && HostDeep(t.slots, t.host, t.gone) && ResInv(t.slots, t.res) &&
      HandlersInv(t.slots, t.calls, t.handlers)
  {
    var t, j := Next(cfg, s, Cancel(c)), s.calls[c].slot;
    TicketLive(cfg, s, c);
    assert SlotBase(s, j);
    GiveRes(s.slots, t.slots, s.res, j);
    HandlersFrame(s, t, j);
  }

  lemma CancelReadySlot(cfg: Config, s: State, c: nat)
    requires Inv(cfg, s) && Enabled(cfg, s, Cancel(c))
    requires s.calls[c].gen == s.slots[s.calls[c].slot].gen && s.slots[s.calls[c].slot].status == Ready
    ensures SlotDeep(cfg, Next(cfg, s, Cancel(c)), s.calls[c].slot)
  {
    var j := s.calls[c].slot;
    TicketLive(cfg, s, c);
    assert SlotDeep(cfg, s, j) && SlotBase(s, j) && CallOk(cfg, s.calls[c], s.gone);
  }

  lemma CancelDeep(cfg: Config, s: State, c: nat)
    requires Inv(cfg, s) && Enabled(cfg, s, Cancel(c))
    ensures Deep(cfg, Next(cfg, s, Cancel(c)))
  {
    if s.slots[s.calls[c].slot].gen == s.calls[c].gen && s.slots[s.calls[c].slot].status == Ready {
      CancelReadyDeep(cfg, s, c);
    } else {
      MovesDeep(cfg, s, Next(cfg, s, Cancel(c)));
    }
  }

  /** The generation moves, and the status too or not yet: the slot still holds what it held. */
  lemma CancelStoreSlot(cfg: Config, s: State)
    requires Inv(cfg, s) && s.worker.CancelStore? && WorkerReady(cfg, s)
    ensures var c := s.worker.call;
      SlotDeep(cfg, WorkerStep(cfg, s), s.calls[c].slot) && CallOk(cfg, s.calls[c], s.gone) &&
      s.slots[s.calls[c].slot].call == c
  {
    var c := s.worker.call;
    TicketLive(cfg, s, c);
    assert SlotDeep(cfg, s, s.calls[c].slot) && SlotBase(s, s.calls[c].slot);
    assert CallOk(cfg, s.calls[c], s.gone);
  }

  lemma CancelStoreDeep(cfg: Config, s: State)
    requires Inv(cfg, s) && s.worker.CancelStore? && WorkerReady(cfg, s)
    ensures Deep(cfg, WorkerStep(cfg, s))
  {
    var c, t := s.worker.call, WorkerStep(cfg, s);
    var j := s.calls[c].slot;
    CancelStoreSlot(cfg, s);
    CancelAt(cfg, s);
    WorkerStepDeep(cfg, s, t, j, c);
  }

  /** What either store of a cancel leaves alone. */
  lemma CancelAt(cfg: Config, s: State)
    requires Inv(cfg, s) && (s.worker.CancelStore? || s.worker.CancelMark?) && WorkerReady(cfg, s)
    ensures var c, t := s.worker.call, WorkerStep(cfg, s);
      DeepAt(s, t, s.calls[c].slot, c) && ResInv(t.slots, t.res) && HandlersInv(t.slots, t.calls, t.handlers) &&
      t.calls == s.calls && HostDeep(t.slots, t.host, t.gone)
  {
    var c := s.worker.call;
    var j, t := s.calls[c].slot, WorkerStep(cfg, s);
    CancelStep(cfg, s);
    HandlersFrame(s, t, j);
    ResSame(s.slots, t.slots, s.res);
  }

  lemma CancelStep(cfg: Config, s: State)
    requires (s.worker.CancelStore? || s.worker.CancelMark?) && WorkerReady(cfg, s)
    ensures var j, t := s.calls[s.worker.call].slot, WorkerStep(cfg, s);
      t == s.(slots := s.slots[j := t.slots[j]], worker := t.worker) &&
      (t.worker == Idle || t.worker == CancelMark(s.worker.call)) &&
      t.slots[j] == s.slots[j].(gen := t.slots[j].gen, status := t.slots[j].status) &&
      (t.slots[j].status == s.slots[j].status || t.slots[j].status == Cancelled)
  {
  }

  lemma CancelMarkDeep(cfg: Config, s: State)
    requires Inv(cfg, s) && s.worker.CancelMark? && WorkerReady(cfg, s)
    ensures Deep(cfg, WorkerStep(cfg, s))
  {
    var c := s.worker.call;
    CancelAt(cfg, s);
    assert CallOk(cfg, s.calls[c], s.gone);
    WorkerStepDeep(cfg, s, WorkerStep(cfg, s), s.calls[c].slot, c);
  }

  /** Every step of the worker keeps every answer where it belongs. */
  lemma WorkerDeepKeeps(cfg: Config, s: State)
    requires cfg.Valid() && Inv(cfg, s) && WorkerReady(cfg, s)
    ensures Deep(cfg, WorkerStep(cfg, s))
  {
    if OnlyMoves(s.worker) {
      MoveDeep(cfg, s);
    } else {
      match s.worker
      case ClaimTry(_, _, _, i, _, _) =>
        if i < cfg.slots && s.slots[i].status == Free { ClaimHitDeep(cfg, s); } else { MissDeep(cfg, s); }
      case BufTry(_, _, i) => if i < cfg.bufs && !s.req[i].held { BufHitDeep(cfg, s); } else { MissDeep(cfg, s); }
      case Publish(_, _) => PublishDeep(cfg, s);
      case Read(_, _) => ReadDeep(cfg, s);
      case CancelStore(_) => CancelStoreDeep(cfg, s);
      case CancelMark(_) => CancelMarkDeep(cfg, s);
      case Park(_, _, phase) => if phase != Wait && s.gone { ThrowDeep(cfg, s); } else { ParkDeep(cfg, s); }
      case _ =>
    }
  }

  lemma ReadDeep(cfg: Config, s: State)
    requires Inv(cfg, s) && s.worker.Read? && WorkerReady(cfg, s)
    ensures Deep(cfg, WorkerStep(cfg, s))
  {
    if s.worker.cont.SendNext? {
      ReadAckDeep(cfg, s);
    } else if s.slots[s.worker.slot].resStatus == MORE {
      ReadMoreDeep(cfg, s);
    } else {
      ReadLastDeep(cfg, s);
    }
  }
}
