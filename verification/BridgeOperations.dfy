/** What each operation of the worker comes back with, in every run: from the label that began it to the
    state in which the worker is idle again. */
module BridgeOperations {
  import opened Options
  import opened BridgeModel
  import opened BridgeBase
  import A = BridgeAlways

  /** The operation that label j began is over at m and not before. */
  ghost predicate Over(labels: seq<Label>, trace: seq<State>, j: nat, m: nat) {
    j < m < |trace| == |labels| + 1 && trace[m].worker == Idle && Lasts(trace, j, m)
  }

  /** And it is not over before i. */
  ghost predicate Lasts(trace: seq<State>, j: nat, i: nat) {
    i <= |trace| && forall n {:trigger trace[n]} :: j < n < i ==> trace[n].worker != Idle
  }

  // ---- Submitting -----------------------------------------------------------------------------

  /** The call the worker is filling or pushing, if any. */
  function Fills(w: Worker): Option<nat> {
    match w
    case BufLoad(f) => Some(f.call)
    case BufTry(f, _, _) => Some(f.call)
    case Publish(f, _) => Some(f.call)
    case AwaitLoad(_, SendNext(f)) => Some(f.call)
    case AwaitCheck(_, _, SendNext(f)) => Some(f.call)
    case Read(_, SendNext(f)) => Some(f.call)
    case Park(_, ForReqBuf(f), _) => Some(f.call)
    case Park(_, ForReady(_, SendNext(f)), _) => Some(f.call)
    case _ => None
  }

  /** The arguments of a submit that has not claimed a slot yet. */
  function Claims(w: Worker): Option<(int, Bytes)> {
    match w
    case ClaimLoad(op, payload) => Some((op, payload))
    case ClaimTry(op, payload, _, _, _, _) => Some((op, payload))
    case ClaimPeek(op, payload, _, _, _, _) => Some((op, payload))
    case Park(_, ForSlot(op, payload, _), _) => Some((op, payload))
    case _ => None
  }

  predicate Asks(k: Call, op: int, payload: Bytes) {
    k.op == op && k.payload == payload
  }

  /** A submit with these arguments is under way, begun when there were c calls. */
  ghost predicate Submitting(s: State, c: nat, op: int, payload: Bytes) {
    (Claims(s.worker) == Some((op, payload)) && |s.calls| == c) ||
    (Fills(s.worker) == Some(c) && |s.calls| == c + 1 && Asks(s.calls[c], op, payload))
  }

  ghost predicate AllReady(s: State) {
    forall i :: 0 <= i < |s.slots| ==> s.slots[i].status == Ready
  }

  /** How a submit ends, at the worker's step from s to t: with a ticket, its last piece published in the
      slot the ticket names; or it throws, because every slot holds an answer, because the responder is
      gone, or because a piece was answered with a failure. */
  ghost predicate Submitted(s: State, t: State, c: nat, op: int, payload: Bytes) {
    (|t.calls| == c + 1 && t.calls[c].issued && Asks(t.calls[c], op, payload) &&
      t.calls[c].slot < |t.slots| && Asked(t.slots[t.calls[c].slot], op)) ||
    (|t.calls| == c && AllReady(s)) ||
    (|t.calls| == c && s.gone) || (|t.calls| == c + 1 && !t.calls[c].issued && s.gone) ||
    (|t.calls| == c + 1 && !t.calls[c].issued && FailedPush(s))
  }

  predicate Asked(sl: Slot, op: int) {
    sl.status == Pending && sl.op == User(op)
  }

  ghost predicate FailedPush(s: State) {
    s.worker.Read? && s.worker.cont.SendNext? && s.worker.slot < |s.slots| && s.slots[s.worker.slot].resStatus == ERR
  }

  lemma SubmitStep(cfg: Config, s: State, c: nat, op: int, payload: Bytes)
    requires Base(cfg, s) && WorkerReady(cfg, s) && Submitting(s, c, op, payload)
    ensures var t := WorkerStep(cfg, s);
      if t.worker == Idle then Submitted(s, t, c, op, payload) else Submitting(t, c, op, payload)
  {
    match s.worker
    case ClaimTry(_, _, _, _, _, _) => ClaimStep(cfg, s, c, op, payload);
    case Publish(f, b) => PublishedStep(cfg, s, c, op, payload);
    case Read(_, _) => PushStep(cfg, s, c, op, payload);
    case _ => OtherStep(cfg, s, c, op, payload);
  }

  /** The steps that only move the worker along, but for a buffer taken. */
  lemma OtherStep(cfg: Config, s: State, c: nat, op: int, payload: Bytes)
    requires Base(cfg, s) && WorkerReady(cfg, s) && Submitting(s, c, op, payload)
    requires !s.worker.ClaimTry? && !s.worker.Publish? && !s.worker.Read?
    ensures var t := WorkerStep(cfg, s);
      if t.worker == Idle then Submitted(s, t, c, op, payload) else Submitting(t, c, op, payload)
  {
    if s.worker.Park? {
      ParkedStep(cfg, s, c, op, payload);
    }
  }

  lemma ParkedStep(cfg: Config, s: State, c: nat, op: int, payload: Bytes)
    requires Base(cfg, s) && WorkerReady(cfg, s) && Submitting(s, c, op, payload) && s.worker.Park?
    ensures var t := WorkerStep(cfg, s);
      if t.worker == Idle then Submitted(s, t, c, op, payload) else Submitting(t, c, op, payload)
  {
  }

  lemma ClaimStep(cfg: Config, s: State, c: nat, op: int, payload: Bytes)
    requires Base(cfg, s) && WorkerReady(cfg, s) && s.worker.ClaimTry? && Submitting(s, c, op, payload)
    ensures var t := WorkerStep(cfg, s);
      if t.worker == Idle then Submitted(s, t, c, op, payload) else Submitting(t, c, op, payload)
  {
  }

  lemma PublishedStep(cfg: Config, s: State, c: nat, op: int, payload: Bytes)
    requires Base(cfg, s) && WorkerReady(cfg, s) && s.worker.Publish? && Submitting(s, c, op, payload)
    ensures var t := WorkerStep(cfg, s);
      if t.worker == Idle then Submitted(s, t, c, op, payload) else Submitting(t, c, op, payload)
  {
    assert SlotBase(s, s.worker.fill.slot);
  }

  lemma PushStep(cfg: Config, s: State, c: nat, op: int, payload: Bytes)
    requires Base(cfg, s) && WorkerReady(cfg, s) && s.worker.Read? && Submitting(s, c, op, payload)
    ensures var t := WorkerStep(cfg, s);
      if t.worker == Idle then Submitted(s, t, c, op, payload) else Submitting(t, c, op, payload)
  {
  }

  predicate KeptProgress(k: Call, k': Call) {
    k'.outcome == k.outcome && k'.issued == k.issued && k'.sent == k.sent
  }

  /** What the responder does leaves the worker's operation and its arguments alone. */
  ghost predicate Beside(s: State, t: State) {
    t.worker == s.worker && |t.calls| == |s.calls| && A.Grew(s, t) && (s.gone ==> t.gone) &&
    forall c :: 0 <= c < |s.calls| ==> KeptProgress(s.calls[c], t.calls[c])
  }

  lemma HostBeside(cfg: Config, s: State, l: Label)
    requires Enabled(cfg, s, l) && A.ByHost(l)
    ensures Beside(s, Next(cfg, s, l))
  {
    A.StepGrows(cfg, s, l);
    if l.HostGo? {
      HostGoBeside(cfg, s, l.choice);
    }
  }

  ghost predicate Unmoved(s: State, t: State) {
    t.worker == s.worker && |t.calls| == |s.calls| && t.gone == s.gone &&
    forall c :: 0 <= c < |s.calls| ==> KeptProgress(s.calls[c], t.calls[c])
  }

  lemma HostGoBeside(cfg: Config, s: State, ch: Choice)
    requires HostReady(cfg, s)
    ensures Unmoved(s, HostStep(cfg, s, ch))
  {
    match s.host
    case At(i, Taken(_, _, _, _)) => DispatchBeside(s, i, s.host.job, ch);
    case At(i, FillIn(status, body)) => FillBeside(cfg, s, i, status, body, ch.buf);
    case Failing => FailBeside(s, ch.message);
    case _ =>
  }

  lemma DispatchBeside(s: State, i: nat, t: Job, ch: Choice)
    requires i < |s.slots| && t.Taken? && s.slots[i].call < |s.calls|
    ensures Unmoved(s, Dispatch(s, i, t, ch))
  {
  }

  lemma FillBeside(cfg: Config, s: State, i: nat, status: ResStatus, body: Bytes, want: int)
    requires i < |s.slots| && s.slots[i].call < |s.calls|
    ensures Unmoved(s, FillStep(cfg, s, i, status, body, want))
  {
  }

  lemma FailBeside(s: State, why: Bytes)
    requires s.sweep < |s.slots| ==> s.slots[s.sweep].status == Free || s.slots[s.sweep].call < |s.calls|
    ensures Unmoved(s, FailStep(s, why))
  {
  }

  /** A submit goes on with the arguments it was given, or ends as it may. */
  ghost predicate SubmitRuns(s: State, l: Label, t: State, c: nat, op: int, payload: Bytes) {
    (t.worker != Idle && Submitting(t, c, op, payload)) ||
    (t.worker == Idle && l == WorkerGo && Submitted(s, t, c, op, payload))
  }

  lemma SubmitGoes(cfg: Config, s: State, l: Label, c: nat, op: int, payload: Bytes)
    requires Base(cfg, s) && Enabled(cfg, s, l) && Submitting(s, c, op, payload)
    ensures SubmitRuns(s, l, Next(cfg, s, l), c, op, payload)
  {
    if A.ByHost(l) {
      HostBeside(cfg, s, l);
    } else {
      SubmitStep(cfg, s, c, op, payload);
    }
  }

  lemma {:induction false} SubmitLasts(cfg: Config, labels: seq<Label>, trace: seq<State>, j: nat, i: nat)
    requires IsRun(cfg, labels, trace) && j + 1 < i <= |labels| && labels[j].Submit? && Lasts(trace, j, i)
    ensures SubmitRuns(trace[i - 1], labels[i - 1], trace[i], |trace[j].calls|, labels[j].op, labels[j].payload)
    decreases i
  {
    if i > j + 2 {
      SubmitLasts(cfg, labels, trace, j, i - 1);
    } else {
      assert StepAt(cfg, labels, trace, j);
    }
    A.RunBase(cfg, labels, trace, i - 1);
    assert StepAt(cfg, labels, trace, i - 1);
    SubmitGoes(cfg, trace[i - 1], labels[i - 1], |trace[j].calls|, labels[j].op, labels[j].payload);
  }

  /** Every submit that is over came back with a ticket for a call with its own arguments, the last piece of
      them published; or it threw, and then for one of its three reasons. */
  lemma SubmitReturns(cfg: Config, labels: seq<Label>, trace: seq<State>, j: nat, m: nat)
    requires IsRun(cfg, labels, trace) && Over(labels, trace, j, m) && labels[j].Submit?
    ensures labels[m - 1] == WorkerGo
    ensures Submitted(trace[m - 1], trace[m], |trace[j].calls|, labels[j].op, labels[j].payload)
  {
    assert StepAt(cfg, labels, trace, j);
    SubmitLasts(cfg, labels, trace, j, m);
  }

  // ---- Which submit made a call ---------------------------------------------------------------

  /** Label j is the submit that made call c, at step m: no call and no other submit came between. */
  ghost predicate MadeBy(labels: seq<Label>, trace: seq<State>, c: nat, j: nat, m: nat) {
    j < m < |labels| && |trace| == |labels| + 1 &&
    labels[j].Submit? && (forall i :: j < i <= m ==> !labels[i].Submit?) &&
    |trace[j].calls| == |trace[m].calls| == c && |trace[m + 1].calls| == c + 1 &&
    Asks(trace[m + 1].calls[c], labels[j].op, labels[j].payload)
  }

  /** A worker that is claiming a slot does so for the last submit. */
  lemma {:induction false} ClaimsForSubmit(cfg: Config, labels: seq<Label>, trace: seq<State>, k: nat) returns (j: nat)
    requires IsRun(cfg, labels, trace) && k <= |labels| && Claims(trace[k].worker).Some?
    ensures j < k && labels[j].Submit? && forall i :: j < i < k ==> !labels[i].Submit?
    ensures Submitting(trace[k], |trace[j].calls|, labels[j].op, labels[j].payload)
  {
    if labels[k - 1].Submit? {
      j := k - 1;
      assert StepAt(cfg, labels, trace, k - 1);
      SubmitBegins(cfg, trace[k - 1], labels[k - 1].op, labels[k - 1].payload);
    } else {
      assert StepAt(cfg, labels, trace, k - 1);
      ClaimsBefore(cfg, trace[k - 1], labels[k - 1]);
      j := ClaimsForSubmit(cfg, labels, trace, k - 1);
      A.RunBase(cfg, labels, trace, k - 1);
      SubmitGoes(cfg, trace[k - 1], labels[k - 1], |trace[j].calls|, labels[j].op, labels[j].payload);
    }
  }

  lemma SubmitBegins(cfg: Config, s: State, op: int, payload: Bytes)
    requires Enabled(cfg, s, Submit(op, payload))
    ensures Submitting(Next(cfg, s, Submit(op, payload)), |s.calls|, op, payload)
  {
  }

  lemma ClaimsBefore(cfg: Config, s: State, l: Label)
    requires Enabled(cfg, s, l) && !l.Submit? && Claims(Next(cfg, s, l).worker).Some?
    ensures Claims(s.worker).Some?
  {
    if A.ByHost(l) {
      HostBeside(cfg, s, l);
    } else if l.WorkerGo? {
      ClaimsBeforeStep(cfg, s);
    }
  }

  lemma ClaimsBeforeStep(cfg: Config, s: State)
    requires WorkerReady(cfg, s) && Claims(WorkerStep(cfg, s).worker).Some?
    ensures Claims(s.worker).Some?
  {
    match s.worker
    case Park(_, _, _) =>
    case _ =>
  }

  /** Every call was made by one submit, and has its opcode and its payload for as long as it lives. */
  lemma {:induction false} CallsAreSubmitted(cfg: Config, labels: seq<Label>, trace: seq<State>, k: nat, c: nat)
      returns (j: nat, m: nat)
    requires IsRun(cfg, labels, trace) && k <= |labels| && c < |trace[k].calls|
    ensures m < k && MadeBy(labels, trace, c, j, m) && Asks(trace[k].calls[c], labels[j].op, labels[j].payload)
  {
    if c < |trace[k - 1].calls| {
      j, m := CallsAreSubmitted(cfg, labels, trace, k - 1, c);
      A.RunStep(cfg, labels, trace, k - 1);
    } else {
      j := CallIsSubmitted(cfg, labels, trace, k - 1, c);
      m := k - 1;
    }
  }

  lemma CallIsSubmitted(cfg: Config, labels: seq<Label>, trace: seq<State>, m: nat, c: nat) returns (j: nat)
    requires IsRun(cfg, labels, trace) && m < |labels| && |trace[m].calls| <= c < |trace[m + 1].calls|
    ensures MadeBy(labels, trace, c, j, m)
  {
    A.RunBase(cfg, labels, trace, m);
    assert StepAt(cfg, labels, trace, m);
    MakesCall(cfg, trace[m], labels[m]);
    j := ClaimsForSubmit(cfg, labels, trace, m);
    A.RunGrows(cfg, labels, trace, j, m);
    ClaimMakes(cfg, trace[m], |trace[j].calls|, labels[j].op, labels[j].payload);
  }

  lemma ClaimMakes(cfg: Config, s: State, c: nat, op: int, payload: Bytes)
    requires WorkerReady(cfg, s) && s.worker.ClaimTry? && Submitting(s, c, op, payload)
    requires |WorkerStep(cfg, s).calls| > |s.calls|
    ensures |s.calls| == c && |WorkerStep(cfg, s).calls| == c + 1 && Asks(WorkerStep(cfg, s).calls[c], op, payload)
  {
  }

  lemma MakesCall(cfg: Config, s: State, l: Label)
    requires Sizes(cfg, s) && Enabled(cfg, s, l) && |Next(cfg, s, l).calls| > |s.calls|
    ensures l == WorkerGo && s.worker.ClaimTry?
  {
    if A.ByHost(l) {
      HostBeside(cfg, s, l);
    } else if l.WorkerGo? && !s.worker.ClaimTry? {
      A.WorkerAddsNoCall(cfg, s);
    }
  }

  /** And by one only. */
  lemma MadeByOne(cfg: Config, labels: seq<Label>, trace: seq<State>, c: nat, j: nat, m: nat, j': nat, m': nat)
    requires IsRun(cfg, labels, trace) && MadeBy(labels, trace, c, j, m) && MadeBy(labels, trace, c, j', m')
    ensures j == j' && m == m'
  {
    if m < m' {
      A.RunGrows(cfg, labels, trace, m + 1, m');
    } else if m' < m {
      A.RunGrows(cfg, labels, trace, m' + 1, m);
    }
  }

  // ---- Claiming -------------------------------------------------------------------------------

  /** The scan of `claim` reports a full ring only when every slot is ready at that moment. */
  lemma ThrowsOnlyWhenFull(cfg: Config, labels: seq<Label>, trace: seq<State>, k: nat)
    requires IsRun(cfg, labels, trace) && k < |labels| && labels[k] == WorkerGo
    requires trace[k].worker.ClaimTry? && trace[k + 1].worker == Idle
    ensures AllReady(trace[k])
  {
    A.RunBase(cfg, labels, trace, k);
    assert StepAt(cfg, labels, trace, k);
  }

  predicate Scans(w: Worker) {
    w.ClaimTry? || w.ClaimPeek?
  }

  /** At step p the scan looks at a slot that is not ready. */
  ghost predicate SeesBusy(labels: seq<Label>, trace: seq<State>, p: nat)
    requires p < |labels| && |trace| == |labels| + 1
  {
    labels[p] == WorkerGo && trace[p].worker.ClaimPeek? && trace[p].worker.i < |trace[p].slots| &&
    trace[p].slots[trace[p].worker.i].status != Ready
  }

  /** Steps q to k are one scan, from its load of the counter to its end. */
  ghost predicate WholeScan(cfg: Config, labels: seq<Label>, trace: seq<State>, q: nat, k: nat) {
    q < k < |labels| && |trace| == |labels| + 1 && trace[q].worker.ClaimLoad? &&
    (forall i {:trigger trace[i]} :: q < i <= k ==> Scans(trace[i].worker)) &&
    trace[k].worker.ClaimTry? && trace[k].worker.i >= cfg.slots && labels[q] == labels[k] == WorkerGo
  }

  lemma {:induction false} LagSays(cfg: Config, labels: seq<Label>, trace: seq<State>, q: nat, i: nat)
    requires IsRun(cfg, labels, trace) && q < i <= |labels| && trace[q].worker.ClaimLoad? && labels[q] == WorkerGo
    requires forall n {:trigger trace[n]} :: q < n <= i ==> Scans(trace[n].worker)
    ensures Scans(trace[i].worker)
    ensures trace[i].worker.lag >= 0 <==> exists p :: q < p < i && SeesBusy(labels, trace, p)
    decreases i
  {
    var s, l := trace[i - 1], labels[i - 1];
    assert StepAt(cfg, labels, trace, i - 1);
    if i > q + 1 {
      LagSays(cfg, labels, trace, q, i - 1);
      LagStep(cfg, s, l);
      if SeesBusy(labels, trace, i - 1) {
        assert trace[i].worker.lag >= 0;
      }
    }
  }

  lemma LagStep(cfg: Config, s: State, l: Label)
    requires Enabled(cfg, s, l) && Scans(s.worker) && Scans(Next(cfg, s, l).worker)
    ensures var w := Next(cfg, s, l).worker;
      if l == WorkerGo && s.worker.ClaimPeek? && s.slots[s.worker.i].status != Ready then w.lag == s.worker.i
      else w.lag == s.worker.lag
  {
    if A.ByHost(l) {
      HostBeside(cfg, s, l);
    }
  }

  /** A whole scan parks if it has seen a slot that was not ready, and otherwise throws. */
  lemma ScanDecides(cfg: Config, labels: seq<Label>, trace: seq<State>, q: nat, k: nat)
    requires IsRun(cfg, labels, trace) && WholeScan(cfg, labels, trace, q, k)
    ensures if exists p :: q < p < k && SeesBusy(labels, trace, p) then
        trace[k + 1].worker.Park? && Claims(trace[k + 1].worker) == Claims(trace[k].worker)
      else
        trace[k + 1].worker == Idle && AllReady(trace[k])
  {
    A.RunBase(cfg, labels, trace, k);
    assert StepAt(cfg, labels, trace, k);
    LagSays(cfg, labels, trace, q, k);
    ScanEnds(cfg, trace[k]);
  }

  lemma ScanEnds(cfg: Config, s: State)
    requires Base(cfg, s) && WorkerReady(cfg, s) && s.worker.ClaimTry? && s.worker.i >= cfg.slots
    ensures var w := WorkerStep(cfg, s).worker;
      if s.worker.lag >= 0 then w.Park? && Claims(w) == Claims(s.worker) else w == Idle && AllReady(s)
  {
  }

  // ---- Cancelling -----------------------------------------------------------------------------

  /** Cancelling a ready call frees its slot under a generation its ticket does not have, gives its answer's
      buffer back, and touches no other slot and no other buffer. */
  lemma CancelFrees(cfg: Config, s: State, c: nat)
    requires Enabled(cfg, s, Cancel(c)) && s.slots[s.calls[c].slot].gen == s.calls[c].gen
    requires s.slots[s.calls[c].slot].status == Ready
    ensures var t, i := Next(cfg, s, Cancel(c)), s.calls[c].slot;
      A.Expired(t, c) && t.slots[i].status == Free && t.slots[i].resBuf == -1 && t.worker == Idle &&
      t.doneSeq == s.doneSeq + 1 && t.calls == s.calls && t.req == s.req && |t.res| == |s.res| &&
      (forall b :: 0 <= b < |s.res| ==> t.res[b].held == (s.res[b].held && b != s.slots[i].resBuf)) &&
      forall k :: 0 <= k < |s.slots| && k != i ==> t.slots[k] == s.slots[k]
  {
  }

  ghost predicate Cancelling(s: State, c: nat) {
    (s.worker == CancelStore(c) || s.worker == CancelMark(c)) && c < |s.calls| && s.calls[c].slot < |s.slots|
  }

  /** The slot is marked, and the ticket expired by exactly one generation. */
  ghost predicate Marked(s: State, c: nat) {
    c < |s.calls| && s.calls[c].slot < |s.slots| &&
    var sl := s.slots[s.calls[c].slot];
    sl.status == Cancelled && sl.call == c && sl.gen > s.calls[c].gen
  }

  lemma CancelStep(cfg: Config, s: State, c: nat)
    requires Base(cfg, s) && WorkerReady(cfg, s) && Cancelling(s, c)
    ensures var t := WorkerStep(cfg, s); if t.worker == Idle then Marked(t, c) else Cancelling(t, c)
  {
    if s.worker.CancelStore? {
      TicketLive(cfg, s, c);
    }
  }

  ghost predicate CancelRuns(t: State, c: nat) {
    (t.worker != Idle && Cancelling(t, c)) || (t.worker == Idle && Marked(t, c))
  }

  lemma CancelGoes(cfg: Config, s: State, l: Label, c: nat)
    requires Base(cfg, s) && Enabled(cfg, s, l) && Cancelling(s, c)
    ensures CancelRuns(Next(cfg, s, l), c)
  {
    if A.ByHost(l) {
      HostBeside(cfg, s, l);
    } else {
      CancelStep(cfg, s, c);
    }
  }

  lemma CancelBegins(cfg: Config, s: State, c: nat)
    requires Enabled(cfg, s, Cancel(c))
    ensures var t := Next(cfg, s, Cancel(c));
      if A.Expired(s, c) then t == s
      else (t.worker == Idle <==> s.slots[s.calls[c].slot].status == Ready) && (t.worker != Idle ==> Cancelling(t, c))
  {
  }

  lemma {:induction false} CancelLasts(cfg: Config, labels: seq<Label>, trace: seq<State>, j: nat, i: nat)
    requires IsRun(cfg, labels, trace) && j + 1 < i <= |labels| && labels[j].Cancel? && Lasts(trace, j, i)
    ensures CancelRuns(trace[i], labels[j].call)
    decreases i
  {
    if i > j + 2 {
      CancelLasts(cfg, labels, trace, j, i - 1);
    } else {
      assert StepAt(cfg, labels, trace, j);
      CancelBegins(cfg, trace[j], labels[j].call);
    }
    A.RunBase(cfg, labels, trace, i - 1);
    assert StepAt(cfg, labels, trace, i - 1);
    CancelGoes(cfg, trace[i - 1], labels[i - 1], labels[j].call);
  }

  /** Once a cancel is over its ticket is expired, for ever: it was expired before and nothing happened, or
      its answer was ready and the slot is free, or the slot is marked for the responder to hand back. */
  lemma CancelReturns(cfg: Config, labels: seq<Label>, trace: seq<State>, j: nat, m: nat, n: nat)
    requires IsRun(cfg, labels, trace) && Over(labels, trace, j, m) && labels[j].Cancel? && m <= n <= |labels|
    ensures var c := labels[j].call;
      c < |trace[j].calls| && trace[j].calls[c].slot < |trace[m].slots| == |trace[j].slots| &&
      (if A.Expired(trace[j], c) then trace[m] == trace[j]
       else if trace[j].slots[trace[j].calls[c].slot].status == Ready then
         trace[m].slots[trace[j].calls[c].slot].status == Free
       else Marked(trace[m], c)) &&
      A.Expired(trace[m], c) && A.Expired(trace[n], c)
  {
    var c := labels[j].call;
    assert StepAt(cfg, labels, trace, j);
    CancelBegins(cfg, trace[j], c);
    if m > j + 1 {
      CancelLasts(cfg, labels, trace, j, m);
    } else if !A.Expired(trace[j], c) {
      CancelFrees(cfg, trace[j], c);
    }
    A.RunGrows(cfg, labels, trace, j, m);
    A.ExpiredForEver(cfg, labels, trace, m, n, c);
  }

  // ---- Collecting -----------------------------------------------------------------------------

  /** The call the worker is collecting, and where. */
  function Collects(w: Worker): Option<(nat, nat)> {
    match w
    case AwaitLoad(i, Collecting(c, _)) => Some((i, c))
    case AwaitCheck(i, _, Collecting(c, _)) => Some((i, c))
    case Read(i, Collecting(c, _)) => Some((i, c))
    case Park(_, ForReady(i, Collecting(c, _)), _) => Some((i, c))
    case _ => None
  }

  ghost predicate Waits(s: State, c: nat) {
    c < |s.calls| && s.calls[c].slot < |s.slots| && Collects(s.worker) == Some((s.calls[c].slot, c))
  }

  /** How a collect ends: with an outcome, its slot given back under a new generation; or it throws because
      the responder is gone. */
  ghost predicate Collected(s: State, t: State, c: nat) {
    c < |t.calls| && t.calls[c].slot < |t.slots| &&
    ((t.calls[c].outcome.Some? && A.Expired(t, c) && t.slots[t.calls[c].slot].status == Free) ||
     (s.gone && t.calls[c].threw))
  }

  lemma CollectStep(cfg: Config, s: State, c: nat)
    requires Base(cfg, s) && WorkerReady(cfg, s) && Waits(s, c)
    ensures var t := WorkerStep(cfg, s); if t.worker == Idle then Collected(s, t, c) else Waits(t, c)
  {
    if s.worker.Read? {
      CollectRead(cfg, s, c);
    }
  }

  lemma CollectRead(cfg: Config, s: State, c: nat)
    requires Base(cfg, s) && WorkerReady(cfg, s) && Waits(s, c) && s.worker.Read?
    ensures var t := WorkerStep(cfg, s); if t.worker == Idle then Collected(s, t, c) else Waits(t, c)
  {
    assert SlotBase(s, s.worker.slot);
    assert GenOk(s.slots, s.calls[c], c);
  }

  ghost predicate CollectRuns(s: State, l: Label, t: State, c: nat) {
    (t.worker != Idle && Waits(t, c)) || (t.worker == Idle && l == WorkerGo && Collected(s, t, c))
  }

  lemma CollectGoes(cfg: Config, s: State, l: Label, c: nat)
    requires Base(cfg, s) && Enabled(cfg, s, l) && Waits(s, c)
    ensures CollectRuns(s, l, Next(cfg, s, l), c)
  {
    if A.ByHost(l) {
      HostBeside(cfg, s, l);
    } else {
      CollectStep(cfg, s, c);
    }
  }

  lemma CollectBegins(cfg: Config, s: State, c: nat)
    requires Enabled(cfg, s, Collect(c))
    ensures var t := Next(cfg, s, Collect(c));
      if A.Expired(s, c) then t == s else t.worker != Idle && Waits(t, c)
  {
  }

  lemma {:induction false} CollectLasts(cfg: Config, labels: seq<Label>, trace: seq<State>, j: nat, i: nat)
    requires IsRun(cfg, labels, trace) && j + 1 < i <= |labels| && labels[j].Collect? && Lasts(trace, j, i)
    ensures CollectRuns(trace[i - 1], labels[i - 1], trace[i], labels[j].call)
    decreases i
  {
    if i > j + 2 {
      CollectLasts(cfg, labels, trace, j, i - 1);
    } else {
      assert StepAt(cfg, labels, trace, j);
      CollectBegins(cfg, trace[j], labels[j].call);
    }
    A.RunBase(cfg, labels, trace, i - 1);
    assert StepAt(cfg, labels, trace, i - 1);
    CollectGoes(cfg, trace[i - 1], labels[i - 1], labels[j].call);
  }

  /** A collect of an expired ticket throws at once and changes nothing. Any other comes back with an outcome
      for its own call and leaves the ticket expired, or throws because the responder is gone. */
  lemma CollectReturns(cfg: Config, labels: seq<Label>, trace: seq<State>, j: nat, m: nat)
    requires IsRun(cfg, labels, trace) && Over(labels, trace, j, m) && labels[j].Collect?
    ensures if A.Expired(trace[j], labels[j].call) then m == j + 1 && trace[m] == trace[j]
      else Collected(trace[m - 1], trace[m], labels[j].call)
  {
    assert StepAt(cfg, labels, trace, j);
    CollectBegins(cfg, trace[j], labels[j].call);
    if m > j + 1 {
      CollectLasts(cfg, labels, trace, j, m);
    }
  }

  // ---- Waiting for any ------------------------------------------------------------------------

  /** The tickets the worker is waiting for. */
  function AnyOf(w: Worker): Option<seq<nat>> {
    match w
    case AnyLoad(ts) => Some(ts)
    case AnyScan(ts, _, _) => Some(ts)
    case Park(_, ForAny(ts), _) => Some(ts)
    case _ => None
  }

  /** The ticket has expired, or its call's answer is there. */
  ghost predicate Settled(s: State, c: nat) {
    A.Expired(s, c) ||
    (c < |s.calls| && s.calls[c].slot < |s.slots| &&
      s.slots[s.calls[c].slot].status == Ready && s.slots[s.calls[c].slot].call == c)
  }

  /** A scan that comes to a ticket that is settled ends there, and at no other. */
  lemma ScanStopsAtSettled(cfg: Config, s: State)
    requires Base(cfg, s) && WorkerReady(cfg, s) && s.worker.AnyScan? && s.worker.i < |s.worker.tickets|
    ensures WorkerStep(cfg, s).worker == Idle <==> Settled(s, s.worker.tickets[s.worker.i])
  {
    var c := s.worker.tickets[s.worker.i];
    assert Ticket(cfg, s, c);
    assert GenOk(s.slots, s.calls[c], c);
  }

  /** How a `waitAny` ends, by the step l from s: it reports a ticket that is done, or its time is up after a
      scan that found none done, or it throws because the responder is gone. */
  ghost predicate Woken(cfg: Config, s: State, l: Label, ts: seq<nat>) {
    (l == WorkerGo && s.worker.AnyScan? && s.worker.tickets == ts && s.worker.i < |ts| && Settled(s, ts[s.worker.i])) ||
    (l == TimeOut && s.worker.AnyScan? && s.worker.tickets == ts && s.worker.i == |ts|) ||
    (l == WorkerGo && s.worker.Park? && s.gone)
  }

  lemma AnyStep(cfg: Config, s: State, l: Label, ts: seq<nat>)
    requires Base(cfg, s) && Enabled(cfg, s, l) && (l == WorkerGo || l == TimeOut) && AnyOf(s.worker) == Some(ts)
    ensures var t := Next(cfg, s, l);
      t.slots == s.slots && t.calls == s.calls &&
      if t.worker == Idle then Woken(cfg, s, l, ts) else AnyOf(t.worker) == Some(ts)
  {
    if l == WorkerGo && s.worker.AnyScan? && s.worker.i < |ts| {
      ScanStopsAtSettled(cfg, s);
    }
  }

  ghost predicate AnyRuns(cfg: Config, s: State, l: Label, t: State, ts: seq<nat>) {
    (t.worker != Idle && AnyOf(t.worker) == Some(ts)) || (t.worker == Idle && Woken(cfg, s, l, ts))
  }

  lemma AnyGoes(cfg: Config, s: State, l: Label, ts: seq<nat>)
    requires Base(cfg, s) && Enabled(cfg, s, l) && AnyOf(s.worker) == Some(ts)
    ensures AnyRuns(cfg, s, l, Next(cfg, s, l), ts)
  {
    if A.ByHost(l) {
      HostBeside(cfg, s, l);
    } else {
      AnyStep(cfg, s, l, ts);
    }
  }

  lemma AnyBegins(cfg: Config, s: State, ts: seq<nat>)
    requires Enabled(cfg, s, WaitAny(ts))
    ensures var t := Next(cfg, s, WaitAny(ts));
      if ts == [] then t == s else t.worker != Idle && AnyOf(t.worker) == Some(ts)
  {
  }

  lemma {:induction false} AnyLasts(cfg: Config, labels: seq<Label>, trace: seq<State>, j: nat, i: nat)
    requires IsRun(cfg, labels, trace) && j + 1 < i <= |labels| && labels[j].WaitAny? && Lasts(trace, j, i)
    ensures AnyRuns(cfg, trace[i - 1], labels[i - 1], trace[i], labels[j].tickets)
    decreases i
  {
    if i > j + 2 {
      AnyLasts(cfg, labels, trace, j, i - 1);
    } else {
      assert StepAt(cfg, labels, trace, j);
      AnyBegins(cfg, trace[j], labels[j].tickets);
    }
    A.RunBase(cfg, labels, trace, i - 1);
    assert StepAt(cfg, labels, trace, i - 1);
    AnyGoes(cfg, trace[i - 1], labels[i - 1], labels[j].tickets);
  }

  /** A wait for no ticket comes back at once. Any other comes back only with a ticket that is done, or when
      its time is up, or when the responder is gone. */
  lemma WaitAnyReturns(cfg: Config, labels: seq<Label>, trace: seq<State>, j: nat, m: nat)
    requires IsRun(cfg, labels, trace) && Over(labels, trace, j, m) && labels[j].WaitAny?
    ensures if labels[j].tickets == [] then m == j + 1 && trace[m] == trace[j]
      else Woken(cfg, trace[m - 1], labels[m - 1], labels[j].tickets)
  {
    assert StepAt(cfg, labels, trace, j);
    AnyBegins(cfg, trace[j], labels[j].tickets);
    if m > j + 1 {
      AnyLasts(cfg, labels, trace, j, m);
    }
  }
}
