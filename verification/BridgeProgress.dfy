/** No operation of the worker goes round for ever: left alone, from any state of any run, the worker comes
    to the end of its operation or goes to sleep. */
module BridgeProgress {
  import opened Options
  import opened BridgeModel
  import opened BridgeBase
  import opened BridgeOperations
  import A = BridgeAlways
  import R = BridgeRuns

  /** What the worker still has to do before it is idle or asleep, if nobody else moves: first whether an
      answer is there to be read, then how far the call is, then how far the scan or the wait is. */
  ghost function Answers(s: State): nat {
    var w := s.worker;
    var i := if w.AwaitLoad? || w.AwaitCheck? || w.Read? then w.slot
      else if w.Park? && w.why.ForReady? then w.why.slot else |s.slots|;
    if i < |s.slots| && s.slots[i].status == Ready then 1 else 0
  }

  ghost function Phase(w: Worker): nat {
    if Claims(w).Some? then 3
    else if w.BufLoad? || w.BufTry? || w.Publish? || (w.Park? && w.why.ForReqBuf?) then 2
    else if w == Idle then 0 else 1
  }

  /** A wait that is over goes back to the load; what was loaded since is good for one scan and one wait. */
  ghost function Rest(cfg: Config, s: State): nat {
    var n, w := Longest(cfg, s), s.worker;
    var stale := (Scans(w) || w.BufTry? || w.AwaitCheck? || w.AnyScan? || (w.Park? && w.phase != After)) &&
      w.seen != s.doneSeq;
    (if stale then 2 * n + 8 else 0) +
    match w
    case Idle => 0
    case ClaimLoad(_, _) => 2 * n + 5
    case ClaimTry(_, _, _, i, _, _) => if i <= n then 2 * (n - i) + 4 else 4
    case ClaimPeek(_, _, _, i, _, _) => if i < n then 2 * (n - i) + 3 else 3
    case BufLoad(_) => 2 * n + 5
    case BufTry(_, _, i) => if i <= n then 2 * (n - i) + 4 else 4
    case Publish(_, _) => 1
    case AwaitLoad(_, _) => 5
    case AwaitCheck(_, _, _) => 4
    case Read(_, _) => 1
    case AnyLoad(_) => 2 * n + 5
    case AnyScan(_, _, i) => if i <= n then 2 * (n - i) + 4 else 4
    case CancelStore(_) => 2
    case CancelMark(_) => 1
    case Park(_, _, Before) => 3
    case Park(_, _, Wait) => 2
    case Park(_, _, After) => 2 * n + 7
  }

  /** The longest scan there can be. */
  ghost function Longest(cfg: Config, s: State): nat {
    cfg.slots + cfg.bufs + match AnyOf(s.worker) case Some(ts) => |ts| case None => 0
  }

  ghost predicate Nearer(cfg: Config, s: State, t: State) {
    Answers(t) < Answers(s) ||
    (Answers(t) == Answers(s) &&
      (Phase(t.worker) < Phase(s.worker) ||
        (Phase(t.worker) == Phase(s.worker) && Rest(cfg, t) < Rest(cfg, s))))
  }

  lemma StepNearer(cfg: Config, s: State)
    requires Base(cfg, s) && WorkerReady(cfg, s)
    ensures Nearer(cfg, s, WorkerStep(cfg, s)) || WorkerStep(cfg, s).worker == Idle
  {
    match s.worker
    case ClaimLoad(_, _) => LoadNearer(cfg, s);
    case BufLoad(_) => LoadNearer(cfg, s);
    case AwaitLoad(_, _) => LoadNearer(cfg, s);
    case AnyLoad(_) => LoadNearer(cfg, s);
    case ClaimTry(_, _, _, _, _, _) => ClaimNearer(cfg, s);
    case ClaimPeek(_, _, _, _, _, _) => ClaimNearer(cfg, s);
    case BufTry(_, _, _) => BufNearer(cfg, s);
    case Publish(f, b) => PublishNearer(cfg, s, f, b);
    case AwaitCheck(_, _, _) => CheckNearer(cfg, s);
    case Read(i, cont) => ReadNearer(cfg, s, i, cont);
    case AnyScan(_, _, _) => AnyNearer(cfg, s);
    case Park(_, _, _) => ParkNearer(cfg, s);
    case _ =>
  }

  lemma LoadNearer(cfg: Config, s: State)
    requires WorkerReady(cfg, s)
    requires s.worker.ClaimLoad? || s.worker.BufLoad? || s.worker.AwaitLoad? || s.worker.AnyLoad?
    ensures Nearer(cfg, s, WorkerStep(cfg, s))
  {
  }

  lemma ClaimNearer(cfg: Config, s: State)
    requires WorkerReady(cfg, s) && Scans(s.worker)
    ensures Nearer(cfg, s, WorkerStep(cfg, s)) || WorkerStep(cfg, s).worker == Idle
  {
  }

  lemma BufNearer(cfg: Config, s: State)
    requires WorkerReady(cfg, s) && s.worker.BufTry?
    ensures Nearer(cfg, s, WorkerStep(cfg, s))
  {
  }

  lemma PublishNearer(cfg: Config, s: State, f: Fill, b: nat)
    requires Base(cfg, s) && WorkerReady(cfg, s) && s.worker == Publish(f, b)
    ensures Nearer(cfg, s, WorkerStep(cfg, s)) || WorkerStep(cfg, s).worker == Idle
  {
  }

  lemma CheckNearer(cfg: Config, s: State)
    requires WorkerReady(cfg, s) && s.worker.AwaitCheck?
    ensures Nearer(cfg, s, WorkerStep(cfg, s))
  {
  }

  lemma AnyNearer(cfg: Config, s: State)
    requires Base(cfg, s) && WorkerReady(cfg, s) && s.worker.AnyScan?
    ensures Nearer(cfg, s, WorkerStep(cfg, s)) || WorkerStep(cfg, s).worker == Idle
  {
  }

  lemma ParkNearer(cfg: Config, s: State)
    requires WorkerReady(cfg, s) && s.worker.Park?
    ensures Nearer(cfg, s, WorkerStep(cfg, s)) || WorkerStep(cfg, s).worker == Idle
  {
  }

  lemma ReadNearer(cfg: Config, s: State, i: nat, cont: Cont)
    requires Base(cfg, s) && WorkerReady(cfg, s) && s.worker == Read(i, cont)
    ensures Nearer(cfg, s, WorkerStep(cfg, s)) || WorkerStep(cfg, s).worker == Idle
  {
    assert SlotBase(s, i);
  }

  /** The worker has not sent more than there is, and waits for an acknowledgement only of a piece that is
      not the last. */
  ghost predicate SentOk(cfg: Config, s: State) {
    Fills(s.worker).Some? ==>
      var c := Fills(s.worker).value;
      c < |s.calls| && s.calls[c].sent <= |s.calls[c].payload| &&
      (Phase(s.worker) == 1 ==> s.calls[c].sent + cfg.bufBytes < |s.calls[c].payload|)
  }

  lemma SentStep(cfg: Config, s: State, l: Label)
    requires Base(cfg, s) && Enabled(cfg, s, l) && SentOk(cfg, s)
    ensures SentOk(cfg, Next(cfg, s, l))
  {
    if A.ByHost(l) {
      HostBeside(cfg, s, l);
    } else if l.WorkerGo? {
      SentGoes(cfg, s);
    }
  }

  lemma SentGoes(cfg: Config, s: State)
    requires Base(cfg, s) && WorkerReady(cfg, s) && SentOk(cfg, s)
    ensures SentOk(cfg, WorkerStep(cfg, s))
  {
    match s.worker
    case Read(_, _) => SentRead(cfg, s);
    case Publish(_, _) => SentPublish(cfg, s);
    case ClaimTry(_, _, _, _, _, _) => SentClaim(cfg, s);
    case Park(_, _, _) => SentPark(cfg, s);
    case _ => SentMove(cfg, s);
  }

  lemma SentRead(cfg: Config, s: State)
    requires Base(cfg, s) && WorkerReady(cfg, s) && SentOk(cfg, s) && s.worker.Read?
    ensures SentOk(cfg, WorkerStep(cfg, s))
  {
  }

  lemma SentPublish(cfg: Config, s: State)
    requires Base(cfg, s) && WorkerReady(cfg, s) && SentOk(cfg, s) && s.worker.Publish?
    ensures SentOk(cfg, WorkerStep(cfg, s))
  {
  }

  lemma SentClaim(cfg: Config, s: State)
    requires WorkerReady(cfg, s) && SentOk(cfg, s) && s.worker.ClaimTry?
    ensures SentOk(cfg, WorkerStep(cfg, s))
  {
  }

  lemma SentPark(cfg: Config, s: State)
    requires WorkerReady(cfg, s) && SentOk(cfg, s) && s.worker.Park?
    ensures SentOk(cfg, WorkerStep(cfg, s))
  {
  }

  lemma SentMove(cfg: Config, s: State)
    requires WorkerReady(cfg, s) && SentOk(cfg, s)
    requires !s.worker.Read? && !s.worker.Publish? && !s.worker.ClaimTry? && !s.worker.Park?
    ensures SentOk(cfg, WorkerStep(cfg, s))
  {
  }

  lemma {:induction false} RunSent(cfg: Config, labels: seq<Label>, trace: seq<State>, k: nat)
    requires IsRun(cfg, labels, trace) && k <= |labels|
    ensures SentOk(cfg, trace[k])
  {
    if k > 0 {
      RunSent(cfg, labels, trace, k - 1);
      A.RunBase(cfg, labels, trace, k - 1);
      assert StepAt(cfg, labels, trace, k - 1);
      SentStep(cfg, trace[k - 1], labels[k - 1]);
    }
  }

  /** A worker that cannot go on is idle or asleep. */
  lemma ReadyUnlessAsleep(cfg: Config, s: State)
    requires Base(cfg, s) && SentOk(cfg, s) && s.worker != Idle
    ensures WorkerReady(cfg, s) || A.Blocked(s)
  {
  }

  /** Left alone, from any state of any run, the worker comes to the end of its operation or goes to sleep:
      nothing it does goes round for ever. */
  lemma {:induction false} WorkerSettles(cfg: Config, labels: seq<Label>, trace: seq<State>, s: State)
      returns (labels': seq<Label>, trace': seq<State>, n: nat)
    requires R.Reaches(cfg, labels, trace, s)
    ensures labels' == labels + seq(n, _ => WorkerGo) && |trace'| == |labels'| + 1 && IsRun(cfg, labels', trace')
    ensures trace'[|labels'|].worker == Idle || A.Blocked(trace'[|labels'|])
    decreases if s.worker == Idle then 0 else 1, Answers(s), Phase(s.worker), Rest(cfg, s)
  {
    A.RunBase(cfg, labels, trace, |labels|);
    RunSent(cfg, labels, trace, |labels|);
    if s.worker == Idle || A.Blocked(s) {
      labels', trace', n := labels, trace, 0;
    } else {
      ReadyUnlessAsleep(cfg, s);
      StepNearer(cfg, s);
      var t := Next(cfg, s, WorkerGo);
      labels', trace' := R.Go(cfg, labels, trace, s, WorkerGo, t);
      assert labels' == labels + [WorkerGo];
      labels', trace', n := WorkerSettles(cfg, labels', trace', t);
      assert labels + [WorkerGo] + seq(n, _ => WorkerGo) == labels + seq(n + 1, _ => WorkerGo);
      n := n + 1;
    }
  }
}
