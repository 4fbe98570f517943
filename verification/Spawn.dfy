/** `spawnChild` (`children.ts`): the lifecycle done by hand, with flags, a timer and two promises that
    settle once, and the proof that it refines the transition function of `ChildLife`. */
module Spawn {
  import opened Options
  import L = ChildLife

  /** What the runtime and the caller deliver. A thrown result carries its error text. */
  datatype Notice =
    | Ready
    | Returned(code: int)
    | Threw(error: string)
    | WorkerError(message: string)
    | TimerDue
    | KillAsked

  function EventOf(n: Notice): L.Event {
    match n
    case Ready => L.Ready
    case Returned(code) => L.Result(true, code)
    case Threw(_) => L.Result(false, -1)
    case WorkerError(message) => L.Error(message)
    case TimerDue => L.Grace
    case KillAsked => L.Kill
  }

  function Events(notices: seq<Notice>): (es: seq<L.Event>)
    ensures |es| == |notices| && forall k :: 0 <= k < |es| ==> es[k] == EventOf(notices[k])
  {
    seq(|notices|, k requires 0 <= k < |notices| => EventOf(notices[k]))
  }

  /** The text before the first line feed. */
  function FirstLine(s: string): (r: string)
    ensures r <= s && '\n' !in r && (r == s || s[|r|] == '\n')
  {
    if s == "" || s[0] == '\n' then "" else [s[0]] + FirstLine(s[1..])
  }

  lemma FirstLineIs(s: string, r: string)
    requires r <= s && '\n' !in r && (r == s || s[|r|] == '\n')
    ensures FirstLine(s) == r
  {
    if r != "" {
      FirstLineIs(s[1..], r[1..]);
    }
  }

  /** The line the runtime puts on the child's standard error: one line, and labelled. */
  function Line(reason: string): string {
    "wac: " + FirstLine(reason) + "\n"
  }

  /** `loaded`'s text for each cause; only the grace's differs from the model's. */
  function Words(w: L.Why, late: string): string {
    if w.TooLate? then late else L.Text(w)
  }

  function WordsOf(w: Option<L.Why>, late: string): Option<string> {
    match w
    case None => None
    case Some(why) => Some(Words(why, late))
  }

  /** What the runtime adds to the child's standard error, decided by the first notice that ends it. */
  function Diagnosis(notices: seq<Notice>): seq<string> {
    var es := Events(notices);
    var n := L.FirstEnd(es);
    if n == |es| then [] else Parting(notices[n], L.Started(es[..n]))
  }

  class Child {
    /** The text the readiness timer settles `loaded` with. */
    const late: string
    var stopped: bool
    var started: bool
    var timer: bool
    var loaded: Option<string>
    var exit: Option<int>
    var outEnded: bool
    var errEnded: bool
    var said: seq<string>
    var responderStops: nat
    var terminations: nat

    /** Where the transition function stands, and everything delivered so far. */
    ghost var model: L.State
    ghost var history: seq<Notice>

    /** Every field is what the model's state says. */
    ghost predicate Fits()
      reads this
    {
      started == model.started && stopped == model.shutDown && exit == model.exited &&
      loaded == WordsOf(model.loaded, late) && timer == loaded.None? &&
      outEnded == stopped && errEnded == stopped &&
      responderStops == (if stopped then 1 else 0) && terminations == (if stopped then 1 else 0) &&
      (exit.Some? <==> stopped) && (started || stopped ==> loaded.Some?)
    }

    /** And the model's state, like the lines on standard error, is decided by what was delivered. */
    ghost predicate Valid()
      reads this
    {
      Fits() && model == L.Run(Events(history)).state && said == Diagnosis(history)
    }

    constructor (graceText: string)
      ensures Valid() && history == [] && late == graceText
    {
      late := graceText;
      stopped, started, timer, loaded, exit := false, false, true, None, None;
      outEnded, errEnded, said, responderStops, terminations := false, false, [], 0, 0;
      model, history := L.Newborn(), [];
    }

    method Shutdown()
      modifies this`stopped, this`outEnded, this`errEnded, this`responderStops, this`terminations
      ensures stopped
      ensures if old(stopped) then
                outEnded == old(outEnded) && errEnded == old(errEnded) &&
                responderStops == old(responderStops) && terminations == old(terminations)
              else
                outEnded && errEnded && responderStops == old(responderStops) + 1 &&
                terminations == old(terminations) + 1
    {
      if stopped { return; }
      stopped := true;
      responderStops := responderStops + 1;
      terminations := terminations + 1;
      outEnded := true;
      errEnded := true;
    }

    /** Resolving a promise a second time does nothing. */
    method SettleLoaded(why: string)
      modifies this`loaded
      ensures loaded == if old(loaded).Some? then old(loaded) else Some(why)
    {
      if loaded.None? { loaded := Some(why); }
    }

    method SettleExit(code: int)
      modifies this`exit
      ensures exit == if old(exit).Some? then old(exit) else Some(code)
    {
      if exit.None? { exit := Some(code); }
    }

    method Done(why: string)
      modifies this`timer, this`loaded
      ensures !timer && loaded == if old(loaded).Some? then old(loaded) else Some(why)
    {
      timer := false;
      SettleLoaded(why);
    }

    /** `endWith`: one last line, unless the stream has ended already. */
    method EndErrWith(line: string)
      modifies this`errEnded, this`said
      ensures errEnded && said == if old(errEnded) then old(said) else old(said) + [line]
    {
      if !errEnded { said := said + [line]; }
      errEnded := true;
    }

    method OnReady()
      requires Fits()
      modifies this
      ensures Fits() && history == old(history) && model == L.Transition(old(model), EventOf(Ready)).state
      ensures said == old(said) + if old(stopped) then [] else Parting(Ready, old(started))
    {
      Done("");
      started := true;
      model := L.Transition(model, EventOf(Ready)).state;
    }

    method OnReturned(code: int)
      requires Fits()
      modifies this
      ensures Fits() && history == old(history) && model == L.Transition(old(model), EventOf(Returned(code))).state
      ensures said == old(said) + if old(stopped) then [] else Parting(Returned(code), old(started))
    {
      Done("");
      started := true;
      Shutdown();
      SettleExit(code);
      model := L.Transition(model, EventOf(Returned(code))).state;
    }

    method OnThrew(error: string)
      requires Fits()
      modifies this
      ensures Fits() && history == old(history) && model == L.Transition(old(model), EventOf(Threw(error))).state
      ensures said == old(said) + if old(stopped) then [] else Parting(Threw(error), old(started))
    {
      Done("");
      started := true;
      EndErrWith(Line(error));
      Shutdown();
      SettleExit(-1);
      model := L.Transition(model, EventOf(Threw(error))).state;
    }

    method OnError(message: string)
      requires Fits()
      modifies this
      ensures Fits() && history == old(history) &&
        model == L.Transition(old(model), EventOf(WorkerError(message))).state
      ensures said == old(said) + if old(stopped) then [] else Parting(WorkerError(message), old(started))
    {
      Done(message);
      if started {
        EndErrWith(Line(message));
      }
      Shutdown();
      SettleExit(-1);
      model := L.Transition(model, EventOf(WorkerError(message))).state;
    }

    /** The deadline passes. A timer that was cleared or has fired calls nobody. */
    method OnTimer()
      requires Fits()
      modifies this
      ensures Fits() && history == old(history) && model == L.Transition(old(model), EventOf(TimerDue)).state
      ensures said == old(said) + if old(stopped) then [] else Parting(TimerDue, old(started))
    {
      if timer {
        timer := false;
        SettleLoaded(late);
      }
      model := L.Transition(model, EventOf(TimerDue)).state;
    }

    method Kill()
      requires Fits()
      modifies this
      ensures Fits() && history == old(history) && model == L.Transition(old(model), EventOf(KillAsked)).state
      ensures said == old(said) + if old(stopped) then [] else Parting(KillAsked, old(started))
    {
      Done(if started then "" else L.KILLED);
      Shutdown();
      SettleExit(-1);
      model := L.Transition(model, EventOf(KillAsked)).state;
    }

    /** Whatever is delivered, the flags, the timer and the promises stay where the model is. */
    method Deliver(n: Notice)
      requires Valid()
      modifies this
      ensures Valid() && history == old(history) + [n]
    {
      Grow(history, n);
      match n {
        case Ready => OnReady();
        case Returned(code) => OnReturned(code);
        case Threw(error) => OnThrew(error);
        case WorkerError(message) => OnError(message);
        case TimerDue => OnTimer();
        case KillAsked => Kill();
      }
      history := history + [n];
    }
  }

  /** What one more notice does to the model, in the terms `Child.Valid` compares. */
  lemma Grow(history: seq<Notice>, n: Notice)
    ensures var es := Events(history);
      L.Run(Events(history + [n])).state == L.Transition(L.Run(es).state, EventOf(n)).state &&
      Diagnosis(history + [n]) ==
        Diagnosis(history) + if L.Run(es).state.shutDown then [] else Parting(n, L.Run(es).state.started)
  {
    var es, fs, f := Events(history), Events(history + [n]), L.FirstEnd(Events(history));
    assert fs == es + [EventOf(n)];
    assert fs[..|fs| - 1] == es;
    L.StateIs(es);
    L.FirstEndGrows(fs);
    assert fs[..f] == es[..f];
    assert es[..|es|] == es;
    assert forall k :: 0 <= k < |history| ==> (history + [n])[k] == history[k];
  }

  /** The line a notice that ends the child adds. */
  function Parting(n: Notice, started: bool): seq<string> {
    match n
    case Threw(error) => [Line(error)]
    case WorkerError(message) => if started then [Line(message)] else []
    case _ => []
  }

  /** What `loaded` says, by the first notice. */
  function FirstWords(n: Notice, late: string): string {
    match n
    case Ready => ""
    case Returned(_) => ""
    case Threw(_) => ""
    case WorkerError(message) => message
    case TimerDue => late
    case KillAsked => "the child was killed before it reported ready"
  }

  predicate Last(n: Notice) {
    n.Returned? || n.Threw? || n.WorkerError? || n.KillAsked?
  }

  /** What everybody who holds a child is told: its loading by the first notice; and by the first notice
      that ends it the exit code, and the line on standard error: labelled, cut at the first line feed, for
      a death only if the child had started. */
  lemma WhatIsTold(c: Child, n: nat)
    requires c.Valid() && n < |c.history| && Last(c.history[n]) && forall k :: 0 <= k < n ==> !Last(c.history[k])
    ensures c.loaded == Some(FirstWords(c.history[0], c.late))
    ensures c.exit == Some(if c.history[n].Returned? then c.history[n].code else -1)
    ensures match c.history[n]
      case Threw(error) => c.said == ["wac: " + FirstLine(error) + "\n"]
      case WorkerError(message) =>
        c.said == if exists k :: 0 <= k < n && c.history[k].Ready? then ["wac: " + FirstLine(message) + "\n"] else []
      case _ => c.said == []
  {
    var es := Events(c.history);
    L.StateIs(es);
    var m := L.FirstEnd(es);
    assert forall k :: 0 <= k < |es| ==> (Last(c.history[k]) <==> L.Ends(es[k]));
    assert m == n;
    if k :| 0 <= k < n && c.history[k].Ready? {
      assert es[..n][k].Ready?;
    }
    if L.Started(es[..n]) {
      var k :| 0 <= k < n && (es[..n][k].Ready? || es[..n][k].Result?);
      assert c.history[k].Ready?;
    }
  }

  /** Before any such notice there is no exit and no line. */
  lemma NothingToldYet(c: Child)
    requires c.Valid() && forall k :: 0 <= k < |c.history| ==> !Last(c.history[k])
    ensures c.exit == None && c.said == []
    ensures c.loaded == if c.history == [] then None else Some(FirstWords(c.history[0], c.late))
  {
    var es := Events(c.history);
    L.StateIs(es);
    assert forall k :: 0 <= k < |es| ==> (Last(c.history[k]) <==> L.Ends(es[k]));
  }

  /** Any notices at all, in any order: the child ends up where the model does. */
  method Replay(notices: seq<Notice>, graceText: string) returns (c: Child)
    ensures fresh(c) && c.Valid() && c.history == notices && c.late == graceText
  {
    c := new Child(graceText);
    for i := 0 to |notices|
      invariant fresh(c) && c.Valid() && c.history == notices[..i] && c.late == graceText
    {
      assert notices[..i + 1] == notices[..i] + [notices[i]];
      c.Deliver(notices[i]);
    }
    assert notices[..|notices|] == notices;
  }

  /** The runtime adds a line exactly when the model has one heard, and for a death it is the first line
      of the model's. A line the model says after the streams have ended reaches nobody in either. */
  lemma DiagnosisIsHeard(notices: seq<Notice>)
    ensures var heard := L.Heard(L.Run(Events(notices)).effects);
      |Diagnosis(notices)| == |heard| <= 1 &&
      (heard != [] && notices[L.FirstEnd(Events(notices))].WorkerError? ==>
        Diagnosis(notices) == [FirstLine(heard[0]) + "\n"])
  {
    var es := Events(notices);
    L.HeardIs(es);
    var n := L.FirstEnd(es);
    if n < |es| && notices[n].WorkerError? {
      LineOf(notices[n].message);
    }
  }

  lemma LineOf(message: string)
    ensures Line(message) == FirstLine("wac: " + message) + "\n"
  {
    var r := "wac: " + FirstLine(message);
    assert FirstLine(message) != message ==> ("wac: " + message)[|r|] == message[|FirstLine(message)|];
    FirstLineIs("wac: " + message, r);
  }
}
