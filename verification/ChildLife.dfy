/** A spawned child's life as a transition function over events that arrive in any order, any number of
    times (`childLife.ts`), and what every finite sequence of events makes it do. */
module ChildLife {
  import opened Options

  datatype Event =
    | Ready
    | Result(ok: bool, code: int)
    | Error(message: string)
    | Grace
    | Kill

  /** Why `loaded` settled. The source keeps a text; `Text` gives it. */
  datatype Why = Did | Died(message: string) | TooLate | Killed

  datatype State = State(started: bool, loaded: Option<Why>, exited: Option<int>, shutDown: bool)

  datatype Effect =
    | SettleLoaded(why: Why)
    | SettleExit(code: int)
    | Shutdown
    | SayOnStderr(line: string)

  datatype Step = Step(state: State, effects: seq<Effect>)

  const KILLED := "the child was killed before it reported ready"

  function Text(w: Why): string {
    match w
    case Did => ""
    case Died(message) => message
    case TooLate => "did not report ready within the grace"
    case Killed => KILLED
  }

  function Newborn(): State {
    State(false, None, None, false)
  }

  function Settle(s: Step, why: Why): Step {
    if s.state.loaded.Some? then s
    else Step(s.state.(loaded := Some(why)), s.effects + [SettleLoaded(why)])
  }

  /** The streams close and the exit settles, in that order. */
  function Finish(s: Step, code: int): Step {
    if s.state.exited.Some? then s
    else
      var l := Settle(s, if s.state.started then Did else Killed);
      var d := if l.state.shutDown then l else Step(l.state.(shutDown := true), l.effects + [Shutdown]);
      Step(d.state.(exited := Some(code)), d.effects + [SettleExit(code)])
  }

  function Start(s: Step): Step {
    s.(state := s.state.(started := true))
  }

  function Say(s: Step, line: string): Step {
    s.(effects := s.effects + [SayOnStderr(line)])
  }

  /** What one event does to a child, after the effects so far. */
  function Apply(s: Step, e: Event): Step {
    match e
    case Ready => Start(Settle(s, Did))
    case Result(ok, code) =>
      var l := Start(Settle(s, Did));
      Finish(if ok then l else Say(l, "wac: <result error>"), if ok then code else -1)
    case Error(message) =>
      var l := Settle(s, Died(message));
      Finish(if l.state.started then Say(l, "wac: " + message) else l, -1)
    case Grace => if s.state.started then s else Settle(s, TooLate)
    case Kill => Finish(s, -1)
  }

  /** One event, one step: the source's `step`. */
  function Transition(state: State, e: Event): Step {
    Apply(Step(state, []), e)
  }

  /** A whole life: the state after `events`, and every effect so far. */
  function Run(events: seq<Event>): Step {
    if events == [] then Step(Newborn(), [])
    else
      var before := Run(events[..|events| - 1]);
      var now := Transition(before.state, events[|events| - 1]);
      Step(now.state, before.effects + now.effects)
  }

  // ---- What the events alone decide -----------------------------------------------------------

  /** The child is gone after this. */
  predicate Ends(e: Event) {
    e.Result? || e.Error? || e.Kill?
  }

  function CodeOf(e: Event): int {
    if e.Result? && e.ok then e.code else -1
  }

  /** How many events come before the first that ends the child. */
  function FirstEnd(events: seq<Event>): (n: nat)
    ensures n <= |events| && (n < |events| ==> Ends(events[n])) && forall k :: 0 <= k < n ==> !Ends(events[k])
  {
    if events == [] || Ends(events[0]) then 0 else 1 + FirstEnd(events[1..])
  }

  predicate Gone(events: seq<Event>) {
    FirstEnd(events) < |events|
  }

  predicate Started(events: seq<Event>) {
    exists k :: 0 <= k < |events| && (events[k].Ready? || events[k].Result?)
  }

  /** What a newborn child's first event says about loading. */
  function WhyOf(first: Event): Why {
    match first
    case Ready => Did
    case Result(_, _) => Did
    case Error(message) => Died(message)
    case Grace => TooLate
    case Kill => Killed
  }

  lemma FirstEndGrows(events: seq<Event>)
    requires events != []
    ensures var was := events[..|events| - 1];
      FirstEnd(events) == if Gone(was) || Ends(events[|events| - 1]) then FirstEnd(was) else |events|
  {
    var was, n := events[..|events| - 1], FirstEnd(events);
    assert forall k :: 0 <= k < |was| ==> events[k] == was[k];
    assert n < |was| ==> Ends(was[n]);
    assert FirstEnd(was) < |was| ==> Ends(events[FirstEnd(was)]);
  }

  lemma StartedGrows(events: seq<Event>)
    requires events != []
    ensures var was, e := events[..|events| - 1], events[|events| - 1];
      Started(events) <==> Started(was) || e.Ready? || e.Result?
  {
    var was, e := events[..|events| - 1], events[|events| - 1];
    assert events == was + [e];
    if Started(was) {
      var k :| 0 <= k < |was| && (was[k].Ready? || was[k].Result?);
      assert events[k] == was[k];
    }
  }

  /** The state after any events: the first event settles `loaded`, the first ending one decides the
      exit code and shuts the child down, and nothing afterwards changes either. */
  lemma {:induction false} StateIs(events: seq<Event>)
    ensures Run(events).state == State(
      Started(events),
      if events == [] then None else Some(WhyOf(events[0])),
      if Gone(events) then Some(CodeOf(events[FirstEnd(events)])) else None,
      Gone(events))
  {
    if events != [] {
      var was, e := events[..|events| - 1], events[|events| - 1];
      StateIs(was);
      FirstEndGrows(events);
      StartedGrows(events);
      if was != [] {
        assert was[0] == events[0];
      }
      if Gone(was) {
        assert was[FirstEnd(was)] == events[FirstEnd(was)];
      }
    }
  }

  // ---- The effects ----------------------------------------------------------------------------

  /** No effect happens twice, and the exit settles after `loaded` has and the streams are ended. */
  ghost predicate Orderly(t: seq<Effect>) {
    forall i, j {:trigger t[i], t[j]} :: 0 <= i < |t| && 0 <= j < |t| ==>
      (t[i].SettleLoaded? && t[j].SettleLoaded? ==> i == j) &&
      (t[i].Shutdown? && t[j].Shutdown? ==> i == j) &&
      (t[i].SettleExit? && t[j].SettleExit? ==> i == j) &&
      (t[i].SettleExit? && (t[j].SettleLoaded? || t[j].Shutdown?) ==> j < i)
  }

  /** The effects say exactly what the state says. */
  ghost predicate Agrees(s: State, t: seq<Effect>) {
    (forall w :: s.loaded == Some(w) <==> SettleLoaded(w) in t) &&
    (forall c :: s.exited == Some(c) <==> SettleExit(c) in t) &&
    (s.shutDown <==> Shutdown in t)
  }

  ghost predicate Sound(s: Step) {
    Orderly(s.effects) && Agrees(s.state, s.effects) &&
    (s.state.exited.Some? ==> s.state.loaded.Some? && s.state.shutDown)
  }

  lemma SettleSound(s: Step, why: Why)
    requires Sound(s)
    ensures Sound(Settle(s, why)) && Settle(s, why).state.loaded.Some?
  {
    if s.state.loaded == None {
      assert s.state.exited == None;
      AppendSound(s.effects, SettleLoaded(why));
    }
  }

  lemma AppendSound(t: seq<Effect>, e: Effect)
    requires Orderly(t)
    requires forall i :: 0 <= i < |t| ==>
      (e.SettleLoaded? ==> !t[i].SettleLoaded? && !t[i].SettleExit?) &&
      (e.Shutdown? ==> !t[i].Shutdown? && !t[i].SettleExit?) &&
      (e.SettleExit? ==> !t[i].SettleExit?)
    ensures Orderly(t + [e]) && forall x :: x in t + [e] <==> x in t || x == e
  {
  }

  lemma FinishSound(s: Step, code: int)
    requires Sound(s)
    ensures Sound(Finish(s, code))
  {
    if s.state.exited == None {
      var l := Settle(s, if s.state.started then Did else Killed);
      SettleSound(s, if s.state.started then Did else Killed);
      if !l.state.shutDown {
        AppendSound(l.effects, Shutdown);
        AppendSound(l.effects + [Shutdown], SettleExit(code));
      } else {
        AppendSound(l.effects, SettleExit(code));
      }
    }
  }

  lemma SaySound(s: Step, line: string)
    requires Sound(s)
    ensures Sound(Say(s, line))
  {
    AppendSound(s.effects, SayOnStderr(line));
  }

  lemma ApplySound(s: Step, e: Event)
    requires Sound(s)
    ensures Sound(Apply(s, e))
  {
    match e
    case Ready => SettleSound(s, Did);
    case Result(ok, code) =>
      SettleSound(s, Did);
      var l := Start(Settle(s, Did));
      SaySound(l, "wac: <result error>");
      FinishSound(if ok then l else Say(l, "wac: <result error>"), if ok then code else -1);
    case Error(message) =>
      SettleSound(s, Died(message));
      var l := Settle(s, Died(message));
      SaySound(l, "wac: " + message);
      FinishSound(if l.state.started then Say(l, "wac: " + message) else l, -1);
    case Grace => SettleSound(s, TooLate);
    case Kill => FinishSound(s, -1);
  }

  /** The same step taken with other effects before it. */
  function After(before: seq<Effect>, s: Step): Step {
    s.(effects := before + s.effects)
  }

  lemma SettleAfter(before: seq<Effect>, s: Step, why: Why)
    ensures Settle(After(before, s), why) == After(before, Settle(s, why))
  {
    assert before + (s.effects + [SettleLoaded(why)]) == before + s.effects + [SettleLoaded(why)];
  }

  lemma FinishAfter(before: seq<Effect>, s: Step, code: int)
    ensures Finish(After(before, s), code) == After(before, Finish(s, code))
  {
    var l := Settle(s, if s.state.started then Did else Killed);
    SettleAfter(before, s, if s.state.started then Did else Killed);
    assert before + (l.effects + [Shutdown]) == before + l.effects + [Shutdown];
    assert before + (l.effects + [Shutdown] + [SettleExit(code)]) ==
      before + l.effects + [Shutdown] + [SettleExit(code)];
    assert before + (l.effects + [SettleExit(code)]) == before + l.effects + [SettleExit(code)];
  }

  lemma SayAfter(before: seq<Effect>, s: Step, line: string)
    ensures Say(After(before, s), line) == After(before, Say(s, line))
  {
    assert before + (s.effects + [SayOnStderr(line)]) == before + s.effects + [SayOnStderr(line)];
  }

  /** The effects of a step do not depend on the effects before it. */
  lemma ApplyAfter(before: seq<Effect>, s: Step, e: Event)
    ensures Apply(After(before, s), e) == After(before, Apply(s, e))
  {
    match e
    case Ready => SettleAfter(before, s, Did);
    case Result(ok, code) =>
      SettleAfter(before, s, Did);
      var l := Start(Settle(s, Did));
      SayAfter(before, l, "wac: <result error>");
      FinishAfter(before, if ok then l else Say(l, "wac: <result error>"), if ok then code else -1);
    case Error(message) =>
      SettleAfter(before, s, Died(message));
      var l := Settle(s, Died(message));
      SayAfter(before, l, "wac: " + message);
      FinishAfter(before, if l.state.started then Say(l, "wac: " + message) else l, -1);
    case Grace => SettleAfter(before, s, TooLate);
    case Kill => FinishAfter(before, s, -1);
  }

  lemma {:induction false} RunSound(events: seq<Event>)
    ensures Sound(Run(events))
  {
    if events != [] {
      var was, e := events[..|events| - 1], events[|events| - 1];
      RunSound(was);
      ApplySound(Run(was), e);
      assert After(Run(was).effects, Step(Run(was).state, [])) == Run(was);
      ApplyAfter(Run(was).effects, Step(Run(was).state, []), e);
    }
  }

  /** Every life, whatever the order of its events: `loaded`, the shutdown and the exit each happen at
      most once, the exit last; `loaded` settles with the first event and with what it says; the
      shutdown and the exit happen exactly when some event has ended the child, and the first such
      event fixes the code. */
  lemma Life(events: seq<Event>)
    ensures Orderly(Run(events).effects)
    ensures forall w :: SettleLoaded(w) in Run(events).effects <==> events != [] && w == WhyOf(events[0])
    ensures forall c :: SettleExit(c) in Run(events).effects <==> Gone(events) && c == CodeOf(events[FirstEnd(events)])
    ensures Shutdown in Run(events).effects <==> Gone(events)
  {
    RunSound(events);
    StateIs(events);
  }

  /** Nothing is taken back: what a life has done stays at the front of what it does. */
  lemma {:induction false} EffectsStay(events: seq<Event>, k: nat)
    requires k <= |events|
    ensures Run(events[..k]).effects <= Run(events).effects
  {
    if k < |events| {
      EffectsStay(events[..|events| - 1], k);
      assert events[..|events| - 1][..k] == events[..k];
    } else {
      assert events[..k] == events;
    }
  }

  // ---- The child's standard error -------------------------------------------------------------

  /** The lines said while the streams were open. */
  function Heard(t: seq<Effect>): seq<string> {
    if t == [] || t[0].Shutdown? then []
    else (if t[0].SayOnStderr? then [t[0].line] else []) + Heard(t[1..])
  }

  lemma {:induction false} HeardConcat(t: seq<Effect>, u: seq<Effect>)
    ensures Heard(t + u) == if Shutdown in t then Heard(t) else Heard(t) + Heard(u)
  {
    if t == [] {
      assert t + u == u;
    } else if !t[0].Shutdown? {
      HeardConcat(t[1..], u);
      assert (t + u)[1..] == t[1..] + u;
      assert Shutdown in t <==> Shutdown in t[1..];
    }
  }

  /** What the first ending event puts on standard error, given whether the child had started. */
  function LastWords(e: Event, started: bool): seq<string> {
    match e
    case Result(ok, _) => if ok then [] else ["wac: <result error>"]
    case Error(message) => if started then ["wac: " + message] else []
    case _ => []
  }

  /** With the streams still open, only a line said is heard. */
  lemma HeardParts(s: Step, why: Why, line: string, code: int)
    requires Shutdown !in s.effects
    ensures Heard(Settle(s, why).effects) == Heard(s.effects) && Shutdown !in Settle(s, why).effects
    ensures Heard(Say(s, line).effects) == Heard(s.effects) + [line] && Shutdown !in Say(s, line).effects
    ensures Heard(s.effects + [Shutdown] + [SettleExit(code)]) == Heard(s.effects)
  {
    HeardNext(s.effects, SettleLoaded(why));
    HeardNext(s.effects, SayOnStderr(line));
    HeardNext(s.effects, Shutdown);
    HeardConcat(s.effects + [Shutdown], [SettleExit(code)]);
  }

  lemma HeardNext(t: seq<Effect>, e: Effect)
    requires Shutdown !in t
    ensures Heard(t + [e]) == if e.SayOnStderr? then Heard(t) + [e.line] else Heard(t)
  {
    HeardConcat(t, [e]);
    assert [e][1..] == [];
  }

  lemma HeardFinish(s: Step, code: int)
    requires Shutdown !in s.effects && !s.state.shutDown
    ensures Heard(Finish(s, code).effects) == Heard(s.effects)
  {
    var why := if s.state.started then Did else Killed;
    HeardParts(s, why, "", code);
    HeardParts(Settle(s, why), why, "", code);
  }

  lemma HeardOne(s: State, e: Event)
    requires !s.shutDown && s.exited == None
    ensures Heard(Transition(s, e).effects) == LastWords(e, s.started)
  {
    var z := Step(s, []);
    match e
    case Ready => HeardParts(z, Did, "", 0);
    case Result(ok, code) =>
      HeardParts(z, Did, "", 0);
      var l := Start(Settle(z, Did));
      HeardParts(l, Did, "wac: <result error>", 0);
      HeardFinish(if ok then l else Say(l, "wac: <result error>"), if ok then code else -1);
    case Error(message) =>
      HeardParts(z, Died(message), "", 0);
      var l := Settle(z, Died(message));
      HeardParts(l, Did, "wac: " + message, 0);
      HeardFinish(if l.state.started then Say(l, "wac: " + message) else l, -1);
    case Grace => HeardParts(z, TooLate, "", 0);
    case Kill => HeardFinish(z, -1);
  }

  /** At most one line is ever heard, and the first ending event decides it. */
  lemma {:induction false} HeardIs(events: seq<Event>)
    ensures Heard(Run(events).effects) ==
      if Gone(events) then LastWords(events[FirstEnd(events)], Started(events[..FirstEnd(events)])) else []
  {
    if events != [] {
      var was, e := events[..|events| - 1], events[|events| - 1];
      HeardIs(was);
      StateIs(was);
      Life(was);
      HeardConcat(Run(was).effects, Transition(Run(was).state, e).effects);
      FirstEndGrows(events);
      if Gone(was) {
        assert was[FirstEnd(was)] == events[FirstEnd(was)] && was[..FirstEnd(was)] == events[..FirstEnd(was)];
      } else {
        HeardOne(Run(was).state, e);
        if Ends(e) {
          assert events[..FirstEnd(events)] == was;
        }
      }
    }
  }

  /** A child that dies is heard about, as the cause of a failed load or as a line on its standard
      error, exactly when it died first thing or had reported ready. After a grace that expired and
      before any `ready`, the reason is lost. */
  lemma DeathReported(events: seq<Event>)
    requires Gone(events) && events[FirstEnd(events)].Error?
    ensures var n := FirstEnd(events);
      var m := events[n].message;
      (Run(events).state.loaded == Some(Died(m)) || Heard(Run(events).effects) == ["wac: " + m]) <==>
      (n == 0 || exists k :: 0 <= k < n && events[k].Ready?)
  {
    var n := FirstEnd(events);
    StateIs(events);
    HeardIs(events);
    if Started(events[..n]) {
      var k :| 0 <= k < n && (events[..n][k].Ready? || events[..n][k].Result?);
      assert events[k].Ready?;
    }
    if k :| 0 <= k < n && events[k].Ready? {
      assert events[..n][k].Ready?;
    }
    if n > 0 {
      assert !Ends(events[0]);
    }
  }

  /** Such a child: the grace expires, then it dies with a message that nobody hears. */
  lemma ReasonLost(message: string)
    ensures var end := Run([Grace, Error(message)]);
      end.state.loaded == Some(TooLate) && Heard(end.effects) == [] && end.state.exited == Some(-1)
  {
    var events := [Grace, Error(message)];
    assert events[..1] == [Grace] && [Grace][..0] == [];
    assert Run([Grace]).state.loaded == Some(TooLate);
    HeardIs(events);
    StateIs(events);
  }

  /** The text "" is meant to say that the child loaded. It does, but for a death without a message. */
  lemma EmptyTextMeansLoaded(events: seq<Event>)
    requires events != []
    ensures Run(events).state.loaded.Some?
    ensures Text(Run(events).state.loaded.value) == "" <==>
      events[0].Ready? || events[0].Result? || events[0] == Error("")
  {
    StateIs(events);
  }
}
