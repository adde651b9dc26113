/** The ADCS never idles while HORST is in charge of it. */
module Pointing {
  import opened States
  import opened Cascade
  import opened FlatStep
  import opened Runs

  /** Both modes and maneuvermode are off, the satellite is deployed. */
  predicate InCharge(s: Snapshot) {
    s.safemode == 0 && !s.manualmode && !s.maneuvermode && s.leop != UNDEPLOYED
  }

  predicate PointingCare(s: Snapshot) {
    s.pointing == SUN || s.requested == SUN || s.requested == DETUMB
  }

  predicate IsTrigger(a: Action) {
    a == TriggerDetumbling || a == TriggerSunpointing
  }

  /** A trigger script is running, other than those in `except`. */
  predicate TriggerRunning(w: World, except: set<nat>) {
    exists id :: id in w.running && id !in except && id in w.actions && IsTrigger(w.actions[id])
  }

  /** HORST is not in charge, or the satellite points to the sun, or is asked to get there,
      or a script that asks for it is running. */
  predicate AdcsBusy(w: World) {
    InCharge(w.state) ==> PointingCare(w.state) || TriggerRunning(w, {})
  }

  // ------------------------------------------------------------ one event

  /** If an event ends with nothing done for pointing, it started a trigger script. */
  lemma EventTriggers(s: Snapshot, e: Event)
    requires InCharge(Flat(s, e)) && !PointingCare(Flat(s, e))
    ensures exists i :: 0 <= i < |Started(s, e)| && IsTrigger(Started(s, e)[i])
  {
    var f := Flat(s, e);
    if Nests(s, e) {
      assert f == Realised(s, e);
      assert Started(s, e) == Own(s, e) + LogicRules(f, f) + Outer(s, e);
      LastTrigger(Own(s, e), f, f, Outer(s, e));
    } else {
      var v := AfterLeop(Source(s, e), Target(s, e));
      assert f == v;
      LastTrigger(Own(s, e) + Nested(s, e), v, Target(s, e), []);
      assert Started(s, e) + [] == Started(s, e);
    }
  }

  lemma LastTrigger(before: seq<Action>, s: Snapshot, t: Snapshot, after: seq<Action>)
    requires InCharge(s) && !PointingCare(s)
    ensures var l := before + LogicRules(s, t) + after;
            exists i :: 0 <= i < |l| && IsTrigger(l[i])
  {
    var rules := LogicRules(s, t);
    var l := before + rules + after;
    assert IsTrigger(rules[|rules| - 1]);
    assert l[|before| + |rules| - 1] == rules[|rules| - 1];
  }

  // ------------------------------------------------------------- one step

  predicate RunsAs(w: World, id: nat, a: Action) {
    id in w.running && id in w.actions && w.actions[id] == a
  }

  lemma NotDoneIsRunning(w: World, id: nat)
    requires Invariant(w) && id < |w.started| && !Done(w.finished, id) && id !in w.killed
    ensures RunsAs(w, id, w.started[id])
  {
  }

  lemma NewIdNotDone(w: World, st: Step, r: World, id: nat)
    requires Invariant(w) && id >= |w.started|
    requires r.finished == w.finished + (if Exits(w, st) then [Completion(st.id, st.exitCode)] else [])
    requires r.killed == w.killed + (if Kills(w, st) then {st.id} else {})
    ensures !Done(r.finished, id) && id !in r.killed
  {
  }

  /** Whatever a step starts is running when the step ends. */
  lemma StartedAreRunning(w: World, st: Step, i: nat)
    requires Steady(w.state) && Invariant(w) && i < |StepStarted(w, st)|
    ensures RunsAs(Next(w, st), |w.started| + i, StepStarted(w, st)[i])
  {
    hide *;
    var r := Next(w, st);
    StepInvariant(w, st);
    NewIdNotDone(w, st, r, |w.started| + i);
    NotDoneIsRunning(r, |w.started| + i);
  }

  lemma SameStarted(w: World, r: World)
    requires Invariant(w) && Invariant(r) && r.started == w.started
    ensures forall id :: id in w.running && id in r.running ==>
              id in r.actions && id in w.actions && r.actions[id] == w.actions[id]
  {
    hide IdBook, RepliesOf, Calm;
  }

  lemma ExitsOne(w: World, r: World, c: Completion)
    requires Invariant(w) && Invariant(r) && r.nextId == w.nextId && c.id in w.running
    requires r.finished == w.finished + [c] && r.killed == w.killed
    ensures r.running == w.running - {c.id}
  {
    hide *;
    NeverBoth(w);
    NeverBoth(r);
    var before, after := w.running + w.killed, r.running + r.killed;
    ExitIds(before, w.finished, w.nextId, c);
    SameIds(after, before - {c.id}, r.finished, r.nextId);
    assert r.running == after - r.killed;
  }

  lemma NeverBoth(w: World)
    requires Invariant(w)
    ensures w.running !! w.killed && IdBook(w.running + w.killed, w.finished, w.nextId)
  {
  }

  lemma SameIds(ids: set<nat>, others: set<nat>, finished: seq<Completion>, nextId: nat)
    requires IdBook(ids, finished, nextId) && IdBook(others, finished, nextId)
    ensures ids == others
  {
  }

  lemma KillOnly(w: World, st: Step)
    requires Steady(w.state) && Kills(w, st)
    ensures Next(w, st) == Terminated(w, st.id) && StepStarted(w, st) == []
  {
  }

  /** A step that starts nothing only takes away the action whose script has ended. */
  lemma OthersKeepRunning(w: World, st: Step)
    requires Steady(w.state) && Invariant(w) && (Exits(w, st) || Kills(w, st)) && StepStarted(w, st) == []
    ensures var r := Next(w, st);
      && r.running == w.running - {st.id}
      && forall id :: id in r.running ==> id in r.actions && id in w.actions && r.actions[id] == w.actions[id]
  {
    hide Next, StepStarted, StepState, Invariant;
    StepInvariant(w, st);
    var r := Next(w, st);
    assert r.started == w.started;
    IdsInRange(w);
    IdsInRange(r);
    if Exits(w, st) {
      ExitsOne(w, r, Completion(st.id, st.exitCode));
    } else {
      KillOnly(w, st);
    }
    SameStarted(w, r);
  }

  lemma IdsInRange(w: World)
    requires Invariant(w)
    ensures w.nextId == |w.started|
  {
  }

  /** Does the step raise an event, so that the table runs? */
  predicate RaisesEvent(w: World, st: Step) {
    st.Bus? || (Exits(w, st) && Injects(w.state, w.actions[st.id], st.exitCode == 0))
  }

  /** Any event takes care of pointing, even if nobody did before. */
  lemma EventRestoresPointing(w: World, st: Step)
    requires Invariant(w) && RaisesEvent(w, st)
    ensures AdcsBusy(Next(w, st))
  {
    hide Next, Flat, Started, Book;
    StepInvariant(w, st);
    var r := Next(w, st);
    if InCharge(r.state) && !PointingCare(r.state) {
      if st.Bus? {
        EventTriggers(w.state, st.message.ToEvent());
      } else {
        EventTriggers(Prepared(w.state, w.actions[st.id]), Injected(w.actions[st.id]));
      }
      var i :| 0 <= i < |StepStarted(w, st)| && IsTrigger(StepStarted(w, st)[i]);
      StartedAreRunning(w, st, i);
    }
  }

  /** Does the step end a trigger script that did not do its work? */
  predicate TriggerFails(w: World, st: Step) {
    || (Exits(w, st) && IsTrigger(w.actions[st.id]) && st.exitCode != 0)
    || (Kills(w, st) && IsTrigger(w.actions[st.id]))
  }

  /** That trigger script was the last hope to get the satellite pointing. */
  predicate LastTriggerFails(w: World, st: Step) {
    && TriggerFails(w, st)
    && InCharge(w.state) && !PointingCare(w.state) && !TriggerRunning(w, {st.id})
  }

  /** A busy ADCS falls idle in exactly two ways: the last trigger script fails, or it is
      ended by SIGTERM. */
  lemma IdlesIffLastTriggerFails(w: World, st: Step)
    requires Invariant(w) && AdcsBusy(w)
    ensures AdcsBusy(Next(w, st)) <==> !LastTriggerFails(w, st)
  {
    hide Next, Flat, Started, Book, Calm, InCharge, PointingCare;
    if RaisesEvent(w, st) {
      EventRestoresPointing(w, st);
    } else if Exits(w, st) || Kills(w, st) {
      StepInvariant(w, st);
      OthersKeepRunning(w, st);
      var r := Next(w, st);
      assert TriggerRunning(r, {}) <==> TriggerRunning(w, {st.id}) by {
        if TriggerRunning(w, {st.id}) {
          var id :| id in w.running && id !in {st.id} && id in w.actions && IsTrigger(w.actions[id]);
          assert id in r.running;
        }
      }
    } else {
      StepInvariant(w, st);
      assert Next(w, st) == w by { NoStep(w, st); }
    }
  }

  lemma NoStep(w: World, st: Step)
    requires Steady(w.state) && !st.Bus? && !Exits(w, st) && !Kills(w, st)
    ensures Next(w, st) == w
  {
  }

  // ----------------------------------------------------------------- runs

  /** No trigger script of the run fails or is killed. */
  predicate TriggersSucceed(args: Arguments, steps: seq<Step>)
    decreases |steps|
  {
    steps == [] ||
    var init, st := steps[..|steps| - 1], steps[|steps| - 1];
    TriggersSucceed(args, init) && !TriggerFails(Run(args, init), st)
  }

  /** In runs where no trigger script fails or is killed, from the first D-Bus message on, the ADCS never
      idles while HORST is in charge. */
  lemma {:induction false} AdcsNeverIdles(args: Arguments, steps: seq<Step>)
    requires TriggersSucceed(args, steps)
    requires exists i :: 0 <= i < |steps| && steps[i].Bus?
    ensures AdcsBusy(Run(args, steps))
    decreases |steps|
  {
    hide Run, Next, Invariant, AdcsBusy;
    var init, st := steps[..|steps| - 1], steps[|steps| - 1];
    assert steps == init + [st];
    var w := Run(args, init);
    RunInvariant(args, init);
    RunSnoc(args, init, st);
    if st.Bus? {
      EventRestoresPointing(w, st);
    } else {
      var i :| 0 <= i < |steps| && steps[i].Bus?;
      assert init[i].Bus?;
      AdcsNeverIdles(args, init);
      IdlesIffLastTriggerFails(w, st);
    }
  }

  /** A first battery report starts detumbling. */
  lemma FirstReport(s: Snapshot)
    requires s == InitialState(false, 30, DONE)
    ensures var e := EpsSignal(50);
            Flat(s, e) == s.(batteryLevel := 50) && Started(s, e) == [TriggerDetumbling]
  {
    var u := s.(batteryLevel := 50);
    assert LogicRules(u, u) == [TriggerDetumbling];
  }

  lemma AfterFirstReport(w: World)
    requires w == Initial(false, 30, DONE) && Steady(w.state) && Invariant(w)
    ensures var r := Next(w, Bus(EpsChargeStateChange(50)));
      && r.state == w.state.(batteryLevel := 50)
      && r.started == [TriggerDetumbling] && r.finished == []
      && RunsAs(r, 0, TriggerDetumbling)
  {
    hide Next, Flat, Started, Invariant;
    var st := Bus(EpsChargeStateChange(50));
    FirstReport(w.state);
    StepInvariant(w, st);
    StartedAreRunning(w, st, 0);
  }

  /** The first trigger is the only one running. */
  lemma OnlyTrigger(w: World)
    requires Invariant(w) && RunsAs(w, 0, TriggerDetumbling) && |w.started| == 1
    ensures Exits(w, Exit(0, 1)) && Kills(w, Killed(0)) && !TriggerRunning(w, {0})
  {
    hide IdBook, RepliesOf, Calm;
  }

  /** With a failing script the promise does not hold: nobody retries until the next event.
      The same goes for a script that is killed, and its action is never removed. */
  lemma FailedTriggerIdles()
    ensures var args := Arguments(false, 30, DONE);
            var report := Bus(EpsChargeStateChange(50));
            AdcsBusy(Run(args, [report]))
            && !AdcsBusy(Run(args, [report] + [Exit(0, 1)]))
            && !AdcsBusy(Run(args, [report] + [Killed(0)]))
            && 0 in Run(args, [report] + [Killed(0)]).actions
  {
    hide Next, Invariant, AdcsBusy, Exits, Kills, TriggerRunning;
    var args := Arguments(false, 30, DONE);
    var report := Bus(EpsChargeStateChange(50));
    assert [] + [report] == [report];
    RunInvariant(args, []);
    RunSnoc(args, [], report);
    RunSnoc(args, [report], Exit(0, 1));
    RunSnoc(args, [report], Killed(0));
    AfterFirstReport(Run(args, []));
    EventRestoresPointing(Run(args, []), report);
    RunInvariant(args, [report]);
    OnlyTrigger(Run(args, [report]));
    IdlesIffLastTriggerFails(Run(args, [report]), Exit(0, 1));
    IdlesIffLastTriggerFails(Run(args, [report]), Killed(0));
    KillOnly(Run(args, [report]), Killed(0));
  }
}
