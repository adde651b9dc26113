/** What HORST guarantees over every run, whatever D-Bus messages and script exits arrive. */
module Guarantees {
  import opened States
  import opened Cascade
  import opened FlatStep
  import opened Runs
  import opened Reports

  // ------------------------------------------------------------ safemode

  /** Between two steps HORST is in safemode, in manualmode, or there is no emergency: the
      temperature and the battery level reported last are fine. */
  lemma EmergencySafety(args: Arguments, steps: seq<Step>)
    ensures var s := Run(args, steps).state;
      && (s.safemode != 0 || s.manualmode
          || (s.temperature != ALARM && s.batteryLevel >= s.batteryThreshold))
      && (s.safemode != 0 || LastManual(args, steps)
          || (LastTemperature(steps) != ALARM && LastBattery(args, steps) >= args.batteryThreshold))
  {
    RunInvariant(args, steps);
    StateIsReported(args, steps);
  }

  /** Safemode ends in a step exactly if the step asks for it and either manualmode is on
      or there is no emergency. */
  lemma SafemodeLeftOnPurpose(args: Arguments, steps: seq<Step>, st: Step)
    requires Run(args, steps).state.safemode != 0
    ensures var w := Run(args, steps);
            Run(args, steps + [st]).state.safemode == 0
            <==> AsksToLeave(w, st) && (w.state.manualmode || Emergency(w.state) == 0)
  {
    hide Run, Book, StepState, StepStarted;
    RunStep(args, steps, st);
    LeavesSafemode(Run(args, steps), st);
  }

  lemma LeavesSafemode(w: World, st: Step)
    requires Calm(w.state) && w.state.safemode != 0
    ensures StepState(w, st).safemode == 0
            <==> AsksToLeave(w, st) && (w.state.manualmode || Emergency(w.state) == 0)
  {
    var s := w.state;
    if st.Bus? {
      FlatSafemode(s, st.message.ToEvent());
    } else if Exits(w, st) {
      FlatSafemode(s, SafeModeSignal(0));
      FlatSafemode(s, Injected(w.actions[st.id]));
      FlatSafemode(s.(safemode := 0), SafeModeReq(true));
    }
  }

  /** Which events end with safemode off, from any state. */
  lemma FlatSafemode(s: Snapshot, e: Event)
    ensures s.safemode != 0 && !e.SafeModeSignal? && e != SafeModeReq(false)
            ==> Flat(s, e).safemode != 0
    ensures s.safemode != 0 && e in {SafeModeSignal(0), SafeModeReq(false)}
            ==> (Flat(s, e).safemode == 0 <==> s.manualmode || Emergency(s) == 0)
    ensures Flat(s, SafeModeReq(true)).safemode != 0
  {
    assert Emergency(s.(safemode := 0)) == Emergency(s);
    hide Emergency;
  }

  /** When the leave-manualmode script ends while safemode is on, safemode is on afterwards
      too, for the most urgent reason, and maneuvermode is off. Nothing else changes. */
  lemma LeaveManualmodeRearms(args: Arguments, steps: seq<Step>, st: Step)
    requires var w := Run(args, steps);
             Exits(w, st) && w.actions[st.id].LeaveManualMode? && w.state.safemode != 0
    ensures var s := Run(args, steps).state;
            var reason := if s.manualmode then 3
                          else if s.temperature == ALARM then 1
                          else if s.batteryLevel < s.batteryThreshold then 2
                          else 3;
            Run(args, steps + [st]).state == s.(safemode := reason, maneuvermode := false)
  {
    hide Run, Book, StepStarted;
    RunStep(args, steps, st);
  }

  // ---------------------------------------------------------- bookkeeping

  /** At any time between steps the map holds exactly the actions whose script is running or
      was ended by SIGTERM, and these are never both. Every id ever handed out is running, was
      killed or has finished, once, and the request of every finished shell command was
      answered exactly once, in order. */
  lemma ActionsAccounted(args: Arguments, steps: seq<Step>)
    ensures var w := Run(args, steps);
      && w.actions.Keys == w.running + w.killed && w.running !! w.killed
      && w.nextId == |w.started| == |w.running| + |w.killed| + |w.finished|
      && (forall k: nat :: k in w.running + w.killed <==> k < w.nextId && !Done(w.finished, k))
      && (forall k :: k in w.actions ==> k < w.nextId && w.actions[k] == w.started[k])
      && (forall i, j :: 0 <= i < j < |w.finished| ==> w.finished[i].id != w.finished[j].id)
      && (forall i :: 0 <= i < |w.finished| ==> w.finished[i].id < |w.started|)
      && w.replies == RepliesOf(w.started, w.finished)
  {
    RunInvariant(args, steps);
    hide Run;
    var w := Run(args, steps);
    assert |w.running + w.killed| == |w.running| + |w.killed|;
  }

  /** Ids are never reused: a longer run only appends to the lists of started actions and of
      completions, and an id whose script was killed stays killed. */
  lemma {:induction false} IdsNeverReused(args: Arguments, steps: seq<Step>, more: seq<Step>)
    ensures Run(args, steps).started <= Run(args, steps + more).started
    ensures Run(args, steps).finished <= Run(args, steps + more).finished
    ensures Run(args, steps).killed <= Run(args, steps + more).killed
    decreases |more|
  {
    hide Run, Invariant, StepState, StepStarted;
    if more == [] {
      assert steps + more == steps;
    } else {
      var init := more[..|more| - 1];
      var st := more[|more| - 1];
      IdsNeverReused(args, steps, init);
      assert steps + more == (steps + init) + [st];
      RunStep(args, steps + init, st);
    }
  }

  lemma RulesFanOut(s: Snapshot, t: Snapshot)
    ensures |LogicRules(s, t)| <= if s.ModesOff() then 2 else 0
    ensures !Pending(s) && t.payload != WANTMEASURE ==> |LogicRules(s, t)| <= 1
  {
  }

  /** One event starts at most three actions, nested tables included, if it starts from a
      calm state or asks for safemode. */
  lemma EventFanOut(s: Snapshot, e: Event)
    requires Calm(s) || e.SafeModeReq?
    ensures |Started(s, e)| <= 3
  {
    RulesFanOut(Realised(s, e), Realised(s, e));
    RulesFanOut(AfterLeop(Source(s, e), Target(s, e)), Target(s, e));
    hide LogicRules;
  }

  /** One step of a run starts at most three actions, nested tables included. */
  lemma FanOut(args: Arguments, steps: seq<Step>, st: Step)
    ensures |Run(args, steps + [st]).started| <= |Run(args, steps).started| + 3
  {
    hide Run, Book, StepState, Started;
    var w := Run(args, steps);
    RunStep(args, steps, st);
    if st.Bus? {
      EventFanOut(w.state, st.message.ToEvent());
    } else if Exits(w, st) {
      ExitFanOut(w.state, w.actions[st.id], st.exitCode == 0);
    }
  }

  lemma ExitFanOut(s: Snapshot, a: Action, success: bool)
    requires Calm(s)
    ensures |ExitStarted(s, a, success)| <= 3
  {
    hide Started;
    if Injects(s, a, success) {
      EventFanOut(Prepared(s, a), Injected(a));
    }
  }

  /** Three is attained: a run that starts in manualmode, sees an ALARM, and is then told to
      leave manualmode. */
  lemma FanOutAttained()
    ensures var args := Arguments(true, 30, DONE);
            var alarm, leave := Bus(ThmStateChange(ALARM)), Bus(SetManualmode(false));
      && Run(args, [alarm]).started == []
      && Run(args, [alarm] + [leave]).started == [LeaveManualMode, EnterSafeMode(1), TriggerDetumbling]
  {
    hide Run, Invariant, Flat, Started;
    var args := Arguments(true, 30, DONE);
    var alarm, leave := Bus(ThmStateChange(ALARM)), Bus(SetManualmode(false));
    assert [] + [alarm] == [alarm];
    RunStep(args, [], alarm);
    RunStep(args, [alarm], leave);
    EmptyRun(args);
    AlarmThenLeave(InitialState(true, 30, DONE));
  }

  lemma EmptyRun(args: Arguments)
    ensures Run(args, []) == Initial(args.startManual, args.batteryThreshold, args.leop)
  {
  }

  lemma AlarmThenLeave(s: Snapshot)
    requires s == InitialState(true, 30, DONE)
    ensures var hot := s.(temperature := ALARM);
      && Flat(s, ThmSignal(ALARM)) == hot && Started(s, ThmSignal(ALARM)) == []
      && Started(hot, ManualModeReq(false)) == [LeaveManualMode, EnterSafeMode(1), TriggerDetumbling]
  {
    var off := s.(temperature := ALARM, manualmode := false);
    assert LogicRules(off, off) == [EnterSafeMode(1), TriggerDetumbling];
  }
}
