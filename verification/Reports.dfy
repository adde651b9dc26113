/** The state HORST is in is what was reported and asked for over D-Bus, field by field, and
    what its own scripts have achieved. The functions below read the messages and the
    completions of a run, and nothing else of it. */
module Reports {
  import opened States
  import opened Cascade
  import opened FlatStep
  import opened Runs

  // ------------------------------------------------- what was reported last

  function LastBattery(args: Arguments, steps: seq<Step>): uint16 {
    if steps == [] then args.batteryThreshold
    else
      match steps[|steps| - 1]
      case Bus(EpsChargeStateChange(battery)) => battery
      case _ => LastBattery(args, steps[..|steps| - 1])
  }

  function LastTemperature(steps: seq<Step>): Temperature {
    if steps == [] then WARN
    else
      match steps[|steps| - 1]
      case Bus(ThmStateChange(temperature)) => temperature
      case _ => LastTemperature(steps[..|steps| - 1])
  }

  function LastLeop(args: Arguments, steps: seq<Step>): Leop {
    if steps == [] then args.leop
    else
      match steps[|steps| - 1]
      case Bus(LeopStateChange(leop)) => leop
      case _ => LastLeop(args, steps[..|steps| - 1])
  }

  function LastManual(args: Arguments, steps: seq<Step>): bool {
    if steps == [] then args.startManual
    else
      match steps[|steps| - 1]
      case Bus(SetManualmode(on)) => on
      case _ => LastManual(args, steps[..|steps| - 1])
  }

  // ------------------------------------------------- what scripts have done

  /** The script of an action `a` ends in this step, with success or without. */
  predicate Ends(w: World, st: Step, a: Action, success: bool) {
    st.Exit? && st.id in w.running && st.id in w.actions
    && w.actions[st.id] == a && (success <==> st.exitCode == 0)
  }

  function LastPayload(args: Arguments, steps: seq<Step>): PayloadState {
    if steps == [] then OFF
    else
      var init, st := steps[..|steps| - 1], steps[|steps| - 1];
      if st == Bus(PayloadConditionsNotFulfilled) || st == Bus(PayloadMeasurementDone) then IDLE
      else if Ends(Run(args, init), st, TriggerMeasuring, true) then MEASURING
      else LastPayload(args, init)
  }

  function LastPointing(args: Arguments, steps: seq<Step>): AdcsState {
    if steps == [] then NONE
    else
      var init, st := steps[..|steps| - 1], steps[|steps| - 1];
      if st.Bus? && st.message.AdcsStateReached? then st.message.adcs
      else if Ends(Run(args, init), st, TriggerDetumbling, true) then NONE
      else if Ends(Run(args, init), st, TriggerSunpointing, true) then NONE
      else LastPointing(args, init)
  }

  function LastRequested(args: Arguments, steps: seq<Step>): AdcsState {
    if steps == [] then NONE
    else
      var init, st := steps[..|steps| - 1], steps[|steps| - 1];
      if st.Bus? && st.message.AdcsStateReached? then NONE
      else if Ends(Run(args, init), st, TriggerDetumbling, true) then DETUMB
      else if Ends(Run(args, init), st, TriggerSunpointing, true) then SUN
      else LastRequested(args, init)
  }

  // --------------------------------------------------------------- safemode

  /** The reason for safemode in what was reported last, 0 if there is none or manualmode is
      on. */
  function Due(args: Arguments, steps: seq<Step>): uint8 {
    if LastManual(args, steps) then 0
    else if LastTemperature(steps) == ALARM then 1
    else if LastBattery(args, steps) < args.batteryThreshold then 2
    else 0
  }

  /** Does this step ask to leave safemode, or undo an entry that failed? */
  predicate AsksToLeave(w: World, st: Step) {
    || st == Bus(SetSafemode(false))
    || (Exits(w, st) && w.actions[st.id].EnterSafeMode? && st.exitCode != 0)
  }

  /** The script that leaves manualmode has ended. */
  predicate ManualLeft(w: World, st: Step) {
    Exits(w, st) && w.actions[st.id].LeaveManualMode?
  }

  /** Safemode by its reason: a request is reason 3, an emergency has its own. */
  function LastSafemode(args: Arguments, steps: seq<Step>): uint8 {
    if steps == [] then 0
    else
      var init, st := steps[..|steps| - 1], steps[|steps| - 1];
      var before, due := LastSafemode(args, init), Due(args, steps);
      if st == Bus(SetSafemode(true)) then 3
      else if AsksToLeave(Run(args, init), st) then due
      else if ManualLeft(Run(args, init), st) && before != 0 then if due != 0 then due else 3
      else if before != 0 then before
      else due
  }

  /** Safemode is entered in the last step, for the first time or again. */
  predicate EntersLast(args: Arguments, steps: seq<Step>)
    requires steps != []
  {
    var init, st := steps[..|steps| - 1], steps[|steps| - 1];
    || st == Bus(SetSafemode(true))
    || (ManualLeft(Run(args, init), st) && LastSafemode(args, init) != 0)
    || (Due(args, steps) != 0 && (AsksToLeave(Run(args, init), st) || LastSafemode(args, init) == 0))
  }

  /** Maneuvermode is what was asked for, and off since safemode was entered. */
  function LastManeuver(args: Arguments, steps: seq<Step>): bool {
    if steps == [] then false
    else if steps[|steps| - 1].Bus? && steps[|steps| - 1].message.SetManeuvermode? then
      steps[|steps| - 1].message.on
    else !EntersLast(args, steps) && LastManeuver(args, steps[..|steps| - 1])
  }

  // -------------------------------------------------------------- one event

  /** An event from a calm state only changes safemode and maneuvermode beside what it is
      about. */
  lemma FlatFields(s: Snapshot, e: Event)
    ensures var f := Flat(s, e);
      && f.batteryThreshold == s.batteryThreshold && f.shellCommands == s.shellCommands
      && f.enforcedSafemode == s.enforcedSafemode
      && f.batteryLevel == (if e.EpsSignal? then e.battery else s.batteryLevel)
      && f.temperature == (if e.ThmSignal? then e.temperature else s.temperature)
      && f.leop == (if e.LeopReq? || e.LeopSignal? then e.leop else s.leop)
      && f.manualmode == (if e.ManualModeReq? || e.ManualModeSignal? then e.on else s.manualmode)
      && f.payload == (if e.PayloadSignal? then e.payload else s.payload)
      && f.pointing == (if e.AdcsSignal? then e.adcs else if e.AdcsReqSignal? then NONE else s.pointing)
      && f.requested == (if e.AdcsReqSignal? then e.adcs else if e.AdcsSignal? then NONE else s.requested)
  {
    FlatBase(s, e);
    hide Flat;
    BaseFields(s, e);
  }

  /** What the event asks for, before anything reacts to it. */
  function Base(s: Snapshot, e: Event): Snapshot {
    if e.IsFact() then e.Updated(s) else Realised(s, e)
  }

  lemma FlatBase(s: Snapshot, e: Event)
    ensures var f := Flat(s, e);
            f == Base(s, e).(safemode := f.safemode, maneuvermode := f.maneuvermode)
  {
    hide Emergency, Realised;
  }

  lemma BaseFields(s: Snapshot, e: Event)
    ensures var f := Base(s, e);
      && f.batteryThreshold == s.batteryThreshold && f.shellCommands == s.shellCommands
      && f.enforcedSafemode == s.enforcedSafemode
      && f.batteryLevel == (if e.EpsSignal? then e.battery else s.batteryLevel)
      && f.temperature == (if e.ThmSignal? then e.temperature else s.temperature)
      && f.leop == (if e.LeopReq? || e.LeopSignal? then e.leop else s.leop)
      && f.manualmode == (if e.ManualModeReq? || e.ManualModeSignal? then e.on else s.manualmode)
      && f.payload == (if e.PayloadSignal? then e.payload else s.payload)
      && f.pointing == (if e.AdcsSignal? then e.adcs else if e.AdcsReqSignal? then NONE else s.pointing)
      && f.requested == (if e.AdcsReqSignal? then e.adcs else if e.AdcsSignal? then NONE else s.requested)
  {
  }

  /** The reason an emergency gives in state `s`, 0 in manualmode. */
  function Reason(s: Snapshot): uint8 {
    if s.manualmode then 0
    else if s.temperature == ALARM then 1
    else if s.batteryLevel < s.batteryThreshold then 2
    else 0
  }

  /** An event that is not about safemode only enters it, for a reason that is new. */
  lemma FlatModes(s: Snapshot, e: Event)
    requires !Pending(s) && !e.SafeModeReq? && !e.SafeModeSignal?
    ensures var f := Flat(s, e);
      && f.safemode == (if s.safemode != 0 then s.safemode else Reason(f))
      && f.maneuvermode == (if s.safemode == 0 && Reason(f) != 0 then false
                            else if e.ManeuverModeSignal? then e.on else s.maneuvermode)
  {
    BaseModes(s, e);
    FlatSettles(s, e);
    hide Flat, Base, Realised;
  }

  lemma BaseModes(s: Snapshot, e: Event)
    requires !e.SafeModeReq? && !e.SafeModeSignal?
    ensures var f := Base(s, e);
      && f.safemode == s.safemode
      && f.maneuvermode == (if e.ManeuverModeSignal? then e.on else s.maneuvermode)
  {
  }

  lemma FlatSettles(s: Snapshot, e: Event)
    requires !Pending(s)
    ensures Flat(s, e) == Settle(Base(s, e))
  {
    hide Settle, Realised, Emergency;
  }

  lemma FlatRequest(s: Snapshot)
    requires !Pending(s)
    ensures Flat(s, SafeModeReq(true)) == Entered(s, 3)
  {
  }

  lemma FlatLeave(s: Snapshot, e: Event)
    requires !Pending(s) && e in {SafeModeReq(false), SafeModeSignal(0)}
    ensures var f := Flat(s, e);
      && f.safemode == Reason(s)
      && f.maneuvermode == (Reason(s) == 0 && s.maneuvermode)
  {
  }

  /** The callback of leave-manualmode, with safemode on. */
  lemma FlatRearm(s: Snapshot)
    ensures Flat(s.(safemode := 0), SafeModeReq(true)) == Entered(s, if Reason(s) != 0 then Reason(s) else 3)
  {
  }

  // --------------------------------------------------------------- one step

  /** What one step does to the fields that are only reported. */
  lemma ReportedFields(w: World, st: Step)
    ensures var s, r := w.state, StepState(w, st);
      && r.batteryThreshold == s.batteryThreshold && r.shellCommands == s.shellCommands
      && r.enforcedSafemode == s.enforcedSafemode
      && r.batteryLevel == (if st.Bus? && st.message.EpsChargeStateChange? then st.message.battery
                            else s.batteryLevel)
      && r.temperature == (if st.Bus? && st.message.ThmStateChange? then st.message.temperature
                           else s.temperature)
      && r.leop == (if st.Bus? && st.message.LeopStateChange? then st.message.leop else s.leop)
      && r.manualmode == (if st.Bus? && st.message.SetManualmode? then st.message.on else s.manualmode)
  {
    hide Flat;
    if st.Bus? {
      FlatFields(w.state, st.message.ToEvent());
    } else if Exits(w, st) {
      var a := w.actions[st.id];
      FlatFields(Prepared(w.state, a), Injected(a));
    }
  }

  /** What one step does to the fields that scripts change, too. */
  lemma ScriptFields(w: World, st: Step)
    ensures var s, r := w.state, StepState(w, st);
            var detumbles, points := Ends(w, st, TriggerDetumbling, true), Ends(w, st, TriggerSunpointing, true);
            var reached := st.Bus? && st.message.AdcsStateReached?;
      && r.payload == (if st == Bus(PayloadConditionsNotFulfilled) || st == Bus(PayloadMeasurementDone) then IDLE
                       else if Ends(w, st, TriggerMeasuring, true) then MEASURING else s.payload)
      && r.pointing == (if reached then st.message.adcs else if detumbles || points then NONE else s.pointing)
      && r.requested == (if reached then NONE else if detumbles then DETUMB else if points then SUN
                         else s.requested)
  {
    hide Flat;
    if st.Bus? {
      FlatFields(w.state, st.message.ToEvent());
    } else if Exits(w, st) {
      var a := w.actions[st.id];
      FlatFields(Prepared(w.state, a), Injected(a));
    }
  }

  /** What one step does to safemode and maneuvermode, by what is reported after it. */
  lemma ModeFields(w: World, st: Step)
    requires Calm(w.state)
    ensures var s, r := w.state, StepState(w, st);
            var due := Reason(r);
            var again := st == Bus(SetSafemode(true)) || (ManualLeft(w, st) && s.safemode != 0);
      && r.safemode == (if st == Bus(SetSafemode(true)) then 3
                        else if AsksToLeave(w, st) then due
                        else if again then if due != 0 then due else 3
                        else if s.safemode != 0 then s.safemode else due)
      && r.maneuvermode == (if st.Bus? && st.message.SetManeuvermode? then st.message.on
                            else if again then false
                            else if due != 0 && (AsksToLeave(w, st) || s.safemode == 0) then false
                            else s.maneuvermode)
  {
    var s := w.state;
    CalmReason(s);
    hide Flat, Ready, Pending, Emergency;
    if st.Bus? {
      var e := st.message.ToEvent();
      FlatFields(s, e);
      if e.SafeModeReq? {
        FlatRequest(s);
        FlatLeave(s, SafeModeReq(false));
      } else {
        FlatModes(s, e);
      }
    } else if Exits(w, st) {
      var a := w.actions[st.id];
      FlatFields(s, Injected(a));
      FlatLeave(s, SafeModeSignal(0));
      FlatRearm(s);
      if Injected(a) in {AdcsReqSignal(DETUMB), AdcsReqSignal(SUN), PayloadSignal(MEASURING)} {
        FlatModes(s, Injected(a));
      }
    }
  }

  /** Without safemode a calm state has no reason for it. */
  lemma CalmReason(s: Snapshot)
    requires Calm(s)
    ensures s.safemode == 0 ==> Reason(s) == 0
    ensures !Pending(s)
  {
  }

  // ---------------------------------------------------------------- results

  function Expected(args: Arguments, steps: seq<Step>): Snapshot {
    Snapshot(args.batteryThreshold, [], LastSafemode(args, steps), false, LastManual(args, steps),
             LastManeuver(args, steps), LastLeop(args, steps), LastBattery(args, steps),
             LastTemperature(steps), LastPayload(args, steps), LastPointing(args, steps),
             LastRequested(args, steps))
  }

  /** In every run the whole state between steps is what the messages and the completions of
      the run say. */
  lemma {:induction false} StateIsReported(args: Arguments, steps: seq<Step>)
    ensures Run(args, steps).state == Expected(args, steps)
    decreases |steps|
  {
    if steps == [] {
      EmptyRun(args);
    } else {
      hide *;
      var init, st := steps[..|steps| - 1], steps[|steps| - 1];
      assert steps == init + [st];
      StateIsReported(args, init);
      RunStep(args, init, st);
      StepIsReported(args, init, st);
    }
  }

  lemma EmptyRun(args: Arguments)
    ensures Run(args, []).state == Expected(args, [])
  {
  }

  lemma StepIsReported(args: Arguments, init: seq<Step>, st: Step)
    requires Invariant(Run(args, init)) && Run(args, init).state == Expected(args, init)
    ensures StepState(Run(args, init), st) == Expected(args, init + [st])
  {
    hide Run, StepState, Ends, AsksToLeave, ManualLeft, Calm, Book;
    var w := Run(args, init);
    assert (init + [st])[..|init|] == init;
    ReportedFields(w, st);
    ScriptFields(w, st);
    ModeFields(w, st);
  }
}
