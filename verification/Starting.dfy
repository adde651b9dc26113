/** Which scripts a step starts, and how often: exactly those its message or its completion
    asks for, and those the state it leads to calls for. */
module Starting {
  import opened States
  import opened Cascade
  import opened FlatStep
  import opened Runs
  import opened Reports
  import opened Demands
  import opened Pointing

  function One(b: bool): nat {
    if b then 1 else 0
  }

  /** The state in which the rules are looked at: what is reported after the step, with the
      modes as they were before, unless the step is about leaving one. */
  function Seen(w: World, st: Step): Snapshot {
    var s, r := w.state, StepState(w, st);
    r.(manualmode := if st == Bus(SetManualmode(true)) then s.manualmode else r.manualmode,
       safemode := if AsksToLeave(w, st) || ManualLeft(w, st) then 0 else s.safemode,
       maneuvermode := if st.Bus? && st.message.SetManeuvermode? then st.message.on else s.maneuvermode)
  }

  /** Does state `s` call for the trigger script `a`? */
  predicate Needs(s: Snapshot, a: Action) {
    && s.safemode == 0 && !s.manualmode && !s.maneuvermode && s.leop != UNDEPLOYED
    && match a
       case TriggerSunpointing => s.pointing == DETUMB
       case TriggerDetumbling => s.pointing !in {SUN, DETUMB} && s.requested !in {SUN, DETUMB}
       case _ => false
  }

  /** LEOP is done with this step. */
  predicate FinishesLeop(w: World, st: Step) {
    st == Bus(LeopStateChange(DONE)) && w.state.leop != DONE
  }

  /** How often the step starts the action. A trigger is started twice when LEOP is done, once
      by each of the two tables that are run. */
  function Asked(w: World, st: Step, a: Action): nat {
    var s, t := w.state, Seen(w, st);
    match a
    case ShellCommand(q) => One(st == Bus(Exec(q)))
    case EnterManualMode => One(st == Bus(SetManualmode(true)) && !s.manualmode)
    case LeaveManualMode => One(st == Bus(SetManualmode(false)) && s.manualmode)
    case LeaveSafeMode => One(st == Bus(SetSafemode(false)) && s.safemode != 0)
    case FinishLeop => One(FinishesLeop(w, st))
    case EnterSafeMode(r) =>
      if r == 3 then One(st == Bus(SetSafemode(true)) || (ManualLeft(w, st) && s.safemode != 0))
      else One(RaisesEvent(w, st) && r != 0 && t.safemode == 0 && Reason(t) == r)
    case TriggerMeasuring => One(Grants(w, st))
    case _ =>
      if !RaisesEvent(w, st) then 0
      else One(Needs(t, a)) + One(FinishesLeop(w, st) && Needs(t.(leop := s.leop), a))
  }

  // ------------------------------------------------------------- one table

  /** What the logic rules of one table list. */
  function Listed(s: Snapshot, a: Action): nat {
    match a
    case EnterSafeMode(r) => One(r != 0 && s.safemode == 0 && Reason(s) == r)
    case TriggerDetumbling => One(Needs(s, a))
    case TriggerSunpointing => One(Needs(s, a))
    case _ => 0
  }

  predicate IsRule(a: Action) {
    a.EnterSafeMode? || IsTrigger(a)
  }

  lemma ListedCount(s: Snapshot, t: Snapshot, a: Action)
    ensures IsRule(a) ==> Count(LogicRules(s, t), a) == Listed(s, a)
    ensures !IsRule(a) && a != TriggerMeasuring ==> Count(LogicRules(s, t), a) == 0
  {
    if s.ModesOff() {
      var wanted := if MeasureWanted(s, t) then [TriggerMeasuring] else [];
      CountConcat(EmergencyRule(s) + wanted, AdcsRule(s), a);
      CountConcat(EmergencyRule(s), wanted, a);
      EmergencyCount(s, a);
      AdcsCount(s, a);
      hide EmergencyRule, AdcsRule, MeasureWanted, Needs, Emergency, Reason;
    }
  }

  lemma EmergencyCount(s: Snapshot, a: Action)
    requires s.ModesOff()
    ensures Count(EmergencyRule(s), a) == One(a.EnterSafeMode? && a.reason != 0 && Reason(s) == a.reason)
  {
  }

  lemma AdcsCount(s: Snapshot, a: Action)
    requires s.ModesOff()
    ensures Count(AdcsRule(s), a) == One(Needs(s, a))
  {
  }

  // ------------------------------------------------------------- one event

  /** The own action of an event, by the kind of the event. */
  lemma OwnCount(s: Snapshot, e: Event, a: Action)
    requires a != TriggerMeasuring
    ensures Count(Own(s, e), a) ==
      match a
      case ShellCommand(q) => One(e == ShellCommandReq(q))
      case EnterManualMode => One(e == ManualModeReq(true) && !s.manualmode)
      case LeaveManualMode => One(e == ManualModeReq(false) && s.manualmode)
      case LeaveSafeMode => One(e == SafeModeReq(false) && s.safemode != 0)
      case FinishLeop => One(e == LeopReq(DONE) && s.leop != DONE)
      case EnterSafeMode(r) => One(r == 3 && e == SafeModeReq(true))
      case _ => 0
  {
  }

  /** What the tables of an event see: what the event is about, with the modes as they were,
      unless it is about leaving one. */
  function SeenBy(s: Snapshot, e: Event): Snapshot {
    Base(s, e).(
      manualmode := if e == ManualModeReq(true) then s.manualmode else Base(s, e).manualmode,
      safemode := if e in {SafeModeReq(false), SafeModeSignal(0)} then 0 else s.safemode,
      maneuvermode := if e.ManeuverModeSignal? then e.on else s.maneuvermode)
  }

  /** The tables of an event: one, on the state that is seen, and at the end of LEOP another
      one on the state before. */
  lemma TablesSeen(s: Snapshot, e: Event)
    requires !e.SafeModeSignal? || e.reason == 0
    ensures var v, t := AfterLeop(Source(s, e), Target(s, e)), SeenBy(s, e);
      && (!Nests(s, e) ==> v == t)
      && (Nests(s, e) ==> Realised(s, e) == t)
      && (Nests(s, e) && !e.LeopReq? ==> !v.ModesOff())
      && (Nests(s, e) && e.LeopReq? ==> v == s == t.(leop := s.leop))
  {
  }

  lemma ModesOnList(s: Snapshot, a: Action)
    requires !s.ModesOff()
    ensures Listed(s, a) == 0
  {
  }

  /** What the tables of an event list of the rules. */
  lemma RuleCount(s: Snapshot, e: Event, a: Action)
    requires (!e.SafeModeSignal? || e.reason == 0) && IsRule(a)
    ensures Count(Nested(s, e), a) + Count(Outer(s, e), a)
         == Listed(SeenBy(s, e), a)
            + if e == LeopReq(DONE) && s.leop != DONE then Listed(SeenBy(s, e).(leop := s.leop), a) else 0
  {
    var v, t := AfterLeop(Source(s, e), Target(s, e)), SeenBy(s, e);
    TablesSeen(s, e);
    ListedCount(v, Target(s, e), a);
    ListedCount(Realised(s, e), Realised(s, e), a);
    hide LogicRules, Listed, Realised, Source, Target, SeenBy, AfterLeop;
    if !v.ModesOff() {
      ModesOnList(v, a);
    }
  }

  lemma NoRuleCount(s: Snapshot, e: Event, a: Action)
    requires !IsRule(a) && a != TriggerMeasuring
    ensures Count(Nested(s, e), a) == 0 == Count(Outer(s, e), a)
  {
    ListedCount(AfterLeop(Source(s, e), Target(s, e)), Target(s, e), a);
    ListedCount(Realised(s, e), Realised(s, e), a);
    hide LogicRules, Realised, Source, Target, AfterLeop, Nests;
  }

  // --------------------------------------------------------------- one step

  /** The event a step raises, and the state it meets. */
  function EventOf(w: World, st: Step): Event
    requires RaisesEvent(w, st)
  {
    if st.Bus? then st.message.ToEvent() else Injected(w.actions[st.id])
  }

  function Met(w: World, st: Step): Snapshot {
    if Exits(w, st) then Prepared(w.state, w.actions[st.id]) else w.state
  }

  lemma SeenIsSeen(w: World, st: Step)
    requires RaisesEvent(w, st)
    ensures SeenBy(Met(w, st), EventOf(w, st)) == Seen(w, st)
  {
    hide Flat;
    FlatBase(Met(w, st), EventOf(w, st));
    hide Base;
  }

  /** Without an event nothing is started. */
  lemma NothingRaised(w: World, st: Step)
    ensures !RaisesEvent(w, st) ==> StepStarted(w, st) == []
    ensures RaisesEvent(w, st) ==> StepStarted(w, st) == Started(Met(w, st), EventOf(w, st))
  {
    hide Started;
  }

  /** The second table at the end of LEOP never finds an emergency. */
  lemma NoLateEmergency(w: World, st: Step, r: uint8)
    requires Calm(w.state) && FinishesLeop(w, st)
    ensures Listed(Seen(w, st).(leop := w.state.leop), EnterSafeMode(r)) == 0
  {
    hide Flat;
    FlatFields(w.state, LeopReq(DONE));
  }

  lemma OwnAsked(w: World, st: Step, a: Action)
    requires RaisesEvent(w, st) && a != TriggerMeasuring
    ensures Count(Own(Met(w, st), EventOf(w, st)), a) ==
      match a
      case EnterSafeMode(r) => if r == 3 then Asked(w, st, a) else 0
      case TriggerDetumbling => 0
      case TriggerSunpointing => 0
      case _ => Asked(w, st, a)
  {
    OwnCount(Met(w, st), EventOf(w, st), a);
    hide Own, Count, Seen, Needs, StepState, Reason;
  }

  lemma RuleAsked(w: World, st: Step, a: Action)
    requires Calm(w.state) && RaisesEvent(w, st) && IsRule(a)
    ensures Count(Nested(Met(w, st), EventOf(w, st)), a) + Count(Outer(Met(w, st), EventOf(w, st)), a)
         == if a == EnterSafeMode(3) then 0 else Asked(w, st, a)
  {
    SeenIsSeen(w, st);
    RaisesLeaving(w, st);
    RuleCount(Met(w, st), EventOf(w, st), a);
    if FinishesLeop(w, st) && a.EnterSafeMode? {
      NoLateEmergency(w, st, a.reason);
    }
    hide Nested, Outer, Count, Seen, SeenBy, Calm;
  }

  lemma RaisesLeaving(w: World, st: Step)
    requires RaisesEvent(w, st)
    ensures var e := EventOf(w, st);
      && (e.SafeModeSignal? ==> e.reason == 0)
      && (e == LeopReq(DONE) && Met(w, st).leop != DONE <==> FinishesLeop(w, st))
      && (FinishesLeop(w, st) ==> Met(w, st) == w.state)
  {
  }

  /** A step starts each action exactly as often as it is asked for. */
  lemma StartsExactly(w: World, st: Step, a: Action)
    requires Calm(w.state)
    ensures Count(StepStarted(w, st), a) == Asked(w, st, a)
  {
    hide *;
    NothingRaised(w, st);
    if a == TriggerMeasuring {
      MeasuringAsked(w, st);
    } else if !RaisesEvent(w, st) {
      NothingAsked(w, st, a);
    } else {
      StartedCount(Met(w, st), EventOf(w, st), a);
      OwnAsked(w, st, a);
      if IsRule(a) {
        RuleAsked(w, st, a);
      } else {
        NoRuleCount(Met(w, st), EventOf(w, st), a);
      }
      RuleKinds(a);
    }
  }

  lemma RuleKinds(a: Action)
    ensures IsRule(a) <==> a.EnterSafeMode? || a == TriggerDetumbling || a == TriggerSunpointing
  {
  }

  lemma MeasuringAsked(w: World, st: Step)
    requires Calm(w.state)
    ensures Count(StepStarted(w, st), TriggerMeasuring) == Asked(w, st, TriggerMeasuring)
  {
    StepCounts(w, st, ShellRequest("", 0));
    hide StepStarted, Count, Grants;
  }

  lemma NothingAsked(w: World, st: Step, a: Action)
    requires !RaisesEvent(w, st) && a != TriggerMeasuring
    ensures Count([], a) == 0 == Asked(w, st, a)
  {
  }

  // ------------------------------------------------------------------- runs

  /** In every run, what a step adds to the scripts started is exactly what is asked for. */
  lemma StartedOnDemand(args: Arguments, steps: seq<Step>, st: Step, a: Action)
    ensures Count(Run(args, steps + [st]).started, a)
         == Count(Run(args, steps).started, a) + Asked(Run(args, steps), st, a)
  {
    hide *;
    var w := Run(args, steps);
    RunStep(args, steps, st);
    CalmRun(args, steps);
    StartsExactly(w, st, a);
    CountConcat(w.started, StepStarted(w, st), a);
  }

  lemma TwiceAsked(w: World)
    requires w == Initial(false, 30, DEPLOYED)
    ensures Asked(w, Bus(LeopStateChange(DONE)), TriggerDetumbling) == 2
  {
    ReportedFields(w, Bus(LeopStateChange(DONE)));
    ScriptFields(w, Bus(LeopStateChange(DONE)));
    hide StepState;
  }

  /** A run that starts a trigger script twice at once: LEOP is done on a deployed satellite. */
  lemma LeopStartsTwice()
    ensures var args, done := Arguments(false, 30, DEPLOYED), Bus(LeopStateChange(DONE));
            Count(Run(args, []).started, TriggerDetumbling) == 0
            && Count(Run(args, [] + [done]).started, TriggerDetumbling) == 2
  {
    var args := Arguments(false, 30, DEPLOYED);
    EmptyCounts(args, TriggerDetumbling, Killed(0));
    assert Run(args, []) == Initial(false, 30, DEPLOYED);
    hide *;
    TwiceAsked(Run(args, []));
    StartedOnDemand(args, [], Bus(LeopStateChange(DONE)), TriggerDetumbling);
  }
}
