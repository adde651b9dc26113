/** Shell commands and measurements are started exactly when they are asked for. */
module Demands {
  import opened States
  import opened Cascade
  import opened FlatStep
  import opened Runs

  function Count<T(==)>(l: seq<T>, x: T): nat {
    if l == [] then 0 else (if l[0] == x then 1 else 0) + Count(l[1..], x)
  }

  lemma {:induction false} CountConcat<T>(l: seq<T>, m: seq<T>, x: T)
    ensures Count(l + m, x) == Count(l, x) + Count(m, x)
  {
    if l == [] {
      assert l + m == m;
    } else {
      assert (l + m)[1..] == l[1..] + m;
      CountConcat(l[1..], m, x);
    }
  }

  // ------------------------------------------------------------ one event

  /** A measurement is started by exactly one kind of event, under exactly these conditions. */
  predicate StartsMeasuring(s: Snapshot, e: Event) {
    e == PayloadReq(WANTMEASURE) && s.safemode == 0 && !s.manualmode
    && s.batteryLevel > s.batteryThreshold && s.temperature == OK && s.leop == DONE
  }

  /** The logic rules never list a shell command, and measuring at most once. */
  lemma RuleCounts(s: Snapshot, t: Snapshot, q: ShellRequest)
    ensures Count(LogicRules(s, t), ShellCommand(q)) == 0
    ensures Count(LogicRules(s, t), TriggerMeasuring)
         == if s.ModesOff() && MeasureWanted(s, t) then 1 else 0
  {
    if s.ModesOff() {
      var wanted := if MeasureWanted(s, t) then [TriggerMeasuring] else [];
      CountConcat(EmergencyRule(s) + wanted, AdcsRule(s), ShellCommand(q));
      CountConcat(EmergencyRule(s), wanted, ShellCommand(q));
      CountConcat(EmergencyRule(s) + wanted, AdcsRule(s), TriggerMeasuring);
      CountConcat(EmergencyRule(s), wanted, TriggerMeasuring);
    }
  }

  lemma StartedCount(s: Snapshot, e: Event, a: Action)
    ensures Count(Started(s, e), a)
         == Count(Own(s, e), a) + Count(Nested(s, e), a) + Count(Outer(s, e), a)
  {
    CountConcat(Own(s, e) + Nested(s, e), Outer(s, e), a);
    CountConcat(Own(s, e), Nested(s, e), a);
  }

  /** What one event starts, if neither it nor the state carries an old payload wish. */
  lemma EventCounts(s: Snapshot, e: Event, q: ShellRequest)
    requires Ready(s) && s.payload != WANTMEASURE && e != PayloadSignal(WANTMEASURE)
    ensures Count(Started(s, e), TriggerMeasuring) == if StartsMeasuring(s, e) then 1 else 0
    ensures Count(Started(s, e), ShellCommand(q)) == if e == ShellCommandReq(q) then 1 else 0
  {
    hide *;
    MeasuringCount(s, e);
    ShellCount(s, e, q);
  }

  lemma MeasuringCount(s: Snapshot, e: Event)
    requires Ready(s) && s.payload != WANTMEASURE && e != PayloadSignal(WANTMEASURE)
    ensures Count(Started(s, e), TriggerMeasuring) == if StartsMeasuring(s, e) then 1 else 0
  {
    hide *;
    StartedCount(s, e, TriggerMeasuring);
    InnerMeasuring(s, e);
    OuterMeasuring(s, e);
  }

  /** Neither the own action of an event nor the table nested in it starts a measurement. */
  lemma InnerMeasuring(s: Snapshot, e: Event)
    requires s.payload != WANTMEASURE
    ensures Count(Own(s, e), TriggerMeasuring) == 0 == Count(Nested(s, e), TriggerMeasuring)
  {
    hide LogicRules;
    RuleCounts(Realised(s, e), Realised(s, e), ShellRequest("", 0));
  }

  lemma OuterMeasuring(s: Snapshot, e: Event)
    requires Ready(s) && s.payload != WANTMEASURE && e != PayloadSignal(WANTMEASURE)
    ensures Count(Outer(s, e), TriggerMeasuring) == if StartsMeasuring(s, e) then 1 else 0
  {
    hide LogicRules, Count;
    RuleCounts(AfterLeop(Source(s, e), Target(s, e)), Target(s, e), ShellRequest("", 0));
  }

  lemma ShellCount(s: Snapshot, e: Event, q: ShellRequest)
    ensures Count(Started(s, e), ShellCommand(q)) == if e == ShellCommandReq(q) then 1 else 0
  {
    hide LogicRules, Started;
    StartedCount(s, e, ShellCommand(q));
    RuleCounts(Realised(s, e), Realised(s, e), q);
    RuleCounts(AfterLeop(Source(s, e), Target(s, e)), Target(s, e), q);
  }

  // ------------------------------------------------------------- one step

  predicate Grants(w: World, st: Step) {
    st == Bus(PayloadConditionsFulfilled) && StartsMeasuring(w.state, PayloadReq(WANTMEASURE))
  }

  /** A step starts a measurement exactly if the payload asks for it, both modes are off, LEOP
      is done, the temperature is fine and the battery is above the threshold. A shell command
      is started exactly by its own request, whatever the mode. */
  lemma StepCounts(w: World, st: Step, q: ShellRequest)
    requires Calm(w.state)
    ensures Count(StepStarted(w, st), TriggerMeasuring)
         == if Grants(w, st) then 1 else 0
    ensures Count(StepStarted(w, st), ShellCommand(q)) == if st == Bus(Exec(q)) then 1 else 0
  {
    hide Started;
    if st.Bus? {
      EventCounts(w.state, st.message.ToEvent(), q);
    } else if Exits(w, st) {
      var a := w.actions[st.id];
      EventCounts(Prepared(w.state, a), Injected(a), q);
    }
  }

  // ----------------------------------------------------------------- runs

  lemma CalmRun(args: Arguments, steps: seq<Step>)
    ensures Calm(Run(args, steps).state)
  {
    RunInvariant(args, steps);
  }

  /** What one more step adds to the counts of a run. */
  lemma RunCounts(args: Arguments, init: seq<Step>, st: Step, q: ShellRequest)
    ensures Count(Run(args, init + [st]).started, TriggerMeasuring)
         == Count(Run(args, init).started, TriggerMeasuring) + if Grants(Run(args, init), st) then 1 else 0
    ensures Count(Run(args, init + [st]).started, ShellCommand(q))
         == Count(Run(args, init).started, ShellCommand(q)) + if st == Bus(Exec(q)) then 1 else 0
  {
    hide Run, Count, Invariant, StepStarted, StepState, StartsMeasuring;
    var w := Run(args, init);
    RunStep(args, init, st);
    CalmRun(args, init);
    StepCounts(w, st, q);
    CountConcat(w.started, StepStarted(w, st), TriggerMeasuring);
    CountConcat(w.started, StepStarted(w, st), ShellCommand(q));
  }

  lemma CountSnoc<T>(l: seq<T>, x: T, y: T)
    ensures Count(l + [x], y) == Count(l, y) + if x == y then 1 else 0
  {
    CountConcat(l, [x], y);
  }

  lemma EmptyCounts(args: Arguments, a: Action, st: Step)
    ensures Count(Run(args, []).started, a) == 0 == Count([], st)
  {
  }

  /** Shell requests run exactly once: over any run, a command was started as often as it
      was requested, whatever modes HORST went through meanwhile. */
  lemma {:induction false} ShellRunsOnce(args: Arguments, steps: seq<Step>, q: ShellRequest)
    ensures Count(Run(args, steps).started, ShellCommand(q)) == Count(steps, Bus(Exec(q)))
    decreases |steps|
  {
    hide *;
    if steps == [] {
      EmptyCounts(args, ShellCommand(q), Bus(Exec(q)));
    } else {
      var init, st := steps[..|steps| - 1], steps[|steps| - 1];
      assert steps == init + [st];
      ShellRunsOnce(args, init, q);
      RunCounts(args, init, st, q);
      CountSnoc(init, st, Bus(Exec(q)));
    }
  }

  /** How many payload requests of a run met the conditions for measuring. */
  function Granted(args: Arguments, steps: seq<Step>): nat
    decreases |steps|
  {
    if steps == [] then 0 else
      var init, st := steps[..|steps| - 1], steps[|steps| - 1];
      Granted(args, init) + if Grants(Run(args, init), st) then 1 else 0
  }

  lemma EmptyGranted(args: Arguments)
    ensures Granted(args, []) == 0
  {
  }

  lemma GrantedSnoc(args: Arguments, init: seq<Step>, st: Step)
    ensures Granted(args, init + [st]) == Granted(args, init) + if Grants(Run(args, init), st) then 1 else 0
  {
    hide Run, Grants;
    assert (init + [st])[..|init|] == init;
  }

  lemma GrantedIsAsked(w: World, st: Step)
    ensures Grants(w, st) ==> st == Bus(PayloadConditionsFulfilled)
  {
  }

  /** Measuring is demand driven: over any run, the measurements started are exactly the
      granted payload requests, so never more than there were requests. */
  lemma {:induction false} MeasuringOnDemand(args: Arguments, steps: seq<Step>)
    ensures Count(Run(args, steps).started, TriggerMeasuring) == Granted(args, steps)
         <= Count(steps, Bus(PayloadConditionsFulfilled))
    decreases |steps|
  {
    hide *;
    if steps == [] {
      EmptyCounts(args, TriggerMeasuring, Bus(PayloadConditionsFulfilled));
      EmptyGranted(args);
    } else {
      var init, st := steps[..|steps| - 1], steps[|steps| - 1];
      assert steps == init + [st];
      MeasuringOnDemand(args, init);
      RunCounts(args, init, st, ShellRequest("", 0));
      GrantedSnoc(args, init, st);
      GrantedIsAsked(Run(args, init), st);
      CountSnoc(init, st, Bus(PayloadConditionsFulfilled));
    }
  }
}
