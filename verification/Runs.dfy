/** Whole runs of the satellite: any interleaving of D-Bus messages, script exits and
    scripts ended by SIGTERM. */
module Runs {
  import opened States
  import opened Cascade
  import opened FlatStep

  /** The D-Bus methods and signals HORST handles (src/server/dbus.cpp). */
  datatype BusMessage =
    | ThmStateChange(temperature: Temperature)
    | EpsChargeStateChange(battery: uint16)
    | LeopStateChange(leop: Leop)
    | PayloadConditionsNotFulfilled
    | PayloadMeasurementDone
    | PayloadConditionsFulfilled
    | AdcsStateReached(adcs: AdcsState)
    | Exec(request: ShellRequest)
    | SetSafemode(on: bool)
    | SetManeuvermode(on: bool)
    | SetManualmode(on: bool)
  {
    function ToEvent(): Event {
      match this
      case ThmStateChange(t) => ThmSignal(t)
      case EpsChargeStateChange(b) => EpsSignal(b)
      case LeopStateChange(l) => LeopReq(l)
      case PayloadConditionsNotFulfilled => PayloadSignal(IDLE)
      case PayloadMeasurementDone => PayloadSignal(IDLE)
      case PayloadConditionsFulfilled => PayloadReq(WANTMEASURE)
      case AdcsStateReached(a) => AdcsSignal(a)
      case Exec(q) => ShellCommandReq(q)
      case SetSafemode(on) => SafeModeReq(on)
      case SetManeuvermode(on) => ManeuverModeSignal(on)
      case SetManualmode(on) => ManualModeReq(on)
    }
  }

  datatype Step = Bus(message: BusMessage) | Exit(id: nat, exitCode: int) | Killed(id: nat)

  datatype Arguments = Arguments(startManual: bool, batteryThreshold: uint16, leop: Leop)

  /** One top-level step. Only a child that is running can exit or be ended by SIGTERM. */
  function Next(w: World, st: Step): (r: World)
    requires Steady(w.state)
    ensures Steady(r.state)
  {
    match st
    case Bus(m) => OnEvent(w, m.ToEvent())
    case Exit(id, code) => if id in w.running && id in w.actions then Finish(w, id, code) else w
    case Killed(id) => if id in w.running && id in w.actions then Terminated(w, id) else w
  }

  function Run(args: Arguments, steps: seq<Step>): (r: World)
    ensures Steady(r.state)
    decreases |steps|
  {
    if steps == [] then Initial(args.startManual, args.batteryThreshold, args.leop)
    else Next(Run(args, steps[..|steps| - 1]), steps[|steps| - 1])
  }

  // ------------------------------------------------ closed form of a step

  /** Does the completion callback of `a` raise an event in state `s`? */
  predicate Injects(s: Snapshot, a: Action, success: bool) {
    match a
    case EnterSafeMode(_) => !success
    case LeaveManualMode => s.safemode != 0
    case TriggerDetumbling => success
    case TriggerSunpointing => success
    case TriggerMeasuring => success
    case _ => false
  }

  function Injected(a: Action): Event {
    match a
    case EnterSafeMode(_) => SafeModeSignal(0)
    case LeaveManualMode => SafeModeReq(true)
    case TriggerDetumbling => AdcsReqSignal(DETUMB)
    case TriggerSunpointing => AdcsReqSignal(SUN)
    case _ => PayloadSignal(MEASURING)
  }

  /** The callback of leave-manualmode clears safemode by hand before it raises its event. */
  function Prepared(s: Snapshot, a: Action): Snapshot {
    if a.LeaveManualMode? then s.(safemode := 0) else s
  }

  function ExitState(s: Snapshot, a: Action, success: bool): Snapshot {
    if Injects(s, a, success) then Flat(Prepared(s, a), Injected(a)) else s
  }

  function ExitStarted(s: Snapshot, a: Action, success: bool): seq<Action> {
    if Injects(s, a, success) then Started(Prepared(s, a), Injected(a)) else []
  }

  predicate Exits(w: World, st: Step) {
    st.Exit? && st.id in w.running && st.id in w.actions
  }

  predicate Kills(w: World, st: Step) {
    st.Killed? && st.id in w.running && st.id in w.actions
  }

  function StepState(w: World, st: Step): Snapshot {
    if st.Bus? then Flat(w.state, st.message.ToEvent())
    else if Exits(w, st) then ExitState(w.state, w.actions[st.id], st.exitCode == 0)
    else w.state
  }

  function StepStarted(w: World, st: Step): seq<Action> {
    if st.Bus? then Started(w.state, st.message.ToEvent())
    else if Exits(w, st) then ExitStarted(w.state, w.actions[st.id], st.exitCode == 0)
    else []
  }

  /** The child leaves before anything else happens. If it exited, its action goes last. */
  function Departed(w: World, st: Step): World {
    if Exits(w, st) then Exited(w, st.id, st.exitCode)
    else if Kills(w, st) then Terminated(w, st.id)
    else w
  }

  function Retired(w: World, st: Step, exits: bool): World {
    if exits && st.Exit? then RemoveAction(w, st.id) else w
  }

  /** Every top-level step is flat: nothing of the nesting is visible from outside. */
  lemma StepIsFlat(w: World, st: Step)
    requires Ready(w.state)
    ensures Next(w, st)
         == Retired(Launch(At(Departed(w, st), StepState(w, st)), StepStarted(w, st)), st, Exits(w, st))
  {
    hide OnEvent, Flat, Started;
    if st.Bus? {
      CascadeRefinesFlat(w, st.message.ToEvent());
    } else if Exits(w, st) {
      var a := w.actions[st.id];
      var w1 := Exited(w, st.id, st.exitCode);
      if Injects(w.state, a, st.exitCode == 0) {
        CascadeRefinesFlat(At(w1, Prepared(w.state, a)), Injected(a));
      }
    }
  }

  // -------------------------------------------------- invariants of a run

  predicate Done(finished: seq<Completion>, id: nat) {
    exists i :: 0 <= i < |finished| && finished[i].id == id
  }

  /** The request callbacks that a list of completions fires. */
  function RepliesOf(started: seq<Action>, finished: seq<Completion>): seq<Reply>
    requires forall i :: 0 <= i < |finished| ==> finished[i].id < |started|
    decreases |finished|
  {
    if finished == [] then [] else
      var c := finished[|finished| - 1];
      var a := started[c.id];
      RepliesOf(started, finished[..|finished| - 1])
      + (if a.ShellCommand? then [Reply(a.request, c.exitCode)] else [])
  }

  /** The map holds the running actions, those whose script was killed, and `extra`: the id
      of an action that is completing. */
  predicate MapBook(w: World, extra: set<nat>) {
    && w.nextId == |w.started|
    && w.actions.Keys == w.running + w.killed + extra
    && w.running !! w.killed
    && w.running + w.killed !! extra
    && (forall k :: k in w.actions ==> k < w.nextId && w.actions[k] == w.started[k])
  }

  /** Every id ever handed out is either unfinished or finished, and finishes once. */
  ghost predicate IdBook(unfinished: set<nat>, finished: seq<Completion>, nextId: nat) {
    && nextId == |unfinished| + |finished|
    && (forall i :: 0 <= i < |finished| ==> finished[i].id < nextId)
    && (forall i, j :: 0 <= i < j < |finished| ==> finished[i].id != finished[j].id)
    && (forall k: nat :: k in unfinished <==> k < nextId && !Done(finished, k))
  }

  ghost predicate Book(w: World, extra: set<nat>) {
    && MapBook(w, extra)
    && IdBook(w.running + w.killed, w.finished, w.nextId)
    && w.replies == RepliesOf(w.started, w.finished)
  }

  /** What holds of every state between two top-level steps. */
  predicate Calm(s: Snapshot) {
    Ready(s) && s.payload != WANTMEASURE && !Pending(s)
  }

  ghost predicate Invariant(w: World) {
    Calm(w.state) && Book(w, {})
  }

  lemma {:induction false} RepliesGrow(started: seq<Action>, finished: seq<Completion>, a: Action)
    requires forall i :: 0 <= i < |finished| ==> finished[i].id < |started|
    ensures RepliesOf(started + [a], finished) == RepliesOf(started, finished)
    decreases |finished|
  {
    if finished != [] {
      RepliesGrow(started, finished[..|finished| - 1], a);
    }
  }

  lemma StartIds(unfinished: set<nat>, finished: seq<Completion>, nextId: nat)
    requires IdBook(unfinished, finished, nextId)
    ensures IdBook(unfinished + {nextId}, finished, nextId + 1)
  {
    assert nextId !in unfinished;
    assert |unfinished + {nextId}| == |unfinished| + 1;
  }

  lemma ExitIds(unfinished: set<nat>, finished: seq<Completion>, nextId: nat, c: Completion)
    requires IdBook(unfinished, finished, nextId) && c.id in unfinished
    ensures IdBook(unfinished - {c.id}, finished + [c], nextId)
  {
    var after := finished + [c];
    assert |unfinished - {c.id}| == |unfinished| - 1;
    assert after[|finished|] == c;
    forall k: nat
      ensures Done(after, k) <==> Done(finished, k) || k == c.id
    {
      if Done(finished, k) {
        var i :| 0 <= i < |finished| && finished[i].id == k;
        assert after[i].id == k;
      }
    }
  }

  lemma StartMap(w: World, a: Action, extra: set<nat>)
    requires MapBook(w, extra)
    ensures MapBook(Spawn(AddAction(w, a), w.nextId), extra)
    ensures (w.running + {w.nextId}) + w.killed == (w.running + w.killed) + {w.nextId}
  {
    var r := Spawn(AddAction(w, a), w.nextId);
    assert w.nextId !in w.actions;
    assert r.actions.Keys == r.running + r.killed + extra;
  }

  lemma StartBook(w: World, a: Action, extra: set<nat>)
    requires Book(w, extra)
    ensures Book(Spawn(AddAction(w, a), w.nextId), extra)
  {
    StartMap(w, a, extra);
    StartIds(w.running + w.killed, w.finished, w.nextId);
    RepliesGrow(w.started, w.finished, a);
    hide RepliesOf, MapBook, IdBook;
  }

  lemma {:induction false} LaunchBook(w: World, l: seq<Action>, extra: set<nat>)
    requires Book(w, extra)
    ensures var r := Launch(w, l);
      && Book(r, extra)
      && r.started == w.started + l && r.state == w.state
      && r.killed == w.killed && r.finished == w.finished && r.replies == w.replies
    decreases |l|
  {
    hide Book;
    if l == [] {
      assert w.started + l == w.started;
    } else {
      var w1 := Spawn(AddAction(w, l[0]), w.nextId);
      StartBook(w, l[0], extra);
      LaunchBook(w1, l[1..], extra);
      assert w.started + l == w1.started + l[1..];
    }
  }

  lemma ExitedMap(w: World, id: nat, exitCode: int)
    requires MapBook(w, {}) && id in w.running && id in w.actions
    ensures MapBook(Exited(w, id, exitCode), {id})
    ensures id < |w.started| && w.actions[id] == w.started[id]
    ensures (w.running - {id}) + w.killed == (w.running + w.killed) - {id}
  {
  }

  lemma RepliesSnoc(started: seq<Action>, finished: seq<Completion>, c: Completion)
    requires forall i :: 0 <= i < |finished| ==> finished[i].id < |started|
    requires c.id < |started|
    ensures forall i :: 0 <= i < |finished + [c]| ==> (finished + [c])[i].id < |started|
    ensures var a := started[c.id];
            RepliesOf(started, finished + [c])
            == RepliesOf(started, finished) + if a.ShellCommand? then [Reply(a.request, c.exitCode)] else []
  {
    assert (finished + [c])[..|finished|] == finished;
  }

  lemma ExitedBook(w: World, id: nat, exitCode: int)
    requires Book(w, {}) && id in w.running && id in w.actions
    ensures Book(Exited(w, id, exitCode), {id})
  {
    var c := Completion(id, exitCode);
    ExitIds(w.running + w.killed, w.finished, w.nextId, c);
    ExitedMap(w, id, exitCode);
    RepliesSnoc(w.started, w.finished, c);
    hide RepliesOf, MapBook;
  }

  lemma TerminatedMap(w: World, id: nat)
    requires MapBook(w, {}) && id in w.running && id in w.actions
    ensures MapBook(Terminated(w, id), {})
    ensures (w.running - {id}) + (w.killed + {id}) == w.running + w.killed
  {
  }

  lemma TerminatedBook(w: World, id: nat)
    requires Book(w, {}) && id in w.running && id in w.actions
    ensures Book(Terminated(w, id), {})
  {
    TerminatedMap(w, id);
    hide RepliesOf, MapBook, IdBook;
  }

  lemma RetiredMap(w: World, id: nat)
    requires MapBook(w, {id})
    ensures MapBook(RemoveAction(w, id), {})
  {
    assert RemoveAction(w, id).actions.Keys == w.running + w.killed;
  }

  lemma RetiredBook(w: World, id: nat)
    requires Book(w, {id})
    ensures Book(RemoveAction(w, id), {})
  {
    RetiredMap(w, id);
    hide RepliesOf, MapBook, IdBook;
  }

  /** A flat step always ends settled, and raises neither the flag nor the payload wish. */
  lemma FlatCalm(s: Snapshot, e: Event)
    requires Ready(s) && s.payload != WANTMEASURE && e != PayloadSignal(WANTMEASURE)
    ensures Calm(Flat(s, e))
  {
  }

  lemma StepCalm(w: World, st: Step)
    requires Calm(w.state)
    ensures Calm(StepState(w, st))
  {
    hide Flat;
    if st.Bus? {
      FlatCalm(w.state, st.message.ToEvent());
    } else if Exits(w, st) {
      var a := w.actions[st.id];
      if Injects(w.state, a, st.exitCode == 0) {
        FlatCalm(Prepared(w.state, a), Injected(a));
      }
    }
  }

  /** One step keeps the invariant and changes history only by appending to it. */
  lemma StepInvariant(w: World, st: Step)
    requires Invariant(w)
    ensures var r := Next(w, st);
      && Invariant(r)
      && r.state == StepState(w, st)
      && r.started == w.started + StepStarted(w, st)
      && r.finished == w.finished + (if Exits(w, st) then [Completion(st.id, st.exitCode)] else [])
      && r.killed == w.killed + (if Kills(w, st) then {st.id} else {})
  {
    hide Next, Book, StepState, StepStarted;
    var l := StepStarted(w, st);
    var base := At(Departed(w, st), StepState(w, st));
    StepIsFlat(w, st);
    StepCalm(w, st);
    if Exits(w, st) {
      ExitedBook(w, st.id, st.exitCode);
      BookAt(Departed(w, st), StepState(w, st), {st.id});
      LaunchBook(base, l, {st.id});
      RetiredBook(Launch(base, l), st.id);
    } else {
      if Kills(w, st) {
        TerminatedBook(w, st.id);
      }
      BookAt(Departed(w, st), StepState(w, st), {});
      LaunchBook(base, l, {});
    }
  }

  /** The state itself takes no part in the bookkeeping. */
  lemma BookAt(w: World, s: Snapshot, extra: set<nat>)
    requires Book(w, extra)
    ensures Book(At(w, s), extra)
  {
  }

  lemma {:induction false} RunInvariant(args: Arguments, steps: seq<Step>)
    ensures Invariant(Run(args, steps))
    decreases |steps|
  {
    if steps != [] {
      RunInvariant(args, steps[..|steps| - 1]);
      StepInvariant(Run(args, steps[..|steps| - 1]), steps[|steps| - 1]);
    }
  }

  lemma RunSnoc(args: Arguments, steps: seq<Step>, st: Step)
    ensures Run(args, steps + [st]) == Next(Run(args, steps), st)
  {
    assert (steps + [st])[..|steps|] == steps;
  }

  /** The last step of a run, in closed form. */
  lemma RunStep(args: Arguments, steps: seq<Step>, st: Step)
    ensures var w, r := Run(args, steps), Run(args, steps + [st]);
      && Invariant(w) && Invariant(r)
      && r.state == StepState(w, st)
      && r.started == w.started + StepStarted(w, st)
      && r.finished == w.finished + (if Exits(w, st) then [Completion(st.id, st.exitCode)] else [])
      && r.killed == w.killed + (if Kills(w, st) then {st.id} else {})
  {
    hide Next, Invariant, StepState, StepStarted;
    RunInvariant(args, steps);
    RunSnoc(args, steps, st);
    StepInvariant(Run(args, steps), st);
  }
}
