/** The reentrant cascade has a closed form without any recursion: one event changes the
    state by a flat step and starts a flat list of actions under consecutive ids. */
module FlatStep {
  import opened States
  import opened Cascade

  /** Starting actions without any nested event. */
  function Launch(w: World, l: seq<Action>): World
    decreases |l|
  {
    if l == [] then w else Launch(Spawn(AddAction(w, l[0]), w.nextId), l[1..])
  }

  function At(w: World, s: Snapshot): World {
    w.(state := s)
  }

  /** Safemode for reason `r`, maneuvermode off. */
  function Entered(s: Snapshot, r: uint8): Snapshot {
    s.(safemode := r, maneuvermode := false)
  }

  /** An emergency nobody reacted to: both modes are off, but safemode is called for. */
  predicate Pending(s: Snapshot) {
    s.ModesOff() && Emergency(s) != 0
  }

  function Settle(s: Snapshot): Snapshot {
    if Pending(s) then Entered(s, Emergency(s)) else s
  }

  /** What a request asks for, taken at its word. */
  function Realised(s: Snapshot, e: Event): Snapshot {
    match e
    case LeopReq(l) => s.(leop := l)
    case ManualModeReq(on) => s.(manualmode := on)
    case SafeModeReq(on) => if on then Entered(s, 3) else s.(safemode := 0)
    case _ => s
  }

  /** The state after a whole event. The table a request runs may have listed an
      emergency before the request was realised: that stale action comes last. */
  function Flat(s: Snapshot, e: Event): Snapshot {
    if e.IsFact() then Settle(e.Updated(s))
    else if Pending(s) then Entered(Settle(Realised(s, e)), Emergency(s))
    else Settle(Realised(s, e))
  }

  /** The action of the request itself, if any. */
  function Own(s: Snapshot, e: Event): seq<Action> {
    match e
    case LeopReq(l) => if l == DONE && s.leop != DONE then [FinishLeop] else []
    case ManualModeReq(on) =>
      if on && !s.manualmode then [EnterManualMode]
      else if !on && s.manualmode then [LeaveManualMode] else []
    case SafeModeReq(on) =>
      if on then [EnterSafeMode(3)] else if s.safemode != 0 then [LeaveSafeMode] else []
    case ShellCommandReq(q) => [ShellCommand(q)]
    case _ => []
  }

  /** What the table run nested in that action lists: nothing unless it changes the rules. */
  function Nested(s: Snapshot, e: Event): seq<Action> {
    if Nests(s, e) then LogicRules(Realised(s, e), Realised(s, e)) else []
  }

  /** Leaving a mode or LEOP, the own action runs a table with different logic rules. */
  predicate Nests(s: Snapshot, e: Event) {
    match e
    case LeopReq(l) => l == DONE && s.leop != DONE
    case ManualModeReq(on) => !on && s.manualmode
    case SafeModeReq(on) => !on && s.safemode != 0
    case _ => false
  }

  /** What the logic rules of the table of the event itself list. */
  function Outer(s: Snapshot, e: Event): seq<Action> {
    LogicRules(AfterLeop(Source(s, e), Target(s, e)), Target(s, e))
  }

  /** The actions a whole event starts, in order. */
  function Started(s: Snapshot, e: Event): seq<Action> {
    Own(s, e) + Nested(s, e) + Outer(s, e)
  }

  /** States in which no shell command is queued, so that nested tables list none. */
  predicate Ready(s: Snapshot) {
    Steady(s) && s.shellCommands == []
  }

  // -------------------------------------------------------------- Launch

  lemma {:induction false} LaunchCommutes(w: World, l: seq<Action>, s: Snapshot, id: nat)
    ensures Launch(At(w, s), l) == At(Launch(w, l), s)
    ensures Launch(Spawn(w, id), l) == Spawn(Launch(w, l), id)
    decreases |l|
  {
    if l != [] {
      var w1 := Spawn(AddAction(w, l[0]), w.nextId);
      LaunchCommutes(w1, l[1..], s, id);
      assert Spawn(AddAction(Spawn(w, id), l[0]), w.nextId) == Spawn(w1, id);
    }
  }

  lemma {:induction false} LaunchConcat(w: World, l: seq<Action>, m: seq<Action>)
    ensures Launch(Launch(w, l), m) == Launch(w, l + m)
    decreases |l|
  {
    if l == [] {
      assert l + m == m;
    } else {
      LaunchConcat(Spawn(AddAction(w, l[0]), w.nextId), l[1..], m);
      assert (l + m)[1..] == l[1..] + m;
    }
  }

  // ------------------------------------------------------------- cascade

  /** A fact that leaves a mode on only changes the state. */
  lemma QuietFact(w: World, e: Event)
    requires Ready(w.state) && e.IsFact() && !e.Updated(w.state).ModesOff()
    ensures OnEvent(w, e) == At(w, e.Updated(w.state))
  {
    var s := e.Updated(w.state);
    assert Source(w.state, e) == s == Target(w.state, e);
    assert AfterLeop(s, s) == s;
    assert Table(s, s) == [];
  }

  lemma EnterSafe(w: World, id: nat, r: uint8)
    requires Ready(w.state) && r != 0
    ensures Perform(w, id, EnterSafeMode(r)) == Spawn(At(w, Entered(w.state, r)), id)
  {
    QuietFact(w, SafeModeSignal(r));
    QuietFact(At(w, w.state.(safemode := r)), ManeuverModeSignal(false));
  }

  /** Actions that raise no events are just launched. */
  lemma {:induction false} RunQuiet(w: World, l: seq<Action>)
    requires Steady(w.state) && forall a :: a in l ==> ActionRank(a) == 0
    ensures RunActions(w, l) == Launch(w, l)
    decreases |l|
  {
    if l != [] {
      assert l[0] in l;
      RunQuiet(Spawn(AddAction(w, l[0]), w.nextId), l[1..]);
    }
  }

  lemma RunCons(w: World, a: Action, l: seq<Action>)
    requires Steady(w.state)
    ensures RunActions(w, [a] + l) == RunActions(Perform(AddAction(w, a), w.nextId, a), l)
  {
    assert ([a] + l)[1..] == l;
  }

  lemma LaunchCons(w: World, a: Action, l: seq<Action>)
    ensures Launch(w, [a] + l) == Launch(Spawn(AddAction(w, a), w.nextId), l)
  {
    assert ([a] + l)[1..] == l;
  }

  lemma RunEmergency(w: World, r: uint8, rest: seq<Action>)
    requires Ready(w.state) && r != 0 && forall a :: a in rest ==> ActionRank(a) == 0
    ensures RunActions(w, [EnterSafeMode(r)] + rest)
         == Launch(At(w, Entered(w.state, r)), [EnterSafeMode(r)] + rest)
  {
    hide RunActions, Perform, OnEvent, Launch;
    var w1 := AddAction(w, EnterSafeMode(r));
    var w2 := Spawn(At(w1, Entered(w.state, r)), w.nextId);
    RunCons(w, EnterSafeMode(r), rest);
    EnterSafe(w1, w.nextId, r);
    RunQuiet(w2, rest);
    LaunchCons(At(w, Entered(w.state, r)), EnterSafeMode(r), rest);
  }

  lemma TriggersAreQuiet(s: Snapshot, t: Snapshot)
    ensures var triggers := (if MeasureWanted(s, t) then [TriggerMeasuring] else []) + AdcsRule(s);
      && (s.ModesOff() ==> LogicRules(s, t) == EmergencyRule(s) + triggers)
      && forall a :: a in triggers ==> ActionRank(a) == 0
  {
  }

  /** Running a possibly stale list of emergency and trigger actions: the state at the time
      of the table decides on safemode, whatever the state is by now. */
  lemma RunLogic(w: World, s: Snapshot, t: Snapshot)
    requires Ready(w.state)
    ensures var now := if Pending(s) then Entered(w.state, Emergency(s)) else w.state;
            RunActions(w, LogicRules(s, t)) == Launch(At(w, now), LogicRules(s, t))
  {
    hide OnEvent, Perform;
    if s.ModesOff() {
      var triggers := (if MeasureWanted(s, t) then [TriggerMeasuring] else []) + AdcsRule(s);
      TriggersAreQuiet(s, t);
      if Emergency(s) == 0 {
        assert LogicRules(s, t) == triggers;
        RunQuiet(w, triggers);
      } else {
        RunEmergency(w, Emergency(s), triggers);
      }
    }
  }

  /** The list of a request: its own action first, then the logic rules of the same table. */
  lemma RunRequest(w: World, a: Action, w2: World, s: Snapshot, t: Snapshot)
    requires Steady(w.state) && Ready(w2.state)
    requires Perform(AddAction(w, a), w.nextId, a) == w2
    ensures var now := if Pending(s) then Entered(w2.state, Emergency(s)) else w2.state;
            RunActions(w, [a] + LogicRules(s, t)) == Launch(At(w2, now), LogicRules(s, t))
  {
    hide RunActions, OnEvent, Perform, Launch;
    RunCons(w, a, LogicRules(s, t));
    RunLogic(w2, s, t);
  }

  lemma Unfold(w: World, e: Event)
    requires Steady(w.state)
    ensures var s, t := Source(w.state, e), Target(w.state, e);
            OnEvent(w, e) == RunActions(At(w, AfterLeop(s, t)), Table(s, t))
  {
  }

  /** Any fact: update, then settle, then start what the table lists. */
  lemma FactStep(w: World, e: Event)
    requires Ready(w.state) && e.IsFact()
    ensures OnEvent(w, e)
         == Launch(At(w, Settle(e.Updated(w.state))), LogicRules(e.Updated(w.state), e.Updated(w.state)))
  {
    var s := e.Updated(w.state);
    assert Source(w.state, e) == s == Target(w.state, e);
    assert AfterLeop(s, s) == s;
    assert Table(s, s) == LogicRules(s, s);
    RunLogic(At(w, s), s, s);
  }

  /** An action whose perform raises the fact `e` first. */
  lemma NestedFact(w: World, a: Action, e: Event)
    requires Ready(w.state) && e.IsFact()
    ensures var u := e.Updated(w.state);
            Spawn(OnEvent(AddAction(w, a), e), w.nextId) == Launch(At(w, Settle(u)), [a] + LogicRules(u, u))
  {
    hide RunActions, OnEvent, Launch;
    var u := e.Updated(w.state);
    var w1 := At(AddAction(w, a), Settle(u));
    FactStep(AddAction(w, a), e);
    LaunchCommutes(w1, LogicRules(u, u), u, w.nextId);
    LaunchCons(At(w, Settle(u)), a, LogicRules(u, u));
  }

  // ------------------------------------------------------------ requests

  /** The table of an event: its own action, then the logic rules. */
  lemma EventTable(s: Snapshot, e: Event)
    requires Ready(s)
    ensures Table(Source(s, e), Target(s, e)) == Own(s, e) + Outer(s, e)
  {
    hide LogicRules;
    OwnRules(s, e);
  }

  lemma OwnRules(s: Snapshot, e: Event)
    requires Ready(s)
    ensures var u, t := Source(s, e), Target(s, e);
            ShellActions(t.shellCommands) + RequestRules(u, t) == Own(s, e)
  {
    var u, t := Source(s, e), Target(s, e);
    if e.ShellCommandReq? {
      assert ShellActions(t.shellCommands) == [ShellCommand(e.request)];
      assert RequestRules(u, t) == [];
    } else {
      assert ShellActions(t.shellCommands) == [];
      assert RequestRules(u, t) == Own(s, e);
    }
  }

  /** An event without an own action: only the logic rules of its table run. */
  lemma OuterStep(w: World, e: Event)
    requires Ready(w.state) && Own(w.state, e) == []
    ensures OnEvent(w, e) == Launch(At(w, Flat(w.state, e)), Started(w.state, e))
  {
    hide RunActions, OnEvent, Launch, Table, LogicRules, RequestRules;
    var s := w.state;
    var v := AfterLeop(Source(s, e), Target(s, e));
    Unfold(w, e);
    EventTable(s, e);
    assert Table(Source(s, e), Target(s, e)) == Outer(s, e) == Started(s, e);
    FlatOfOuter(s, e);
    RunLogic(At(w, v), v, Target(s, e));
  }

  lemma FlatOfOuter(s: Snapshot, e: Event)
    requires Own(s, e) == []
    ensures Flat(s, e) == Settle(AfterLeop(Source(s, e), Target(s, e)))
  {
    if e.IsFact() {
      assert AfterLeop(Source(s, e), Target(s, e)) == e.Updated(s);
    } else {
      assert AfterLeop(Source(s, e), Target(s, e)) == Realised(s, e);
      assert Emergency(Realised(s, e)) == Emergency(s);
      hide Emergency;
    }
  }

  /** The state when the own action of a request has been performed. */
  function Mid(s: Snapshot, e: Event): Snapshot {
    if Nests(s, e) then Settle(Realised(s, e)) else Realised(s, e)
  }

  lemma PerformOwn(w: World, e: Event)
    requires Ready(w.state) && Own(w.state, e) != []
    ensures var a := Own(w.state, e)[0];
            (Perform(AddAction(w, a), w.nextId, a)
             == Launch(At(w, Mid(w.state, e)), [a] + Nested(w.state, e)))
  {
    hide RunActions, OnEvent, Launch, LogicRules;
    var s := w.state;
    var a := Own(s, e)[0];
    var w1 := AddAction(w, a);
    match a
    case LeaveManualMode => NestedFact(w, a, ManualModeSignal(false));
    case LeaveSafeMode => NestedFact(w, a, SafeModeSignal(0));
    case FinishLeop => NestedFact(w, a, LeopSignal(DONE));
    case EnterManualMode => QuietFact(w1, ManualModeSignal(true)); LaunchOne(At(w, Mid(s, e)), a);
    case EnterSafeMode(_) => EnterSafe(w1, w.nextId, 3); LaunchOne(At(w, Mid(s, e)), a);
    case ShellCommand(_) => LaunchOne(w, a);
  }

  lemma LaunchOne(w: World, a: Action)
    ensures Launch(w, [a]) == Spawn(AddAction(w, a), w.nextId)
    ensures [a] + [] == [a]
  {
  }

  /** An event with an own action: the action with all it nests, then the stale logic rules. */
  lemma OwnStep(w: World, e: Event)
    requires Ready(w.state) && Own(w.state, e) != []
    ensures OnEvent(w, e) == Launch(At(w, Flat(w.state, e)), Started(w.state, e))
  {
    hide RunActions, OnEvent, Perform, Launch, Table, LogicRules, Nested;
    var s := w.state;
    var t := Target(s, e);
    var a := Own(s, e)[0];
    var inner := [a] + Nested(s, e);
    assert Own(s, e) == [a];
    FlatOfOwn(s, e);
    Unfold(w, e);
    EventTable(s, e);
    PerformOwn(w, e);
    LaunchCommutes(At(w, Mid(s, e)), inner, Mid(s, e), 0);
    RunRequest(w, a, Launch(At(w, Mid(s, e)), inner), s, t);
    LaunchCommutes(At(w, Mid(s, e)), inner, Flat(s, e), 0);
    LaunchConcat(At(w, Flat(s, e)), inner, Outer(s, e));
  }

  lemma FlatOfOwn(s: Snapshot, e: Event)
    requires Own(s, e) != []
    ensures Flat(s, e) == if Pending(s) then Entered(Mid(s, e), Emergency(s)) else Mid(s, e)
    ensures AfterLeop(Source(s, e), Target(s, e)) == s == Source(s, e)
  {
  }

  /** The cascade refines the flat step: whatever nests inside one event, the final world is
      the flat state with the flat list of actions launched under consecutive ids. */
  lemma CascadeRefinesFlat(w: World, e: Event)
    requires Ready(w.state)
    ensures OnEvent(w, e) == Launch(At(w, Flat(w.state, e)), Started(w.state, e))
  {
    if Own(w.state, e) == [] {
      OuterStep(w, e);
    } else {
      OwnStep(w, e);
    }
  }
}
