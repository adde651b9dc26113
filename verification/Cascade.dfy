/** What one event does to the satellite, as functions on values: `on_event`
    (src/satellite.cpp) runs the table and performs the actions, and performing an action
    (src/action) may call `on_event` again before the outer list is finished. */
module Cascade {
  import opened States

  /** A finished action and the exit code of its script. */
  datatype Completion = Completion(id: nat, exitCode: int)

  /** A request callback that was fired with its exit code. */
  datatype Reply = Reply(request: ShellRequest, exitCode: int)

  /** The satellite: `actions` and `nextId` are its fields, `running` holds the ids whose
      child process was spawned and has not exited. The last four fields are a history:
      `killed` holds the ids whose child process was ended by SIGTERM. */
  datatype World = World(
    state: Snapshot,
    actions: map<nat, Action>,
    nextId: nat,
    running: set<nat>,
    killed: set<nat>,
    started: seq<Action>,
    finished: seq<Completion>,
    replies: seq<Reply>)

  /** What the constructor makes of the program arguments. */
  function InitialState(startManual: bool, batteryThreshold: uint16, leop: Leop): Snapshot {
    Snapshot(batteryThreshold, [], 0, false, startManual, false, leop, batteryThreshold, WARN, OFF, NONE, NONE)
  }

  function Initial(startManual: bool, batteryThreshold: uint16, leop: Leop): World {
    World(InitialState(startManual, batteryThreshold, leop), map[], 0, {}, {}, [], [], [])
  }

  /** The enforce flag is raised on copies only. Everything below relies on it. */
  predicate Steady(s: Snapshot) {
    !s.enforcedSafemode
  }

  // -------------------------------------------------------- bookkeeping

  /** std::unordered_map::emplace keeps an existing entry. */
  function Emplace(m: map<nat, Action>, k: nat, a: Action): map<nat, Action> {
    if k in m then m else m[k := a]
  }

  function AddAction(w: World, a: Action): World {
    w.(actions := Emplace(w.actions, w.nextId, a), nextId := w.nextId + 1, started := w.started + [a])
  }

  function RemoveAction(w: World, id: nat): World {
    w.(actions := w.actions - {id})
  }

  /** ShellCommand::perform: start the child process of the action. */
  function Spawn(w: World, id: nat): World {
    w.(running := w.running + {id})
  }

  // -------------------------------------------------------------- ranks

  /** Requests rank above facts that leave both modes off, those above all other facts. */
  function EventRank(e: Event, s: Snapshot): nat {
    if !e.IsFact() then 2 else if e.Updated(s).ModesOff() then 1 else 0
  }

  /** One more than the rank of any event that performing the action raises. */
  function ActionRank(a: Action): nat {
    match a
    case EnterManualMode => 1
    case EnterSafeMode(r) => if r == 0 then 2 else 1
    case LeaveManualMode => 2
    case LeaveSafeMode => 2
    case FinishLeop => 2
    case _ => 0
  }

  function Rank(l: seq<Action>): nat {
    if l == [] then 0
    else if ActionRank(l[0]) > Rank(l[1..]) then ActionRank(l[0]) else Rank(l[1..])
  }

  lemma {:induction false} RankBound(l: seq<Action>, bound: nat)
    requires forall a :: a in l ==> ActionRank(a) <= bound
    ensures Rank(l) <= bound
  {
    if l != [] {
      assert l[0] in l;
      RankBound(l[1..], bound);
    }
  }

  /** The current and the target state the table sees for an event. */
  function Source(s: Snapshot, e: Event): Snapshot {
    if e.IsFact() then e.Updated(s) else s
  }

  function Target(s: Snapshot, e: Event): Snapshot {
    e.Updated(s)
  }

  /** An event never lists an action above its own rank. */
  lemma TableRank(s: Snapshot, e: Event)
    requires Steady(s)
    ensures Rank(Table(Source(s, e), Target(s, e))) <= EventRank(e, s)
  {
    var u, t := Source(s, e), Target(s, e);
    forall a | a in Table(u, t)
      ensures ActionRank(a) <= EventRank(e, s)
    {
      TableRows(u, t, a);
    }
    RankBound(Table(u, t), EventRank(e, s));
  }

  // ------------------------------------------------------------ cascade

  /** Satellite::on_event. */
  function OnEvent(w: World, e: Event): (r: World)
    requires Steady(w.state)
    ensures Steady(r.state)
    ensures EventRank(e, w.state) == 0 ==> r.state == e.Updated(w.state)
    decreases EventRank(e, w.state), 2, 0
  {
    TableRank(w.state, e);
    var s, t := Source(w.state, e), Target(w.state, e);
    RunActions(w.(state := AfterLeop(s, t)), Table(s, t))
  }

  /** The loop of on_event over the list the table returned. */
  function RunActions(w: World, l: seq<Action>): (r: World)
    requires Steady(w.state)
    ensures Steady(r.state)
    ensures Rank(l) == 0 ==> r.state == w.state
    decreases Rank(l), 1, |l|
  {
    if l == [] then w else RunActions(Perform(AddAction(w, l[0]), w.nextId, l[0]), l[1..])
  }

  /** Action::perform of each kind of action. */
  function Perform(w: World, id: nat, a: Action): (r: World)
    requires Steady(w.state)
    ensures Steady(r.state)
    ensures ActionRank(a) == 0 ==> r.state == w.state
    decreases ActionRank(a), 0, 0
  {
    match a
    case EnterManualMode => Spawn(OnEvent(w, ManualModeSignal(true)), id)
    case LeaveManualMode => Spawn(OnEvent(w, ManualModeSignal(false)), id)
    case EnterSafeMode(r) =>
      Spawn(OnEvent(OnEvent(w, SafeModeSignal(r)), ManeuverModeSignal(false)), id)
    case LeaveSafeMode => Spawn(OnEvent(w, SafeModeSignal(0)), id)
    case FinishLeop => Spawn(OnEvent(w, LeopSignal(DONE)), id)
    case _ => Spawn(w, id)
  }

  // ---------------------------------------------------------- completion

  /** The completion callback of each kind of action: it may raise an event of its own. */
  function Callback(w: World, a: Action, success: bool): (r: World)
    requires Steady(w.state)
    ensures Steady(r.state)
  {
    match a
    case EnterSafeMode(_) => if success then w else OnEvent(w, SafeModeSignal(0))
    case LeaveManualMode =>
      if w.state.safemode != 0 then OnEvent(w.(state := w.state.(safemode := 0)), SafeModeReq(true))
      else w
    case TriggerDetumbling => if success then OnEvent(w, AdcsReqSignal(DETUMB)) else w
    case TriggerSunpointing => if success then OnEvent(w, AdcsReqSignal(SUN)) else w
    case TriggerMeasuring => if success then OnEvent(w, PayloadSignal(MEASURING)) else w
    case _ => w
  }

  /** The child of action `id` exits: its request is answered, then its callback runs. */
  function Exited(w: World, id: nat, exitCode: int): World
    requires id in w.actions
  {
    var a := w.actions[id];
    w.(running := w.running - {id},
       finished := w.finished + [Completion(id, exitCode)],
       replies := if a.ShellCommand? then w.replies + [Reply(a.request, exitCode)] else w.replies)
  }

  function Finish(w: World, id: nat, exitCode: int): (r: World)
    requires Steady(w.state)
    requires id in w.actions
    ensures Steady(r.state)
  {
    RemoveAction(Callback(Exited(w, id, exitCode), w.actions[id], exitCode == 0), id)
  }

  /** The child of action `id` is ended by SIGTERM: libuv reports it, but nothing is run. The
      action stays in the map. */
  function Terminated(w: World, id: nat): World {
    w.(running := w.running - {id}, killed := w.killed + {id})
  }

  // -------------------------------------------------------------- nesting

  /** How many activations of on_event are on the stack at once, at most. */
  ghost function Nesting(w: World, e: Event): nat
    requires Steady(w.state)
    decreases EventRank(e, w.state), 2, 0
  {
    TableRank(w.state, e);
    var s, t := Source(w.state, e), Target(w.state, e);
    1 + RunNesting(w.(state := AfterLeop(s, t)), Table(s, t))
  }

  ghost function RunNesting(w: World, l: seq<Action>): nat
    requires Steady(w.state)
    decreases Rank(l), 1, |l|
  {
    if l == [] then 0 else
      var w1 := AddAction(w, l[0]);
      Max(PerformNesting(w1, l[0]), RunNesting(Perform(w1, w.nextId, l[0]), l[1..]))
  }

  ghost function PerformNesting(w: World, a: Action): nat
    requires Steady(w.state)
    decreases ActionRank(a), 0, 0
  {
    match a
    case EnterManualMode => Nesting(w, ManualModeSignal(true))
    case LeaveManualMode => Nesting(w, ManualModeSignal(false))
    case EnterSafeMode(r) =>
      Max(Nesting(w, SafeModeSignal(r)),
          Nesting(OnEvent(w, SafeModeSignal(r)), ManeuverModeSignal(false)))
    case LeaveSafeMode => Nesting(w, SafeModeSignal(0))
    case FinishLeop => Nesting(w, LeopSignal(DONE))
    case _ => 0
  }

  function Max(a: nat, b: nat): nat {
    if a < b then b else a
  }

  /** on_event is never more than three deep, from any state and for any event. */
  lemma {:induction false} NestingBound(w: World, e: Event)
    requires Steady(w.state)
    ensures Nesting(w, e) <= EventRank(e, w.state) + 1 <= 3
    decreases EventRank(e, w.state), 2, 0
  {
    TableRank(w.state, e);
    var s, t := Source(w.state, e), Target(w.state, e);
    RunNestingBound(w.(state := AfterLeop(s, t)), Table(s, t));
  }

  lemma {:induction false} RunNestingBound(w: World, l: seq<Action>)
    requires Steady(w.state)
    ensures RunNesting(w, l) <= Rank(l)
    decreases Rank(l), 1, |l|
  {
    if l != [] {
      var w1 := AddAction(w, l[0]);
      PerformNestingBound(w1, l[0]);
      RunNestingBound(Perform(w1, w.nextId, l[0]), l[1..]);
    }
  }

  lemma {:induction false} PerformNestingBound(w: World, a: Action)
    requires Steady(w.state)
    ensures PerformNesting(w, a) <= ActionRank(a)
    decreases ActionRank(a), 0, 0
  {
    hide OnEvent, RunActions, Nesting, RunNesting, Table;
    match a
    case EnterManualMode => NestingBound(w, ManualModeSignal(true));
    case LeaveManualMode => NestingBound(w, ManualModeSignal(false));
    case EnterSafeMode(r) =>
      NestingBound(w, SafeModeSignal(r));
      NestingBound(OnEvent(w, SafeModeSignal(r)), ManeuverModeSignal(false));
    case LeaveSafeMode => NestingBound(w, SafeModeSignal(0));
    case FinishLeop => NestingBound(w, LeopSignal(DONE));
    case _ =>
  }

  /** Three is attained: a request to leave safemode during an emergency. */
  lemma NestingAttained(w: World)
    requires Steady(w.state) && w.state.shellCommands == []
    requires w.state.safemode != 0 && !w.state.manualmode && w.state.temperature == ALARM
    ensures Nesting(w, SafeModeReq(false)) == 3
  {
    var off := w.state.(safemode := 0);
    var w1 := AddAction(w, LeaveSafeMode);
    assert Table(w.state, Target(w.state, SafeModeReq(false))) == [LeaveSafeMode];
    assert PerformNesting(w1, LeaveSafeMode) == Nesting(w1, SafeModeSignal(0));
    NestingTwo(w1);
    NestingBound(w, SafeModeReq(false));
  }

  lemma FirstNests(w: World, l: seq<Action>)
    requires Steady(w.state) && l != []
    ensures RunNesting(w, l) >= PerformNesting(AddAction(w, l[0]), l[0])
  {
  }

  lemma EnteringNests(w: World)
    requires Steady(w.state)
    ensures PerformNesting(w, EnterSafeMode(1)) >= 1
  {
    hide RunNesting, OnEvent;
  }

  lemma NestingTwo(w: World)
    requires Steady(w.state) && w.state.shellCommands == []
    requires !w.state.manualmode && w.state.temperature == ALARM
    ensures Nesting(w, SafeModeSignal(0)) >= 2
  {
    hide RunNesting, PerformNesting;
    var off := w.state.(safemode := 0);
    var l := Table(off, off);
    assert l[0] == EnterSafeMode(1);
    FirstNests(w.(state := off), l);
    EnteringNests(AddAction(w.(state := off), l[0]));
  }
}
