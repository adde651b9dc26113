/** The class Satellite (src/satellite.cpp) with the perform and completion code of its
    actions (src/action), proved equal to the value functions of module Cascade. */
module Satellites {
  import opened States
  import opened Cascade

  class Satellite {
    const current: State
    var actions: map<nat, Action>
    var nextId: nat
    /** The actions whose child process the event loop is waiting for. */
    var running: set<nat>
    ghost var killed: set<nat>
    ghost var started: seq<Action>
    ghost var finished: seq<Completion>
    var replies: seq<Reply>

    ghost function View(): World
      reads this, current
    {
      World(current.View(), actions, nextId, running, killed, started, finished, replies)
    }

    /** No id in the map is in use again: `emplace` never meets an existing key. */
    ghost predicate Valid()
      reads this, current
    {
      Steady(current.View()) && forall k :: k in actions ==> k < nextId
    }

    constructor (startManual: bool, batteryThreshold: uint16, leop: Leop)
      ensures Valid() && fresh(current)
      ensures View() == Cascade.Initial(startManual, batteryThreshold, leop)
    {
      var s := new State();
      s.manualmode := startManual;
      s.batteryThreshold := batteryThreshold;
      s.batteryLevel := batteryThreshold;
      s.leop := leop;
      current := s;
      actions, nextId, running, killed := map[], 0, {}, {};
      started, finished, replies := [], [], [];
    }

    method AddAction(action: Action) returns (id: nat)
      requires Valid()
      modifies this
      ensures Valid() && id == old(nextId)
      ensures View() == Cascade.AddAction(old(View()), action)
      ensures id in actions && actions[id] == action
    {
      if nextId !in actions {
        actions := actions[nextId := action];
      }
      started := started + [action];
      id := nextId;
      nextId := nextId + 1;
    }

    method RemoveAction(id: nat)
      requires Valid()
      modifies this
      ensures Valid()
      ensures View() == Cascade.RemoveAction(old(View()), id)
    {
      actions := actions - {id};
    }

    /** ShellCommand::perform under the assumption that spawning succeeds. */
    method Spawn(id: nat)
      requires Valid()
      modifies this
      ensures Valid()
      ensures View() == Cascade.Spawn(old(View()), id)
    {
      running := running + {id};
    }

    method OnEvent(event: Event)
      requires Valid()
      modifies this, current
      ensures Valid()
      ensures View() == Cascade.OnEvent(old(View()), event)
      decreases EventRank(event, current.View()), 2, 0
    {
      TableRank(current.View(), event);
      var list := Decide(event);
      RunActions(list);
    }

    /** The first half of on_event: update the state and run the table. */
    method Decide(event: Event) returns (list: seq<Action>)
      modifies current
      ensures var s, t := Source(old(current.View()), event), Target(old(current.View()), event);
        list == Table(s, t) && current.View() == AfterLeop(s, t)
    {
      if event.IsFact() {
        event.Update(current);
      }
      var target := current.Copy();
      if !event.IsFact() {
        event.Update(target);
      }
      list := current.TransformTo(target);
    }

    /** The loop of on_event. The list may be stale by the time an action is reached. */
    method RunActions(list: seq<Action>)
      requires Valid()
      modifies this, current
      ensures Valid()
      ensures View() == Cascade.RunActions(old(View()), list)
      decreases Rank(list), 1, 0
    {
      ghost var goal := Cascade.RunActions(View(), list);
      var i := 0;
      while i < |list|
        invariant 0 <= i <= |list|
        invariant Valid()
        invariant Cascade.RunActions(View(), list[i..]) == goal
        invariant Rank(list[i..]) <= Rank(list)
      {
        assert list[i..][1..] == list[i + 1..];
        Start(list[i]);
        i := i + 1;
      }
    }

    /** One round of the loop: store the action, fetch its new location, perform it. */
    method Start(action: Action)
      requires Valid()
      modifies this, current
      ensures Valid()
      ensures View() == Cascade.Perform(
                          Cascade.AddAction(old(View()), action), old(View()).nextId, action)
      decreases ActionRank(action), 0, 1
    {
      var id := AddAction(action);
      Perform(id, actions[id]);
    }

    /** Action::perform, dispatched on the kind of action. */
    method Perform(id: nat, action: Action)
      requires Valid()
      modifies this, current
      ensures Valid()
      ensures View() == Cascade.Perform(old(View()), id, action)
      decreases ActionRank(action), 0, 0
    {
      hide Cascade.OnEvent, Cascade.RunActions, Table;
      match action {
        case EnterManualMode => OnEvent(ManualModeSignal(true));
        case LeaveManualMode => OnEvent(ManualModeSignal(false));
        case EnterSafeMode(reason) =>
          OnEvent(SafeModeSignal(reason));
          OnEvent(ManeuverModeSignal(false));
        case LeaveSafeMode => OnEvent(SafeModeSignal(0));
        case FinishLeop => OnEvent(LeopSignal(DONE));
        case _ =>
      }
      Spawn(id);
    }

    /** The child process of action `id` exited, not killed by SIGTERM. */
    method Exited(id: nat, exitCode: int)
      requires Valid() && id in actions
      modifies this, current
      ensures Valid()
      ensures View() == Cascade.Finish(old(View()), id, exitCode)
    {
      var action := actions[id];
      running := running - {id};
      finished := finished + [Completion(id, exitCode)];
      if action.ShellCommand? {
        replies := replies + [Reply(action.request, exitCode)];
      }
      Callback(action, exitCode == 0);
      RemoveAction(id);
    }

    /** The child process of action `id` was ended by SIGTERM: its callback never runs. */
    method Terminated(id: nat)
      requires Valid()
      modifies this
      ensures Valid()
      ensures View() == Cascade.Terminated(old(View()), id)
    {
      running := running - {id};
      killed := killed + {id};
    }

    /** The completion callback each kind of action passes to its shell command. */
    method Callback(action: Action, success: bool)
      requires Valid()
      modifies this, current
      ensures Valid()
      ensures View() == Cascade.Callback(old(View()), action, success)
    {
      hide Cascade.OnEvent, Cascade.RunActions, Table;
      match action {
        case EnterSafeMode(_) =>
          if !success {
            OnEvent(SafeModeSignal(0));
          }
        case LeaveManualMode =>
          if current.safemode != 0 {
            current.safemode := 0;
            OnEvent(SafeModeReq(true));
          }
        case TriggerDetumbling =>
          if success {
            OnEvent(AdcsReqSignal(DETUMB));
          }
        case TriggerSunpointing =>
          if success {
            OnEvent(AdcsReqSignal(SUN));
          }
        case TriggerMeasuring =>
          if success {
            OnEvent(PayloadSignal(MEASURING));
          }
        case _ =>
      }
    }
  }
}
