/** The satellite state (src/state), the events that update it (src/event) and
    the logic table that turns a current and a target state into actions. */
module States {

  type uint8 = n: nat | n < 0x100
  type uint16 = n: nat | n < 0x1_0000

  datatype Leop = UNDEPLOYED | DEPLOYED | DONE
  datatype Temperature = OK | WARN | ALARM
  datatype PayloadState = OFF | IDLE | WANTMEASURE | MEASURING
  datatype AdcsState = NONE | SLEEP | ATTDET | DETUMB | NADIR | SUN | FLASH | EXP | TEST | POWEROFF

  /** A shell command together with the control message that asked for it. */
  datatype ShellRequest = ShellRequest(command: string, tag: nat)

  datatype Action =
    | ShellCommand(request: ShellRequest)
    | EnterManualMode
    | LeaveManualMode
    | EnterSafeMode(reason: uint8)
    | LeaveSafeMode
    | FinishLeop
    | TriggerMeasuring
    | TriggerDetumbling
    | TriggerSunpointing

  /** The value of a State object. */
  datatype Snapshot = Snapshot(
    batteryThreshold: uint16,
    shellCommands: seq<ShellRequest>,
    safemode: uint8,
    enforcedSafemode: bool,
    manualmode: bool,
    maneuvermode: bool,
    leop: Leop,
    batteryLevel: uint16,
    temperature: Temperature,
    payload: PayloadState,
    pointing: AdcsState,
    requested: AdcsState)
  {
    /** The logic rules only apply when neither mode is on. */
    predicate ModesOff() {
      safemode == 0 && !manualmode
    }
  }

  // ------------------------------------------------------------- events

  datatype Event =
    | AdcsReqSignal(adcs: AdcsState)
    | AdcsSignal(adcs: AdcsState)
    | EpsSignal(battery: uint16)
    | LeopReq(leop: Leop)
    | LeopSignal(leop: Leop)
    | ManeuverModeSignal(on: bool)
    | ManualModeReq(on: bool)
    | ManualModeSignal(on: bool)
    | PayloadReq(payload: PayloadState)
    | PayloadSignal(payload: PayloadState)
    | SafeModeReq(on: bool)
    | SafeModeSignal(reason: uint8)
    | ShellCommandReq(request: ShellRequest)
    | ThmSignal(temperature: Temperature)
  {
    predicate IsFact() {
      !LeopReq? && !ManualModeReq? && !PayloadReq? && !SafeModeReq? && !ShellCommandReq?
    }

    /** The value of a state after this event has updated it. */
    function Updated(s: Snapshot): Snapshot {
      match this
      case AdcsReqSignal(a) => s.(requested := a, pointing := NONE)
      case AdcsSignal(a) => s.(pointing := a, requested := NONE)
      case EpsSignal(b) => s.(batteryLevel := b)
      case LeopReq(l) => s.(leop := l)
      case LeopSignal(l) => s.(leop := l)
      case ManeuverModeSignal(on) => s.(maneuvermode := on)
      case ManualModeReq(on) => s.(manualmode := on)
      case ManualModeSignal(on) => s.(manualmode := on)
      case PayloadReq(p) => s.(payload := p)
      case PayloadSignal(p) => s.(payload := p)
      case SafeModeReq(on) => s.(safemode := if on then 1 else 0, enforcedSafemode := true)
      case SafeModeSignal(r) => s.(safemode := r)
      case ShellCommandReq(q) => s.(shellCommands := s.shellCommands + [q])
      case ThmSignal(t) => s.(temperature := t)
    }

    method Update(state: State)
      modifies state
      ensures state.View() == Updated(old(state.View()))
    {
      if IsFact() {
        UpdateFact(state);
      } else {
        UpdateRequest(state);
      }
    }

    method UpdateFact(state: State)
      requires IsFact()
      modifies state
      ensures state.View() == Updated(old(state.View()))
    {
      match this {
        case AdcsReqSignal(a) => state.requested := a; state.pointing := NONE;
        case AdcsSignal(a) => state.pointing := a; state.requested := NONE;
        case EpsSignal(b) => state.batteryLevel := b;
        case LeopSignal(l) => state.leop := l;
        case ManeuverModeSignal(on) => state.maneuvermode := on;
        case ManualModeSignal(on) => state.manualmode := on;
        case PayloadSignal(p) => state.payload := p;
        case SafeModeSignal(r) => state.safemode := r;
        case ThmSignal(t) => state.temperature := t;
      }
    }

    method UpdateRequest(state: State)
      requires !IsFact()
      modifies state
      ensures state.View() == Updated(old(state.View()))
    {
      match this {
        case LeopReq(l) => state.leop := l;
        case ManualModeReq(on) => state.manualmode := on;
        case PayloadReq(p) => state.payload := p;
        case SafeModeReq(on) =>
          state.safemode := if on then 1 else 0;
          state.enforcedSafemode := true;
        case ShellCommandReq(q) => state.shellCommands := state.shellCommands + [q];
      }
    }
  }

  // -------------------------------------------------------- logic table

  function ShellActions(commands: seq<ShellRequest>): seq<Action> {
    seq(|commands|, i requires 0 <= i < |commands| => ShellCommand(commands[i]))
  }

  function ManualRule(s: Snapshot, t: Snapshot): seq<Action> {
    if t.manualmode && !s.manualmode then [EnterManualMode]
    else if !t.manualmode && s.manualmode then [LeaveManualMode]
    else []
  }

  function SafeRule(s: Snapshot, t: Snapshot): seq<Action> {
    if t.safemode != 0 && (s.safemode == 0 || t.enforcedSafemode) then [EnterSafeMode(3)]
    else if t.safemode == 0 && s.safemode != 0 then [LeaveSafeMode]
    else []
  }

  function LeopRule(s: Snapshot, t: Snapshot): seq<Action> {
    if t.leop != s.leop && t.leop == DONE then [FinishLeop] else []
  }

  /** The table moves LEOP to any value but DONE by itself, without an action. */
  function AfterLeop(s: Snapshot, t: Snapshot): Snapshot {
    if t.leop != DONE then s.(leop := t.leop) else s
  }

  /** The safemode reason an emergency calls for, 0 if there is none. */
  function Emergency(s: Snapshot): uint8 {
    if s.temperature == ALARM then 1
    else if s.batteryLevel < s.batteryThreshold then 2
    else 0
  }

  function EmergencyRule(s: Snapshot): seq<Action> {
    if Emergency(s) != 0 then [EnterSafeMode(Emergency(s))] else []
  }

  predicate MeasureWanted(s: Snapshot, t: Snapshot) {
    t.payload == WANTMEASURE && s.batteryLevel > s.batteryThreshold
    && s.temperature == OK && s.leop == DONE
  }

  function AdcsRule(s: Snapshot): seq<Action> {
    if s.maneuvermode || s.leop == UNDEPLOYED then []
    else if s.pointing == DETUMB then [TriggerSunpointing]
    else if s.pointing != SUN && s.requested != SUN && s.requested != DETUMB then [TriggerDetumbling]
    else []
  }

  /** The rules below line 77 of state.cpp, which need both modes off. */
  function LogicRules(s: Snapshot, t: Snapshot): seq<Action> {
    if s.ModesOff() then
      EmergencyRule(s) + (if MeasureWanted(s, t) then [TriggerMeasuring] else []) + AdcsRule(s)
    else []
  }

  function RequestRules(s: Snapshot, t: Snapshot): seq<Action> {
    ManualRule(s, t) + SafeRule(s, t) + LeopRule(s, t)
  }

  function Table(s: Snapshot, t: Snapshot): seq<Action> {
    ShellActions(t.shellCommands) + RequestRules(s, t) + LogicRules(AfterLeop(s, t), t)
  }

  lemma ShellRows(commands: seq<ShellRequest>, a: Action)
    ensures a in ShellActions(commands) <==> a.ShellCommand? && a.request in commands
  {
    if a.ShellCommand? && a.request in commands {
      var i :| 0 <= i < |commands| && commands[i] == a.request;
      assert ShellActions(commands)[i] == a;
    }
  }

  /** The table is the concatenation of its parts, so membership splits over them. */
  lemma TableParts(s: Snapshot, t: Snapshot, a: Action)
    ensures a in Table(s, t) <==>
            || (a.ShellCommand? && a.request in t.shellCommands)
            || a in ManualRule(s, t) || a in SafeRule(s, t) || a in LeopRule(s, t)
            || a in LogicRules(AfterLeop(s, t), t)
  {
    ShellRows(t.shellCommands, a);
  }

  lemma LogicParts(s: Snapshot, t: Snapshot, a: Action)
    ensures a in LogicRules(s, t) <==>
            && s.ModesOff()
            && (|| (a == EnterSafeMode(Emergency(s)) && Emergency(s) != 0)
                || (a == TriggerMeasuring && MeasureWanted(s, t))
                || a in AdcsRule(s))
  {
  }

  /** The rows of the documented logic table: when may action `a` be triggered? */
  predicate Row(s: Snapshot, t: Snapshot, a: Action) {
    var deployed := t.leop != UNDEPLOYED && (t.leop != DONE || s.leop != UNDEPLOYED);
    var adcs := s.safemode == 0 && !s.manualmode && !s.maneuvermode && deployed;
    match a
    case ShellCommand(q) => q in t.shellCommands
    case EnterManualMode => t.manualmode && !s.manualmode
    case LeaveManualMode => !t.manualmode && s.manualmode
    case EnterSafeMode(r) =>
      || (r == 3 && t.safemode != 0 && (s.safemode == 0 || t.enforcedSafemode))
      || (r == 1 && s.safemode == 0 && !s.manualmode && s.temperature == ALARM)
      || (r == 2 && s.safemode == 0 && !s.manualmode && s.temperature != ALARM
          && s.batteryLevel < s.batteryThreshold)
    case LeaveSafeMode => t.safemode == 0 && s.safemode != 0
    case FinishLeop => t.leop == DONE && s.leop != DONE
    case TriggerMeasuring =>
      s.safemode == 0 && !s.manualmode && t.payload == WANTMEASURE
      && s.batteryLevel > s.batteryThreshold && s.temperature == OK
      && t.leop == DONE && s.leop == DONE
    case TriggerDetumbling =>
      adcs && s.pointing !in {SUN, DETUMB} && s.requested !in {SUN, DETUMB}
    case TriggerSunpointing => adcs && s.pointing == DETUMB
  }

  /** The table lists exactly the actions whose row applies. */
  lemma TableRows(s: Snapshot, t: Snapshot, a: Action)
    ensures a in Table(s, t) <==> Row(s, t, a)
  {
    TableParts(s, t, a);
    LogicParts(AfterLeop(s, t), t, a);
    assert a in ManualRule(s, t) <==> (a.EnterManualMode? || a.LeaveManualMode?) && Row(s, t, a);
    assert a in LeopRule(s, t) <==> a.FinishLeop? && Row(s, t, a);
    assert a in SafeRule(s, t) <==> (a == EnterSafeMode(3) || a.LeaveSafeMode?) && Row(s, t, a);
  }

  /** The place of an action in the table, behind the queued shell commands. */
  function Place(a: Action): nat {
    match a
    case ShellCommand(_) => 0
    case EnterManualMode => 1
    case LeaveManualMode => 1
    case EnterSafeMode(r) => if r == 3 then 2 else 4
    case LeaveSafeMode => 2
    case FinishLeop => 3
    case TriggerMeasuring => 5
    case TriggerDetumbling => 6
    case TriggerSunpointing => 6
  }

  /** Each action has a place of its own, from `low` to `high` in this order. */
  predicate Ordered(l: seq<Action>, low: nat, high: nat) {
    && (forall i :: 0 <= i < |l| ==> low <= Place(l[i]) <= high)
    && (forall i, j :: 0 <= i < j < |l| ==> Place(l[i]) < Place(l[j]))
  }

  lemma OrderedConcat(l: seq<Action>, m: seq<Action>, low: nat, mid: nat, high: nat)
    requires low <= mid < high && Ordered(l, low, mid) && Ordered(m, mid + 1, high)
    ensures Ordered(l + m, low, high)
  {
  }

  /** The order of the table: the queued shell commands as they came, then at most one action
      for each place, in the order of the places. With `TableRows` this fixes the list. */
  lemma TableOrder(s: Snapshot, t: Snapshot)
    ensures exists rules :: Table(s, t) == ShellActions(t.shellCommands) + rules && Ordered(rules, 1, 6)
    ensures forall i :: 0 <= i < |t.shellCommands| ==> Table(s, t)[i] == ShellCommand(t.shellCommands[i])
  {
    var own, logic := RequestRules(s, t), LogicRules(AfterLeop(s, t), t);
    OwnOrder(s, t);
    LogicOrder(AfterLeop(s, t), t);
    assert Table(s, t) == ShellActions(t.shellCommands) + (own + logic);
    hide Table, RequestRules, LogicRules, Ordered;
    OrderedConcat(own, logic, 1, 3, 6);
  }

  lemma OwnOrder(s: Snapshot, t: Snapshot)
    ensures Ordered(RequestRules(s, t), 1, 3)
  {
    OrderedConcat(ManualRule(s, t), SafeRule(s, t), 1, 1, 2);
    OrderedConcat(ManualRule(s, t) + SafeRule(s, t), LeopRule(s, t), 1, 2, 3);
  }

  lemma LogicOrder(s: Snapshot, t: Snapshot)
    ensures Ordered(LogicRules(s, t), 4, 6)
  {
    var wanted := if MeasureWanted(s, t) then [TriggerMeasuring] else [];
    OrderedConcat(EmergencyRule(s), wanted, 4, 4, 5);
    OrderedConcat(EmergencyRule(s) + wanted, AdcsRule(s), 4, 5, 6);
  }

  // -------------------------------------------------------------- State

  class State {
    var batteryThreshold: uint16
    var shellCommands: seq<ShellRequest>
    var safemode: uint8
    var enforcedSafemode: bool
    var manualmode: bool
    var maneuvermode: bool
    var leop: Leop
    var batteryLevel: uint16
    var temperature: Temperature
    var payload: PayloadState
    var pointing: AdcsState
    var requested: AdcsState

    function View(): Snapshot
      reads this
    {
      Snapshot(batteryThreshold, shellCommands, safemode, enforcedSafemode, manualmode,
               maneuvermode, leop, batteryLevel, temperature, payload, pointing, requested)
    }

    /** The C++ constructor leaves `leop` and `enforcedSafemode` unset. Here `leop` stays
        arbitrary; the flag starts false, as its description in state.h intends. */
    constructor ()
      ensures !enforcedSafemode && shellCommands == [] && payload == OFF
      ensures safemode == 0 && !manualmode && !maneuvermode
      ensures batteryThreshold == 5000 && batteryLevel == 30 && temperature == WARN
      ensures pointing == NONE && requested == NONE
    {
      batteryThreshold, shellCommands := 5000, [];
      safemode, enforcedSafemode, manualmode, maneuvermode := 0, false, false, false;
      batteryLevel, temperature, payload := 30, WARN, OFF;
      pointing, requested := NONE, NONE;
    }

    /** The implicit copy constructor. */
    constructor Like(other: State)
      ensures View() == other.View()
    {
      batteryThreshold, shellCommands := other.batteryThreshold, other.shellCommands;
      safemode, enforcedSafemode := other.safemode, other.enforcedSafemode;
      manualmode, maneuvermode, leop := other.manualmode, other.maneuvermode, other.leop;
      batteryLevel, temperature, payload := other.batteryLevel, other.temperature, other.payload;
      pointing, requested := other.pointing, other.requested;
    }

    method Copy() returns (c: State)
      ensures fresh(c) && c.View() == View()
    {
      c := new State.Like(this);
    }

    /** Computer::transform_to: one action per queued command of the target. */
    static method ComputerActions(commands: seq<ShellRequest>) returns (ret: seq<Action>)
      ensures ret == ShellActions(commands)
    {
      ret := [];
      for i := 0 to |commands|
        invariant |ret| == i
        invariant forall k :: 0 <= k < i ==> ret[k] == ShellCommand(commands[k])
      {
        ret := ret + [ShellCommand(commands[i])];
      }
    }

    method TransformTo(target: State) returns (ret: seq<Action>)
      requires target != this
      modifies this
      ensures ret == Table(old(View()), target.View())
      ensures View() == AfterLeop(old(View()), target.View())
    {
      var shells := ComputerActions(target.shellCommands);
      var requests := ApplyRequests(target);
      var finish := [];
      if target.leop != leop {
        if target.leop == DONE {
          finish := [FinishLeop];
        } else {
          leop := target.leop;
        }
      }
      var rules := [];
      if safemode == 0 && !manualmode {
        rules := ApplyLogic(target);
      }
      assert rules == LogicRules(View(), target.View());
      ret := shells + (requests + finish) + rules;
    }

    /** The part of transform_to that handles the manualmode and safemode requests. */
    method ApplyRequests(target: State) returns (ret: seq<Action>)
      ensures ret == ManualRule(View(), target.View()) + SafeRule(View(), target.View())
    {
      ret := [];
      if target.manualmode && !manualmode {
        ret := ret + [EnterManualMode];
      } else if !target.manualmode && manualmode {
        ret := ret + [LeaveManualMode];
      }

      if target.safemode != 0 && (safemode == 0 || target.enforcedSafemode) {
        ret := ret + [EnterSafeMode(3)];
      } else if target.safemode == 0 && safemode != 0 {
        ret := ret + [LeaveSafeMode];
      }
    }

    /** The part of transform_to that runs only with both modes off. */
    method ApplyLogic(target: State) returns (ret: seq<Action>)
      requires View().ModesOff()
      ensures ret == LogicRules(View(), target.View())
    {
      ret := [];
      if temperature == ALARM {
        ret := ret + [EnterSafeMode(1)];
      } else if batteryLevel < batteryThreshold {
        ret := ret + [EnterSafeMode(2)];
      }

      if target.payload == WANTMEASURE && batteryLevel > batteryThreshold
         && temperature == OK && leop == DONE {
        ret := ret + [TriggerMeasuring];
      }

      if !maneuvermode {
        if pointing != SUN && pointing != DETUMB && requested != SUN && requested != DETUMB
           && leop != UNDEPLOYED {
          ret := ret + [TriggerDetumbling];
        }
        if pointing == DETUMB && leop != UNDEPLOYED {
          ret := ret + [TriggerSunpointing];
        }
      }
    }
  }
}
