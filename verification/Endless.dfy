/** What the enforce flag of the state does to the cascade: how deep on_event nests from any
    state, and when it has no bottom. */
module Endless {
  import opened States
  import opened Cascade
  import FlatStep

  /** The state after a piece of the cascade, and how deep that piece nested. */
  datatype Trace = Trace(state: Snapshot, depth: nat)

  /** The depth of two pieces that run one after the other. */
  function Then(a: Trace, b: Trace): Trace {
    Trace(b.state, Max(a.depth, b.depth))
  }

  // ----------------------------------------------------- limited cascades

  /** on_event with room for `fuel` activations on the stack; one that finds no room does
      nothing. Other than `OnEvent` this needs no flag to be down. */
  function Limited(s: Snapshot, e: Event, fuel: nat): (r: Trace)
    ensures r.depth <= fuel && r.state.enforcedSafemode == s.enforcedSafemode
    decreases fuel, 2, 0
  {
    if fuel == 0 then Trace(s, 0) else
      var u, t := Source(s, e), Target(s, e);
      var r := LimitedRun(AfterLeop(u, t), Table(u, t), fuel - 1);
      r.(depth := 1 + r.depth)
  }

  function LimitedRun(s: Snapshot, l: seq<Action>, fuel: nat): (r: Trace)
    ensures r.depth <= fuel && r.state.enforcedSafemode == s.enforcedSafemode
    decreases fuel, 4, |l|
  {
    if l == [] then Trace(s, 0) else
      var first := LimitedPerform(s, l[0], fuel);
      Then(first, LimitedRun(first.state, l[1..], fuel))
  }

  function LimitedPerform(s: Snapshot, a: Action, fuel: nat): (r: Trace)
    ensures r.depth <= fuel && r.state.enforcedSafemode == s.enforcedSafemode
    decreases fuel, 3, 0
  {
    match a
    case EnterManualMode => Limited(s, ManualModeSignal(true), fuel)
    case LeaveManualMode => Limited(s, ManualModeSignal(false), fuel)
    case EnterSafeMode(r) =>
      var first := Limited(s, SafeModeSignal(r), fuel);
      Then(first, Limited(first.state, ManeuverModeSignal(false), fuel))
    case LeaveSafeMode => Limited(s, SafeModeSignal(0), fuel)
    case FinishLeop => Limited(s, LeopSignal(DONE), fuel)
    case _ => Trace(s, 0)
  }

  /** The trace tells the truth about a piece of the cascade, as far as the room goes. */
  predicate Tells(r: Trace, fuel: nat, state: Snapshot, nesting: nat) {
    r.depth == (if nesting <= fuel then nesting else fuel) && (nesting <= fuel ==> r.state == state)
  }

  /** With the flag down the limited cascade is the cascade: it counts the nesting up to the
      room there is, and with enough room it ends in the same state. */
  lemma {:induction false} DepthIsNesting(w: World, e: Event, fuel: nat)
    requires Steady(w.state)
    ensures Tells(Limited(w.state, e, fuel), fuel, OnEvent(w, e).state, Nesting(w, e))
    decreases fuel, 2, 0
  {
    hide Table, RunActions, RunNesting, LimitedRun, EventRank;
    if fuel > 0 {
      var u, t := Source(w.state, e), Target(w.state, e);
      RunDepth(w.(state := AfterLeop(u, t)), Table(u, t), fuel - 1);
    }
  }

  lemma {:induction false} RunDepth(w: World, l: seq<Action>, fuel: nat)
    requires Steady(w.state)
    ensures Tells(LimitedRun(w.state, l, fuel), fuel, RunActions(w, l).state, RunNesting(w, l))
    decreases fuel, 4, |l|
  {
    hide Perform, PerformNesting, LimitedPerform;
    if l != [] {
      var w1 := AddAction(w, l[0]);
      PerformDepth(w1, w.nextId, l[0], fuel);
      RunDepth(Perform(w1, w.nextId, l[0]), l[1..], fuel);
    }
  }

  lemma {:induction false} PerformDepth(w: World, id: nat, a: Action, fuel: nat)
    requires Steady(w.state)
    ensures Tells(LimitedPerform(w.state, a, fuel), fuel, Perform(w, id, a).state, PerformNesting(w, a))
    decreases fuel, 3, 0
  {
    hide OnEvent, Nesting, Limited;
    match a
    case EnterManualMode => DepthIsNesting(w, ManualModeSignal(true), fuel);
    case LeaveManualMode => DepthIsNesting(w, ManualModeSignal(false), fuel);
    case EnterSafeMode(r) =>
      DepthIsNesting(w, SafeModeSignal(r), fuel);
      DepthIsNesting(OnEvent(w, SafeModeSignal(r)), ManeuverModeSignal(false), fuel);
    case LeaveSafeMode => DepthIsNesting(w, SafeModeSignal(0), fuel);
    case FinishLeop => DepthIsNesting(w, LeopSignal(DONE), fuel);
    case _ =>
  }

  lemma LimitedUnfolds(s: Snapshot, e: Event, fuel: nat)
    requires fuel > 0
    ensures var u, t := Source(s, e), Target(s, e);
            Limited(s, e, fuel).depth == 1 + LimitedRun(AfterLeop(u, t), Table(u, t), fuel - 1).depth
  {
    hide LimitedRun, Table;
  }

  // -------------------------------------------------------- quiet actions

  predicate Quiet(l: seq<Action>) {
    forall i :: 0 <= i < |l| ==> ActionRank(l[i]) == 0
  }

  lemma {:induction false} QuietFirst(s: Snapshot, l: seq<Action>, m: seq<Action>, fuel: nat)
    requires Quiet(l)
    ensures LimitedRun(s, l + m, fuel) == LimitedRun(s, m, fuel)
    decreases |l|
  {
    if l == [] {
      assert l + m == m;
    } else {
      assert ActionRank(l[0]) == 0;
      assert (l + m)[1..] == l[1..] + m;
      QuietFirst(s, l[1..], m, fuel);
    }
  }

  lemma QuietRun(s: Snapshot, l: seq<Action>, fuel: nat)
    requires Quiet(l)
    ensures LimitedRun(s, l, fuel) == Trace(s, 0)
  {
    QuietFirst(s, l, [], fuel);
    assert l + [] == l;
  }

  // -------------------------------------------------------- the flag is up

  /** Safemode is on, or called for with nothing to stop it. */
  predicate SafemodeDue(s: Snapshot) {
    s.safemode != 0 || (!s.manualmode && Emergency(s) != 0)
  }

  lemma EntryRepeats(s: Snapshot, r: uint8)
    requires s.enforcedSafemode && r != 0
    ensures var u, signal := s.(safemode := r), SafeModeSignal(r);
            Source(s, signal) == u == Target(s, signal) && AfterLeop(u, u) == u
            && EnterSafeMode(3) in Table(u, u)
  {
    var u := s.(safemode := r);
    TableRows(u, u, EnterSafeMode(3));
    hide Table;
  }

  /** Entering safemode raises a signal that leaves safemode on, so that it is entered again. */
  lemma {:induction false} EntryNeverEnds(s: Snapshot, r: uint8, fuel: nat)
    requires s.enforcedSafemode && r != 0
    ensures Limited(s, SafeModeSignal(r), fuel).depth == fuel
    decreases fuel, 0, 0
  {
    hide *;
    if fuel > 0 {
      EntryRepeats(s, r);
      LimitedUnfolds(s, SafeModeSignal(r), fuel);
      var u := s.(safemode := r);
      ListNeverEnds(u, Table(u, u), 3, fuel - 1);
    }
  }

  /** So does any list with such an entry in it, whatever is performed before. */
  lemma {:induction false} ListNeverEnds(s: Snapshot, l: seq<Action>, r: uint8, fuel: nat)
    requires s.enforcedSafemode && r != 0 && EnterSafeMode(r) in l
    ensures LimitedRun(s, l, fuel).depth == fuel
    decreases fuel, 1, |l|
  {
    hide Limited;
    if l[0] == EnterSafeMode(r) {
      EntryNeverEnds(s, r, fuel);
    } else {
      ListNeverEnds(LimitedPerform(s, l[0], fuel).state, l[1..], r, fuel);
    }
  }

  /** Does handling the event make HORST enter safemode? */
  predicate EntersSafemode(s: Snapshot, e: Event) {
    SafemodeDue(Target(s, e)) || FlatStep.Pending(Source(s, e))
  }

  /** Does the table of the event list an entry into safemode? */
  predicate ListsEntry(s: Snapshot, e: Event) {
    Target(s, e).safemode != 0 || FlatStep.Pending(Source(s, e))
  }

  lemma EntryListed(s: Snapshot, e: Event)
    requires s.enforcedSafemode && ListsEntry(s, e)
    ensures exists r: uint8 :: r != 0 && EnterSafeMode(r) in Table(Source(s, e), Target(s, e))
  {
    var u, t := Source(s, e), Target(s, e);
    var r: uint8 := if t.safemode != 0 then 3 else Emergency(u);
    TableRows(u, t, EnterSafeMode(r));
    hide Table;
  }

  lemma FlagStays(s: Snapshot, e: Event)
    requires s.enforcedSafemode
    ensures AfterLeop(Source(s, e), Target(s, e)).enforcedSafemode
  {
  }

  lemma ListedNeverEnds(s: Snapshot, e: Event, fuel: nat)
    requires s.enforcedSafemode && ListsEntry(s, e)
    ensures Limited(s, e, fuel).depth == fuel
  {
    hide *;
    if fuel > 0 {
      EntryListed(s, e);
      var u, t := Source(s, e), Target(s, e);
      var r: uint8 :| r != 0 && EnterSafeMode(r) in Table(u, t);
      LimitedUnfolds(s, e, fuel);
      FlagStays(s, e);
      ListNeverEnds(AfterLeop(u, t), Table(u, t), r, fuel - 1);
    }
  }

  /** The fact an action raises when it brings about what a request asks for, if any. */
  function Raised(a: Action): seq<Event> {
    match a
    case EnterManualMode => [ManualModeSignal(true)]
    case LeaveManualMode => [ManualModeSignal(false)]
    case LeaveSafeMode => [SafeModeSignal(0)]
    case FinishLeop => [LeopSignal(DONE)]
    case _ => []
  }

  /** Without an entry into safemode the list holds at most one action that raises an event,
      and that event makes the target state the current one. */
  lemma QuietTable(s: Snapshot, e: Event)
    requires s.enforcedSafemode && !ListsEntry(s, e)
    ensures var u, t := Source(s, e), Target(s, e);
            var own := RequestRules(u, t);
      && Quiet(ShellActions(t.shellCommands)) && Quiet(LogicRules(AfterLeop(u, t), t))
      && Table(u, t) == ShellActions(t.shellCommands) + own + LogicRules(AfterLeop(u, t), t)
      && (EntersSafemode(s, e) <==> SafemodeDue(t)) && (own == [] ==> !SafemodeDue(t))
      && (own != [] ==> |own| == 1 && |Raised(own[0])| == 1 && Raised(own[0])[0].IsFact()
                        && Raised(own[0])[0].Updated(AfterLeop(u, t)) == t)
  {
    QuietRules(s, e);
    OwnRaises(s, e);
    if RequestRules(Source(s, e), Target(s, e)) == [] {
      NoneOwned(s, e);
    }
    hide RequestRules, LogicRules, SafemodeDue, Source, Target, FlatStep.Pending, Quiet;
  }

  lemma QuietRules(s: Snapshot, e: Event)
    requires !ListsEntry(s, e)
    ensures var u, t := Source(s, e), Target(s, e);
            Quiet(ShellActions(t.shellCommands)) && Quiet(LogicRules(AfterLeop(u, t), t))
  {
  }

  lemma OwnRaises(s: Snapshot, e: Event)
    requires s.enforcedSafemode && Target(s, e).safemode == 0
    ensures var u, t := Source(s, e), Target(s, e);
            var own := RequestRules(u, t);
            own != [] ==> |own| == 1 && |Raised(own[0])| == 1 && Raised(own[0])[0].IsFact()
                          && Raised(own[0])[0].Updated(AfterLeop(u, t)) == t
  {
  }

  /** Without an own action the modes of the target are those of the source. */
  lemma NoneOwned(s: Snapshot, e: Event)
    requires RequestRules(Source(s, e), Target(s, e)) == [] && Target(s, e).safemode == 0
    ensures SafemodeDue(Target(s, e)) <==> FlatStep.Pending(Source(s, e))
  {
    var u, t := Source(s, e), Target(s, e);
    assert ManualRule(u, t) == [] == SafeRule(u, t);
    assert t.manualmode == u.manualmode && u.safemode == 0;
    assert Emergency(t) == Emergency(u);
    hide Emergency;
  }

  lemma RunOne(s: Snapshot, a: Action, rules: seq<Action>, fuel: nat)
    requires Quiet(rules)
    ensures LimitedRun(s, [a] + rules, fuel).depth == LimitedPerform(s, a, fuel).depth
  {
    hide LimitedPerform, Quiet;
    assert ([a] + rules)[1..] == rules;
    QuietRun(LimitedPerform(s, a, fuel).state, rules, fuel);
  }

  /** The depth of such an event: its own, and that of the one event it raises. */
  lemma QuietDepth(s: Snapshot, e: Event, fuel: nat)
    requires s.enforcedSafemode && !ListsEntry(s, e) && fuel > 0
    ensures var u, t := Source(s, e), Target(s, e);
            var own := RequestRules(u, t);
      && (own == [] ==> Limited(s, e, fuel).depth == 1)
      && (own != [] ==> Raised(own[0]) != []
                        && Limited(s, e, fuel).depth
                           == 1 + Limited(AfterLeop(u, t), Raised(own[0])[0], fuel - 1).depth)
  {
    var u, t := Source(s, e), Target(s, e);
    var own, rules := RequestRules(u, t), LogicRules(AfterLeop(u, t), t);
    hide *;
    LimitedUnfolds(s, e, fuel);
    QuietTable(s, e);
    assert Table(u, t) == ShellActions(t.shellCommands) + (own + rules);
    QuietFirst(AfterLeop(u, t), ShellActions(t.shellCommands), own + rules, fuel - 1);
    if own == [] {
      assert own + rules == rules;
      QuietRun(AfterLeop(u, t), rules, fuel - 1);
    } else {
      assert (own + rules)[1..] == rules;
      RunOne(AfterLeop(u, t), own[0], rules, fuel - 1);
      RaisedDepth(AfterLeop(u, t), own[0], fuel - 1);
      assert own + rules == [own[0]] + rules;
    }
  }

  lemma RaisedDepth(s: Snapshot, a: Action, fuel: nat)
    requires Raised(a) != []
    ensures LimitedPerform(s, a, fuel) == Limited(s, Raised(a)[0], fuel)
  {
    hide Limited;
  }

  lemma FactListsEntry(s: Snapshot, e: Event)
    requires s.enforcedSafemode && e.IsFact()
    ensures ListsEntry(s, e) <==> SafemodeDue(e.Updated(s))
    ensures RequestRules(Source(s, e), Target(s, e)) == [] <==> e.Updated(s).safemode == 0
  {
  }

  // -------------------------------------------------------------- results

  /** The cascade has no bottom: it fills any room it is given. */
  ghost predicate NoBottom(s: Snapshot, e: Event) {
    forall fuel: nat :: Limited(s, e, fuel).depth == fuel
  }

  lemma ListedEnters(s: Snapshot, e: Event)
    ensures ListsEntry(s, e) ==> EntersSafemode(s, e)
  {
  }

  lemma EnforcedDepth(s: Snapshot, e: Event, fuel: nat)
    requires s.enforcedSafemode
    ensures EntersSafemode(s, e) ==> Limited(s, e, fuel).depth == fuel
    ensures !EntersSafemode(s, e) ==> Limited(s, e, fuel).depth <= 2
  {
    hide *;
    if ListsEntry(s, e) {
      ListedEnters(s, e);
      ListedNeverEnds(s, e, fuel);
    } else if fuel > 0 {
      var u, t := Source(s, e), Target(s, e);
      var own := RequestRules(u, t);
      QuietDepth(s, e, fuel);
      QuietTable(s, e);
      FlagStays(s, e);
      if own != [] {
        RaisedEnds(AfterLeop(u, t), Raised(own[0])[0], fuel - 1);
      }
    }
  }

  lemma RaisedEnds(s: Snapshot, e: Event, fuel: nat)
    requires s.enforcedSafemode && e.IsFact()
    ensures SafemodeDue(e.Updated(s)) ==> Limited(s, e, fuel).depth == fuel
    ensures !SafemodeDue(e.Updated(s)) ==> Limited(s, e, fuel).depth <= 1
  {
    FactListsEntry(s, e);
    hide Limited, ListsEntry, RequestRules, Source, Target;
    if SafemodeDue(e.Updated(s)) {
      ListedNeverEnds(s, e, fuel);
    } else if fuel > 0 {
      QuietDepth(s, e, fuel);
    }
  }

  /** From any state and for any event, fact or request, the cascade has no bottom if and only
      if the enforce flag is up and the event makes HORST enter safemode. Otherwise it is
      never more than three deep. */
  lemma NoBottomIff(s: Snapshot, e: Event)
    ensures NoBottom(s, e) <==> s.enforcedSafemode && EntersSafemode(s, e)
    ensures !NoBottom(s, e) ==> forall fuel: nat :: Limited(s, e, fuel).depth <= 3
  {
    hide Limited, EntersSafemode;
    if s.enforcedSafemode {
      forall fuel: nat
        ensures EntersSafemode(s, e) ==> Limited(s, e, fuel).depth == fuel
        ensures !EntersSafemode(s, e) ==> Limited(s, e, fuel).depth <= 2
      {
        EnforcedDepth(s, e, fuel);
      }
      assert !EntersSafemode(s, e) ==> Limited(s, e, 3).depth != 3;
    } else {
      forall fuel: nat
        ensures Limited(s, e, fuel).depth <= 3
      {
        SteadyDepth(s, e, fuel);
      }
      assert Limited(s, e, 4).depth != 4;
    }
  }

  lemma SteadyDepth(s: Snapshot, e: Event, fuel: nat)
    requires Steady(s)
    ensures Limited(s, e, fuel).depth <= 3
  {
    var w := Initial(false, 0, DONE).(state := s);
    hide *;
    DepthIsNesting(w, e, fuel);
    NestingBound(w, e);
  }
}
