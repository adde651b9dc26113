/** Every shell request is answered exactly once, or its command is still running or was
    killed. */
module Answers {
  import opened States
  import opened Cascade
  import opened Runs
  import opened Demands

  /** How often the callback of request `q` was fired. */
  function Answered(replies: seq<Reply>, q: ShellRequest): nat
    decreases |replies|
  {
    if replies == [] then 0 else
      Answered(replies[..|replies| - 1], q) + if replies[|replies| - 1].request == q then 1 else 0
  }

  /** The ids of the running commands of request `q`. */
  function Waiting(w: World, q: ShellRequest): set<nat> {
    set id | id in w.running && id in w.actions && w.actions[id] == ShellCommand(q)
  }

  /** The ids of the commands of request `q` that were ended by SIGTERM. */
  function Lost(w: World, q: ShellRequest): set<nat> {
    set id | id in w.killed && id in w.actions && w.actions[id] == ShellCommand(q)
  }

  /** The ids that were handed out to action `a`. */
  function IdsOf(started: seq<Action>, a: Action): set<nat> {
    set id: nat | id < |started| && started[id] == a
  }

  predicate IdsBelow(finished: seq<Completion>, n: nat) {
    forall i :: 0 <= i < |finished| ==> finished[i].id < n
  }

  predicate IdsDistinct(finished: seq<Completion>) {
    forall i, j :: 0 <= i < j < |finished| ==> finished[i].id != finished[j].id
  }

  /** The ids of the finished commands of request `q`. */
  function Completed(started: seq<Action>, finished: seq<Completion>, q: ShellRequest): set<nat>
    requires IdsBelow(finished, |started|)
    decreases |finished|
  {
    if finished == [] then {} else
      var c := finished[|finished| - 1];
      Completed(started, finished[..|finished| - 1], q)
      + if started[c.id] == ShellCommand(q) then {c.id} else {}
  }

  lemma IdsOfSnoc(init: seq<Action>, x: Action, a: Action)
    ensures IdsOf(init + [x], a) == IdsOf(init, a) + if x == a then {|init|} else {}
    ensures |IdsOf(init + [x], a)| == |IdsOf(init, a)| + if x == a then 1 else 0
  {
    assert IdsOf(init + [x], a) == IdsOf(init, a) + if x == a then {|init|} else {};
    assert |init| !in IdsOf(init, a);
  }

  lemma {:induction false} IdsOfCount(started: seq<Action>, a: Action)
    ensures |IdsOf(started, a)| == Count(started, a)
    decreases |started|
  {
    if started == [] {
      assert IdsOf(started, a) == {};
    } else {
      hide *;
      var init, x := started[..|started| - 1], started[|started| - 1];
      assert started == init + [x];
      IdsOfCount(init, a);
      IdsOfSnoc(init, x, a);
      CountSnoc(init, x, a);
    }
  }

  lemma {:induction false} CompletedIds(started: seq<Action>, finished: seq<Completion>, q: ShellRequest, id: nat)
    requires IdsBelow(finished, |started|)
    ensures id in Completed(started, finished, q)
            <==> Done(finished, id) && id < |started| && started[id] == ShellCommand(q)
    decreases |finished|
  {
    if finished != [] {
      var init, c := finished[..|finished| - 1], finished[|finished| - 1];
      CompletedIds(started, init, q, id);
      DoneSnoc(init, c, id);
      assert finished == init + [c];
    }
  }

  lemma DoneSnoc(finished: seq<Completion>, c: Completion, id: nat)
    ensures Done(finished + [c], id) <==> Done(finished, id) || id == c.id
  {
    var after := finished + [c];
    assert after[|finished|] == c;
    if Done(finished, id) {
      var i :| 0 <= i < |finished| && finished[i].id == id;
      assert after[i].id == id;
    }
  }

  /** Every completion of a command fires the callback of its request once. */
  lemma {:induction false} CompletedAreAnswered(started: seq<Action>, finished: seq<Completion>, q: ShellRequest)
    requires IdsBelow(finished, |started|) && IdsDistinct(finished)
    ensures Answered(RepliesOf(started, finished), q) == |Completed(started, finished, q)|
    decreases |finished|
  {
    if finished != [] {
      var init, c := finished[..|finished| - 1], finished[|finished| - 1];
      var before := RepliesOf(started, init);
      CompletedAreAnswered(started, init, q);
      CompletedIds(started, init, q, c.id);
      assert !Done(init, c.id);
      if started[c.id].ShellCommand? {
        var r := Reply(started[c.id].request, c.exitCode);
        assert (before + [r])[..|before|] == before;
      } else {
        assert before + [] == before;
      }
    }
  }

  /** Conservation of shell requests over any run: the answers given, the commands still
      running and the commands killed add up to the requests received. */
  lemma RequestsAnsweredOnce(args: Arguments, steps: seq<Step>, q: ShellRequest)
    ensures var w := Run(args, steps);
            Answered(w.replies, q) + |Waiting(w, q)| + |Lost(w, q)| == Count(steps, Bus(Exec(q)))
  {
    var w := Run(args, steps);
    RunInvariant(args, steps);
    ShellRunsOnce(args, steps, q);
    WaitingOrAnswered(w, q);
  }

  lemma WaitingOrAnswered(w: World, q: ShellRequest)
    requires Invariant(w)
    ensures Answered(w.replies, q) + |Waiting(w, q)| + |Lost(w, q)| == Count(w.started, ShellCommand(q))
  {
    CompletedAreAnswered(w.started, w.finished, q);
    IdsOfCount(w.started, ShellCommand(q));
    IdsPartition(w, q);
    hide *;
    var waiting, lost, done := Waiting(w, q), Lost(w, q), Completed(w.started, w.finished, q);
    assert |waiting + lost| == |waiting| + |lost|;
    assert |waiting + lost + done| == |waiting + lost| + |done|;
  }

  /** The ids of the commands of a request are those waiting, those lost and those completed. */
  lemma IdsPartition(w: World, q: ShellRequest)
    requires Invariant(w) && IdsBelow(w.finished, |w.started|)
    ensures var waiting, lost, done := Waiting(w, q), Lost(w, q), Completed(w.started, w.finished, q);
            IdsOf(w.started, ShellCommand(q)) == waiting + lost + done
            && waiting !! lost && waiting + lost !! done
  {
    hide *;
    var waiting, lost, done := Waiting(w, q), Lost(w, q), Completed(w.started, w.finished, q);
    forall id: nat
      ensures id in IdsOf(w.started, ShellCommand(q)) <==> id in waiting || id in lost || id in done
      ensures !(id in waiting && id in lost) && !(id in waiting + lost && id in done)
    {
      IdPart(w, q, id);
    }
  }

  lemma IdPart(w: World, q: ShellRequest, id: nat)
    requires Invariant(w) && IdsBelow(w.finished, |w.started|)
    ensures var waiting, lost, done := Waiting(w, q), Lost(w, q), Completed(w.started, w.finished, q);
      && (id in IdsOf(w.started, ShellCommand(q)) <==> id in waiting || id in lost || id in done)
      && !(id in waiting && id in lost) && !(id in waiting + lost && id in done)
  {
    hide Invariant, Completed;
    CompletedIds(w.started, w.finished, q, id);
    IdStatus(w, id);
  }

  lemma IdStatus(w: World, id: nat)
    requires Invariant(w)
    ensures id in w.running || id in w.killed <==> id < |w.started| && !Done(w.finished, id)
    ensures !(id in w.running && id in w.killed)
    ensures id in w.running || id in w.killed ==>
              id in w.actions && id < |w.started| && w.actions[id] == w.started[id]
  {
  }
}
