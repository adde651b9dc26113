/** Sessions whose command was ended by SIGTERM, but not by the server: the exit is not
    reported, nobody drops the process, and the session serves a dead command to its end. */
module Stranded {
  import opened Framing
  import opened Processes
  import opened Links
  import opened Sessions
  import opened SessionGuarantees

  /** The channel is live and the process is there, but its child is not. */
  predicate Dead(l: Link) {
    l.channel.Some? && l.process.Some? && !l.process.value.open && !l.process.value.hasIn
  }

  /** The command of a live session is ended by SIGTERM. */
  predicate KillsCommand(l: Link, cb: Callback) {
    cb.ProcessExit? && cb.signal == SIGTERM && l.channel.Some? && l.process.Some? && l.process.value.open
  }

  /** The callback does not close the channel of a session without a child. */
  predicate KeepsSession(l: Link, cb: Callback) {
    && !(cb.Data? && RefusedFront(Server, l.buf + cb.chunk))
    && !cb.Disconnected?
    && !(cb.BufferEmpty? && cb.outcome.Failed? && l.outbuf != [])
  }

  /** Nothing is queued for the client, written to the process, or closed between the two. */
  predicate Silent(l: Link, r: Link) {
    && SameSession(l, r) && l.process.Some? && r.process.Some?
    && r.channel.value.queued == l.channel.value.queued
    && r.channel.value.disconnects == l.channel.value.disconnects
    && r.process.value == l.process.value.(reading := r.process.value.reading)
  }

  // ------------------------------------------------------------- one step

  /** The exit of a command is reported to the client if and only if the signal is not
      SIGTERM; with SIGTERM the session goes on with a dead command. */
  lemma ReportedIff(l: Link, cb: Callback)
    requires Sane(l) && Sessions.Invariant(l) && l.channel.Some?
    requires cb.ProcessExit? && Enabled(l, cb)
    ensures var r := Next(l, cb);
      && (SameSession(l, r) <==> cb.signal == SIGTERM || cb.first || !cb.second.Failed?)
      && (SameSession(l, r) ==>
            && r.channel.value.queued
               == l.channel.value.queued
                  + (if cb.signal == SIGTERM then [] else [Frame(ENDOFFILE, ExitText(cb.code))])
            && (Dead(r) <==> cb.signal == SIGTERM)
            && (r.process.None? <==> cb.signal != SIGTERM))
  {
    hide Encode, EncodeAll, Grammatical, ExitText, AllAcceptable, Complete;
    assert l.channel.value.queued + [] == l.channel.value.queued;
    if cb.signal != SIGTERM {
      assert l.outbuf + Encode(Frame(ENDOFFILE, ExitText(cb.code))) != [];
    }
  }

  lemma DataDead(l: Link, chunk: bytes, stale: byte, accepts: bool, up: bool)
    requires Sessions.Invariant(l) && l.channel.Some?
    ensures var r := OnData(l, chunk, stale, accepts, up);
      && (Dead(r) <==> Dead(l) && !RefusedFront(Server, l.buf + chunk))
      && (Dead(r) ==> Silent(l, r))
  {
    var b := l.buf + chunk;
    var l1 := Buffered(l, chunk);
    OnDataCases(l, chunk, stale, accepts, up);
    if Complete(b) && !RefusedFront(Server, b) {
      var kind := if l.expected == 0 then b[4] else stale;
      var l2 := l1.(expected := LengthOf(b));
      InputOutSide(l, chunk, LengthOf(b));
      hide OnData, LengthOf, RefusedFront, Complete, Deliver, Faithful, HungUp, Throttled, Aligned;
      DeliverKeeps(l2, kind, FrontFrame(b).payload, accepts);
      if l.process.Some? {
        DeliverInput(l2, kind, FrontFrame(b).payload, accepts);
      }
    }
    hide OnData, LengthOf, RefusedFront, Complete, Deliver, Faithful, HungUp, Throttled, Aligned;
  }

  lemma DeliverInput(l: Link, kind: byte, payload: bytes, accepts: bool)
    requires l.process.Some?
    ensures var p := l.process.value;
            Deliver(l, kind, payload, accepts)
            == l.(process := Some(if kind == ENDOFFILE then p.CloseInput() else p.Input(payload)))
  {
  }

  /** One callback: a command dies unreported exactly by a SIGTERM, and stays dead, with
      nothing queued and all input dropped, exactly until the session ends. */
  lemma DeadStep(l: Link, cb: Callback)
    requires Sane(l) && Sessions.Invariant(l)
    ensures Stepwise(Dead, KillsCommand, KeepsSession, l, cb)
    ensures Dead(l) ==> (SameSession(l, Next(l, cb)) <==> KeepsSession(l, cb))
    ensures Dead(l) && KeepsSession(l, cb) ==> Silent(l, Next(l, cb))
  {
    hide OnData, Faithful, HungUp, Throttled, Aligned, Complete, RefusedFront, Encode, ExitText, OnExit, Send;
    if !cb.Data? {
      OthersDead(l, cb);
    } else if l.channel.Some? {
      DataDead(l, cb.chunk, cb.stale, cb.accepts, cb.up);
      RefusedChanges(l, cb.chunk, cb.stale, cb.accepts, cb.up);
    }
  }

  lemma OthersDead(l: Link, cb: Callback)
    requires Sane(l) && Alive(l) && !cb.Data?
    ensures Stepwise(Dead, KillsCommand, KeepsSession, l, cb)
    ensures Dead(l) ==> (SameSession(l, Next(l, cb)) <==> KeepsSession(l, cb))
    ensures Dead(l) && KeepsSession(l, cb) ==> Silent(l, Next(l, cb))
  {
    hide Encode, ExitText, Complete;
  }

  lemma RefusedChanges(l: Link, chunk: bytes, stale: byte, accepts: bool, up: bool)
    requires Sessions.Invariant(l) && l.channel.Some?
    ensures RefusedFront(Server, l.buf + chunk) && l.process.Some? ==>
              OnData(l, chunk, stale, accepts, up).channel.None?
  {
    OnDataCases(l, chunk, stale, accepts, up);
  }

  // ----------------------------------------------------------------- runs

  /** A run ends with a dead command if and only if one was ended by SIGTERM in its session and
      the session has not ended since. */
  lemma DeadIffKilledSince(up: bool, cbs: seq<Callback>)
    ensures Dead(Run(up, cbs))
            <==> exists i :: 0 <= i < |cbs| && Since(up, cbs, KillsCommand, KeepsSession, i)
  {
    assert !Dead(Run(up, []));
    hide *;
    forall k | 0 <= k < |cbs|
      ensures Stepwise(Dead, KillsCommand, KeepsSession, Run(up, cbs[..k]), cbs[k])
    {
      RunInvariant(up, cbs[..k]);
      DeadStep(Run(up, cbs[..k]), cbs[k]);
    }
    HoldsIffSince(up, cbs, Dead, KillsCommand, KeepsSession);
  }

  /** The state `r` is in a later session than `l`, or has no channel, or nothing has happened
      to the dead command. */
  predicate LaterOrSilent(l: Link, r: Link) {
    && l.sessions <= r.sessions
    && (r.sessions == l.sessions && r.channel.Some? ==> Dead(r) && Silent(l, r))
  }

  /** However a run goes on after the command died, until the session ends no frame is queued,
      no input reaches the process, and no soft-close comes. */
  lemma {:induction false} DeadStaysSilent(up: bool, cbs: seq<Callback>, more: seq<Callback>)
    requires Dead(Run(up, cbs))
    ensures LaterOrSilent(Run(up, cbs), Run(up, cbs + more))
    decreases |more|
  {
    if more == [] {
      assert cbs + more == cbs;
    } else {
      hide Run, Next, LaterOrSilent, Dead;
      var init, cb := more[..|more| - 1], more[|more| - 1];
      assert cbs + more == (cbs + init) + [cb];
      DeadStaysSilent(up, cbs, init);
      RunInvariant(up, cbs + init);
      RunSnoc(up, cbs + init, cb);
      SilentStep(Run(up, cbs), Run(up, cbs + init), cb);
    }
  }

  lemma SilentStep(start: Link, l: Link, cb: Callback)
    requires Sane(l) && Sessions.Invariant(l) && LaterOrSilent(start, l)
    ensures LaterOrSilent(start, Next(l, cb))
  {
    hide Invariant, Next, KeepsSession, KillsCommand, Continues;
    StepIsolates(l, cb);
    DeadStep(l, cb);
  }

  /** A run that gets there: any command, ended by SIGTERM. STARTED is all the client sees. */
  lemma DeadRun(f: Frame, stale: byte, up: bool, code: int64, first: bool, second: Outcome)
    requires Acceptable(Server, f)
    ensures var l := Run(true, [Data(Encode(f), stale, true, up)] + [ProcessExit(code, SIGTERM, first, second)]);
      && Dead(l) && l.channel.value.disconnects == 0 && l.outbuf == []
      && l.channel.value.queued == [Frame(STARTED, [])]
  {
    var start := [Data(Encode(f), stale, true, up)];
    FirstCommand(f, stale, true, up);
    RunSnoc(true, start, ProcessExit(code, SIGTERM, first, second));
    hide Run, Encode;
  }
}
